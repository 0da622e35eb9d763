/** The canonical serializer that `compareToLive` uses as an equality test.

    Models `stable` and `same` (app/components/builder/compare.ts). Texts are sequences of
    UTF-16 code units, because that is what JavaScript's `<` and `JSON.stringify` see. */
module CanonicalJson {
  import opened Order

  type Unit = u: int | 0 <= u < 0x1_0000
  type Text = seq<Unit>

  const QUOTE: Unit := 34
  const BACKSLASH: Unit := 92
  const COMMA: Unit := 44
  const COLON: Unit := 58
  const OPEN_BRACKET: Unit := 91
  const CLOSE_BRACKET: Unit := 93
  const OPEN_BRACE: Unit := 123
  const CLOSE_BRACE: Unit := 125

  const NULL_TEXT: Text := [110, 117, 108, 108]
  const TRUE_TEXT: Text := [116, 114, 117, 101]
  const FALSE_TEXT: Text := [102, 97, 108, 115, 101]

  /** What a number prints as: digits, sign, point and exponent, starting with a digit or
      a minus. A finite JavaScript number is represented by that text, which determines it. */
  predicate NumberText(t: Text) {
    && t != []
    && (t[0] == 45 || 48 <= t[0] <= 57)
    && forall i :: 0 <= i < |t| ==> NumberUnit(t[i])
  }

  predicate NumberUnit(u: Unit) {
    48 <= u <= 57 || u == 45 || u == 46 || u == 43 || u == 101
  }

  type Numeral = t: Text | NumberText(t) witness [48]

  datatype Value =
    | Undefined
    | Null
    | Bool(b: bool)
    | Number(numeral: Numeral)
    | String(text: Text)
    | Array(items: seq<Value>)
    | Object(members: seq<Member>)

  datatype Member = Member(key: Text, value: Value)

  /** The keys of one object are distinct, at every depth. */
  predicate WellFormed(v: Value) {
    match v
    case Array(items) => forall i :: 0 <= i < |items| ==> WellFormed(items[i])
    case Object(members) =>
      && (forall i, j :: 0 <= i < j < |members| ==> members[i].key != members[j].key)
      && (forall i :: 0 <= i < |members| ==> WellFormed(members[i].value))
    case _ => true
  }

  // --- JSON.stringify on a string ---

  function Hex(n: int): Unit
    requires 0 <= n < 16
  {
    if n < 10 then 48 + n else 87 + n
  }

  predicate High(u: Unit) { 0xD800 <= u < 0xDC00 }

  predicate Low(u: Unit) { 0xDC00 <= u < 0xE000 }

  /** The escape of one code unit that is not part of a surrogate pair. */
  function EscapeUnit(u: Unit): Text {
    if u == QUOTE || u == BACKSLASH then [BACKSLASH, u]
    else if u == 8 then [BACKSLASH, 98]
    else if u == 9 then [BACKSLASH, 116]
    else if u == 10 then [BACKSLASH, 110]
    else if u == 12 then [BACKSLASH, 102]
    else if u == 13 then [BACKSLASH, 114]
    else if u < 32 || High(u) || Low(u) then
      [BACKSLASH, 117, Hex(u / 4096), Hex(u / 256 % 16), Hex(u / 16 % 16), Hex(u % 16)]
    else [u]
  }

  predicate Paired(s: Text) {
    |s| >= 2 && High(s[0]) && Low(s[1])
  }

  /** How many code units the first character takes. */
  function Width(s: Text): (w: nat)
    requires s != []
    ensures 1 <= w <= |s|
  {
    if Paired(s) then 2 else 1
  }

  function EscapeFirst(s: Text): Text
    requires s != []
  {
    if Paired(s) then s[..2] else EscapeUnit(s[0])
  }

  function Escape(s: Text): Text {
    if s == [] then [] else EscapeFirst(s) + Escape(s[Width(s)..])
  }

  function Quoted(s: Text): Text {
    [QUOTE] + Escape(s) + [QUOTE]
  }

  // --- stable ---

  datatype Entry = Entry(key: Text, text: Text)

  function InsertEntry(e: Entry, sorted: seq<Entry>): seq<Entry> {
    if sorted == [] || Less(e.key, sorted[0].key) then [e] + sorted
    else [sorted[0]] + InsertEntry(e, sorted[1..])
  }

  /** What `stable` contributes to the array or the object around the value: `join` prints
      an undefined item as nothing. */
  function Stable(v: Value): Text
    decreases v, 0
  {
    match v
    case Undefined => []
    case Null => NULL_TEXT
    case Bool(b) => if b then TRUE_TEXT else FALSE_TEXT
    case Number(numeral) => numeral
    case String(text) => Quoted(text)
    case Array(items) => [OPEN_BRACKET] + StableItems(items) + [CLOSE_BRACKET]
    case Object(members) => [OPEN_BRACE] + JoinEntries(SortedEntries(members)) + [CLOSE_BRACE]
  }

  function StableItems(items: seq<Value>): Text
    decreases items, 1
  {
    if items == [] then []
    else if |items| == 1 then Stable(items[0])
    else Stable(items[0]) + [COMMA] + StableItems(items[1..])
  }

  /** The defined members, stringified and sorted by key. */
  function SortedEntries(members: seq<Member>): seq<Entry>
    decreases members, 1
  {
    if members == [] then []
    else if members[0].value.Undefined? then SortedEntries(members[1..])
    else InsertEntry(Entry(members[0].key, Stable(members[0].value)), SortedEntries(members[1..]))
  }

  function JoinEntries(entries: seq<Entry>): Text {
    if entries == [] then []
    else
      var first := Quoted(entries[0].key) + [COLON] + entries[0].text;
      if |entries| == 1 then first else first + [COMMA] + JoinEntries(entries[1..])
  }

  /** `same`: `stable` answers undefined for undefined, which equals no text. */
  predicate Same(a: Value, b: Value) {
    a.Undefined? == b.Undefined? && Stable(a) == Stable(b)
  }

  // --- what equality means ---

  /** Equal up to the order of object keys and members whose value is undefined. */
  ghost predicate Equivalent(a: Value, b: Value)
    decreases a
  {
    match a
    case Array(items) =>
      && b.Array? && |items| == |b.items|
      && (forall i :: 0 <= i < |items| ==> Equivalent(items[i], b.items[i]))
    case Object(members) =>
      && b.Object?
      && (forall i :: 0 <= i < |members| ==>
            members[i].value.Undefined?
            || exists j :: 0 <= j < |b.members| && b.members[j].key == members[i].key
                           && Equivalent(members[i].value, b.members[j].value))
      && (forall j :: 0 <= j < |b.members| ==>
            b.members[j].value.Undefined?
            || exists i :: 0 <= i < |members| && b.members[j].key == members[i].key
                           && Equivalent(members[i].value, b.members[j].value))
    case _ => a == b
  }

  /** No array holds `undefined` as its only item, at any depth. */
  predicate NoLoneUndefined(v: Value) {
    match v
    case Array(items) =>
      && items != [Undefined]
      && (forall i :: 0 <= i < |items| ==> NoLoneUndefined(items[i]))
    case Object(members) => forall i :: 0 <= i < |members| ==> NoLoneUndefined(members[i].value)
    case _ => true
  }

  // --- the ordered tree that is printed ---

  function InsertMember(m: Member, sorted: seq<Member>): seq<Member> {
    if sorted == [] || Less(m.key, sorted[0].key) then [m] + sorted
    else [sorted[0]] + InsertMember(m, sorted[1..])
  }

  /** The value with every object's defined members in key order. */
  function Canon(v: Value): Value
    decreases v, 0
  {
    match v
    case Array(items) => Array(CanonItems(items))
    case Object(members) => Object(CanonMembers(members))
    case _ => v
  }

  function CanonItems(items: seq<Value>): (r: seq<Value>)
    ensures |r| == |items|
    ensures forall i :: 0 <= i < |items| ==> r[i] == Canon(items[i])
    decreases items, 1
  {
    if items == [] then [] else [Canon(items[0])] + CanonItems(items[1..])
  }

  function CanonMembers(members: seq<Member>): seq<Member>
    decreases members, 1
  {
    if members == [] then []
    else if members[0].value.Undefined? then CanonMembers(members[1..])
    else InsertMember(Member(members[0].key, Canon(members[0].value)), CanonMembers(members[1..]))
  }

  /** Print a tree as it stands. */
  function Print(v: Value): Text
    decreases v, 0
  {
    match v
    case Undefined => []
    case Null => NULL_TEXT
    case Bool(b) => if b then TRUE_TEXT else FALSE_TEXT
    case Number(numeral) => numeral
    case String(text) => Quoted(text)
    case Array(items) => [OPEN_BRACKET] + PrintItems(items) + [CLOSE_BRACKET]
    case Object(members) => [OPEN_BRACE] + PrintMembers(members) + [CLOSE_BRACE]
  }

  function PrintItems(items: seq<Value>): Text
    decreases items, 1
  {
    if items == [] then []
    else if |items| == 1 then Print(items[0])
    else Print(items[0]) + [COMMA] + PrintItems(items[1..])
  }

  function PrintMembers(members: seq<Member>): Text
    decreases members, 1
  {
    if members == [] then []
    else
      var first := Quoted(members[0].key) + [COLON] + Print(members[0].value);
      if |members| == 1 then first else first + [COMMA] + PrintMembers(members[1..])
  }

  // --- stable prints the canonical tree ---

  function EntriesOf(members: seq<Member>): seq<Entry> {
    if members == [] then []
    else [Entry(members[0].key, Print(members[0].value))] + EntriesOf(members[1..])
  }

  lemma {:induction false} EntriesOfInsert(m: Member, sorted: seq<Member>)
    ensures EntriesOf(InsertMember(m, sorted)) == InsertEntry(Entry(m.key, Print(m.value)), EntriesOf(sorted))
  {
    if sorted == [] || Less(m.key, sorted[0].key) {
      assert ([m] + sorted)[1..] == sorted;
    } else {
      EntriesOfInsert(m, sorted[1..]);
      assert EntriesOf(sorted)[1..] == EntriesOf(sorted[1..]);
      assert ([sorted[0]] + InsertMember(m, sorted[1..]))[1..] == InsertMember(m, sorted[1..]);
    }
  }

  lemma {:induction false} PrintMembersJoins(members: seq<Member>)
    ensures PrintMembers(members) == JoinEntries(EntriesOf(members))
  {
    if members != [] {
      PrintMembersJoins(members[1..]);
      assert EntriesOf(members)[1..] == EntriesOf(members[1..]);
      assert |members| == 1 <==> EntriesOf(members[1..]) == [];
    }
  }

  lemma {:induction false} StablePrintsCanon(v: Value)
    ensures Stable(v) == Print(Canon(v))
    decreases v, 0
  {
    match v
    case Array(items) => StableItemsPrintCanon(items);
    case Object(members) =>
      SortedEntriesPrintCanon(members);
      PrintMembersJoins(CanonMembers(members));
    case _ =>
  }

  lemma {:induction false} StableItemsPrintCanon(items: seq<Value>)
    ensures StableItems(items) == PrintItems(CanonItems(items))
    decreases items, 1
  {
    if items != [] {
      StablePrintsCanon(items[0]);
      StableItemsPrintCanon(items[1..]);
      assert CanonItems(items)[1..] == CanonItems(items[1..]);
    }
  }

  lemma {:induction false} SortedEntriesPrintCanon(members: seq<Member>)
    ensures SortedEntries(members) == EntriesOf(CanonMembers(members))
    decreases members, 1
  {
    if members != [] {
      SortedEntriesPrintCanon(members[1..]);
      StablePrintsCanon(members[0].value);
      if !members[0].value.Undefined? {
        EntriesOfInsert(Member(members[0].key, Canon(members[0].value)), CanonMembers(members[1..]));
      }
    }
  }

  // --- printing is injective ---

  /** What can stand behind a printed value: nothing, or a comma or a closing bracket. */
  predicate Closed(rest: Text) {
    rest == [] || rest[0] == COMMA || rest[0] == CLOSE_BRACKET || rest[0] == CLOSE_BRACE
  }

  lemma FourDigits(u: Unit, w: Unit)
    requires u / 4096 == w / 4096 && u / 256 % 16 == w / 256 % 16
    requires u / 16 % 16 == w / 16 % 16 && u % 16 == w % 16
    ensures u == w
  {
    assert u / 256 == 16 * (u / 4096) + u / 256 % 16;
    assert w / 256 == 16 * (w / 4096) + w / 256 % 16;
    assert u / 16 == 16 * (u / 256) + u / 16 % 16;
    assert w / 16 == 16 * (w / 256) + w / 16 % 16;
  }

  lemma EscapeUnitPrefixFree(u: Unit, w: Unit, x: Text, y: Text)
    requires EscapeUnit(u) + x == EscapeUnit(w) + y
    ensures u == w && x == y
  {
    var left := EscapeUnit(u) + x;
    var right := EscapeUnit(w) + y;
    assert left[0] == EscapeUnit(u)[0] && right[0] == EscapeUnit(w)[0];
    if left[0] == BACKSLASH {
      assert left[1] == EscapeUnit(u)[1] && right[1] == EscapeUnit(w)[1];
      if left[1] == 117 {
        assert left[2] == EscapeUnit(u)[2] && left[3] == EscapeUnit(u)[3];
        assert left[4] == EscapeUnit(u)[4] && left[5] == EscapeUnit(u)[5];
        assert right[2] == EscapeUnit(w)[2] && right[3] == EscapeUnit(w)[3];
        assert right[4] == EscapeUnit(w)[4] && right[5] == EscapeUnit(w)[5];
        FourDigits(u, w);
      }
    }
    assert u == w;
    assert x == left[|EscapeUnit(u)|..] && y == right[|EscapeUnit(w)|..];
  }

  lemma EscapeFirstPrefixFree(s: Text, t: Text, x: Text, y: Text)
    requires s != [] && t != []
    requires EscapeFirst(s) + x == EscapeFirst(t) + y
    ensures s[..Width(s)] == t[..Width(t)] && x == y
  {
    var left := EscapeFirst(s) + x;
    var right := EscapeFirst(t) + y;
    assert left[0] == EscapeFirst(s)[0] && right[0] == EscapeFirst(t)[0];
    if Paired(s) || Paired(t) {
      assert left[1] == s[1] && right[1] == t[1];
      assert x == left[2..] && y == right[2..];
    } else {
      EscapeUnitPrefixFree(s[0], t[0], x, y);
    }
  }

  lemma {:induction false} EscapeInjective(s: Text, t: Text, x: Text, y: Text)
    requires Escape(s) + [QUOTE] + x == Escape(t) + [QUOTE] + y
    ensures s == t && x == y
    decreases |s|
  {
    EscapeEnds(s, x);
    EscapeEnds(t, y);
    if s != [] {
      var p, q := s[Width(s)..], t[Width(t)..];
      var a, b := Escape(p) + [QUOTE] + x, Escape(q) + [QUOTE] + y;
      Regroup(EscapeFirst(s), Escape(p), [QUOTE], x);
      Regroup(EscapeFirst(t), Escape(q), [QUOTE], y);
      EscapeFirstPrefixFree(s, t, a, b);
      EscapeInjective(p, q, x, y);
      assert s == s[..Width(s)] + p && t == t[..Width(t)] + q;
    }
  }

  lemma Regroup(a: Text, b: Text, c: Text, d: Text)
    ensures a + b + c + d == a + (b + c + d)
  {
  }

  lemma EscapeEnds(s: Text, x: Text)
    ensures s == [] <==> (Escape(s) + [QUOTE] + x)[0] == QUOTE
    ensures s == [] ==> (Escape(s) + [QUOTE] + x)[1..] == x
  {
    if s != [] {
      assert (Escape(s) + [QUOTE] + x)[0] == EscapeFirst(s)[0];
    }
  }

  lemma QuotedInjective(s: Text, t: Text, x: Text, y: Text)
    requires Quoted(s) + x == Quoted(t) + y
    ensures s == t && x == y
  {
    var left := Quoted(s) + x;
    var right := Quoted(t) + y;
    assert left[1..] == Escape(s) + [QUOTE] + x && right[1..] == Escape(t) + [QUOTE] + y;
    EscapeInjective(s, t, x, y);
  }

  lemma {:induction false} NumeralInjective(m: Text, n: Text, x: Text, y: Text)
    requires forall i :: 0 <= i < |m| ==> NumberUnit(m[i])
    requires forall i :: 0 <= i < |n| ==> NumberUnit(n[i])
    requires Closed(x) && Closed(y)
    requires m + x == n + y
    ensures m == n && x == y
  {
    var t := m + x;
    assert forall i :: 0 <= i < |m| ==> t[i] == m[i];
    assert |m| < |t| ==> t[|m|] == x[0];
    assert forall i :: 0 <= i < |n| ==> t[i] == (n + y)[i] == n[i];
    assert |n| < |t| ==> t[|n|] == (n + y)[|n|] == y[0];
    assert |m| == |n|;
    assert m == t[..|m|] && n == t[..|n|];
    assert x == t[|m|..] && y == t[|n|..];
  }

  /** The first unit of a printed value tells the kinds apart. */
  function Mark(v: Value): int {
    match v
    case Undefined => 0
    case Null => 110
    case Bool(b) => if b then 116 else 102
    case Number(_) => 48
    case String(_) => QUOTE
    case Array(_) => OPEN_BRACKET
    case Object(_) => OPEN_BRACE
  }

  lemma PrintMarks(v: Value, x: Text)
    requires Closed(x)
    ensures v.Undefined? <==> Closed(Print(v) + x)
    ensures !v.Undefined? ==>
              var first := (Print(v) + x)[0];
              Mark(v) == if first == 45 || 48 <= first <= 57 then 48 else first
  {
    if v.Undefined? {
      assert Print(v) + x == x;
    } else {
      assert (Print(v) + x)[0] == Print(v)[0];
    }
  }

  lemma LeafInjective(a: Value, b: Value, x: Text, y: Text)
    requires !a.Array? && !a.Object?
    requires Mark(a) == Mark(b)
    requires Closed(x) && Closed(y)
    requires Print(a) + x == Print(b) + y
    ensures a == b && x == y
  {
    if a.Number? {
      NumeralInjective(a.numeral, b.numeral, x, y);
    } else if a.String? {
      QuotedInjective(a.text, b.text, x, y);
    } else {
      assert Print(a) == Print(b);
      assert x == (Print(a) + x)[|Print(a)|..] && y == (Print(b) + y)[|Print(a)|..];
    }
  }

  lemma {:induction false} PrintInjective(a: Value, b: Value, x: Text, y: Text)
    requires NoLoneUndefined(a) && NoLoneUndefined(b)
    requires Closed(x) && Closed(y)
    requires Print(a) + x == Print(b) + y
    ensures a == b && x == y
    decreases a, 0
  {
    PrintMarks(a, x);
    PrintMarks(b, y);
    assert Mark(a) == Mark(b);
    if a.Array? {
      AfterFirst(OPEN_BRACKET, PrintItems(a.items), CLOSE_BRACKET, x);
      AfterFirst(OPEN_BRACKET, PrintItems(b.items), CLOSE_BRACKET, y);
      ArrayInjective(a.items, b.items, x, y);
    } else if a.Object? {
      AfterFirst(OPEN_BRACE, PrintMembers(a.members), CLOSE_BRACE, x);
      AfterFirst(OPEN_BRACE, PrintMembers(b.members), CLOSE_BRACE, y);
      MembersInjective(a.members, b.members, x, y);
    } else {
      LeafInjective(a, b, x, y);
    }
  }

  lemma AfterFirst(open: Unit, body: Text, close: Unit, x: Text)
    ensures ([open] + body + [close] + x)[1..] == body + [close] + x
  {
  }

  lemma {:induction false} ArrayInjective(a: seq<Value>, b: seq<Value>, x: Text, y: Text)
    requires a != [Undefined] && b != [Undefined]
    requires forall i :: 0 <= i < |a| ==> NoLoneUndefined(a[i])
    requires forall i :: 0 <= i < |b| ==> NoLoneUndefined(b[i])
    requires PrintItems(a) + [CLOSE_BRACKET] + x == PrintItems(b) + [CLOSE_BRACKET] + y
    ensures a == b && x == y
    decreases a, 2
  {
    if a == [] || b == [] {
      EmptyOrNot(a, x);
      EmptyOrNot(b, y);
      assert x == (PrintItems(a) + [CLOSE_BRACKET] + x)[1..];
    } else {
      ItemsInjective(a, b, x, y);
    }
  }

  lemma EmptyOrNot(a: seq<Value>, x: Text)
    requires a != [Undefined]
    ensures a == [] <==> (PrintItems(a) + [CLOSE_BRACKET] + x)[0] == CLOSE_BRACKET
    ensures a == [] ==> (PrintItems(a) + [CLOSE_BRACKET] + x)[1..] == x
  {
    if |a| == 1 {
      PrintMarks(a[0], [CLOSE_BRACKET] + x);
      assert PrintItems(a) + [CLOSE_BRACKET] + x == Print(a[0]) + ([CLOSE_BRACKET] + x);
    } else if |a| > 1 {
      var tail := [COMMA] + PrintItems(a[1..]) + [CLOSE_BRACKET] + x;
      PrintMarks(a[0], tail);
      assert PrintItems(a) + [CLOSE_BRACKET] + x == Print(a[0]) + tail;
      assert tail[0] == COMMA;
    }
  }

  /** What follows the first item: the closing bracket, or a comma and the other items. */
  function AfterItem(a: seq<Value>, x: Text): Text
    requires a != []
  {
    if |a| == 1 then [CLOSE_BRACKET] + x else [COMMA] + (PrintItems(a[1..]) + [CLOSE_BRACKET] + x)
  }

  lemma ItemsUnfold(a: seq<Value>, x: Text)
    requires a != []
    ensures PrintItems(a) + [CLOSE_BRACKET] + x == Print(a[0]) + AfterItem(a, x)
  {
    var first := Print(a[0]);
    if |a| == 1 {
      Associate(first, [CLOSE_BRACKET], x);
    } else {
      var rest := PrintItems(a[1..]);
      RegroupRight(first, [COMMA], rest, [CLOSE_BRACKET] + x);
      Associate(first + [COMMA] + rest, [CLOSE_BRACKET], x);
      Associate(rest, [CLOSE_BRACKET], x);
    }
  }

  lemma {:induction false} ItemsInjective(a: seq<Value>, b: seq<Value>, x: Text, y: Text)
    requires a != [] && b != []
    requires forall i :: 0 <= i < |a| ==> NoLoneUndefined(a[i])
    requires forall i :: 0 <= i < |b| ==> NoLoneUndefined(b[i])
    requires PrintItems(a) + [CLOSE_BRACKET] + x == PrintItems(b) + [CLOSE_BRACKET] + y
    ensures a == b && x == y
    decreases a, 1
  {
    ItemsUnfold(a, x);
    ItemsUnfold(b, y);
    var p, q := AfterItem(a, x), AfterItem(b, y);
    PrintInjective(a[0], b[0], p, q);
    assert p[0] == if |a| == 1 then CLOSE_BRACKET else COMMA;
    assert q[0] == if |b| == 1 then CLOSE_BRACKET else COMMA;
    if |a| == 1 {
      assert x == p[1..] && y == q[1..];
    } else {
      assert p[1..] == PrintItems(a[1..]) + [CLOSE_BRACKET] + x;
      assert q[1..] == PrintItems(b[1..]) + [CLOSE_BRACKET] + y;
      ItemsInjective(a[1..], b[1..], x, y);
    }
    assert a == [a[0]] + a[1..] && b == [b[0]] + b[1..];
  }

  /** What follows the first member: the closing brace, or a comma and the other members. */
  function AfterMember(a: seq<Member>, x: Text): Text
    requires a != []
  {
    if |a| == 1 then [CLOSE_BRACE] + x else [COMMA] + (PrintMembers(a[1..]) + [CLOSE_BRACE] + x)
  }

  lemma MembersUnfold(a: seq<Member>, x: Text)
    requires a != []
    ensures PrintMembers(a) + [CLOSE_BRACE] + x
            == Quoted(a[0].key) + ([COLON] + (Print(a[0].value) + AfterMember(a, x)))
  {
    var key, value := Quoted(a[0].key), Print(a[0].value);
    if |a| == 1 {
      RegroupRight(key, [COLON], value, [CLOSE_BRACE] + x);
      Associate(key + [COLON] + value, [CLOSE_BRACE], x);
    } else {
      var rest := PrintMembers(a[1..]);
      var first := key + [COLON] + value;
      RegroupRight(first, [COMMA], rest, [CLOSE_BRACE] + x);
      Associate(first + [COMMA] + rest, [CLOSE_BRACE], x);
      Associate(rest, [CLOSE_BRACE], x);
      RegroupRight(key, [COLON], value, [COMMA] + (rest + [CLOSE_BRACE] + x));
    }
  }

  lemma Associate(a: Text, b: Text, c: Text)
    ensures a + b + c == a + (b + c)
  {
  }

  lemma RegroupRight(a: Text, b: Text, c: Text, d: Text)
    ensures a + b + c + d == a + (b + (c + d))
  {
  }

  lemma {:induction false} MembersInjective(a: seq<Member>, b: seq<Member>, x: Text, y: Text)
    requires forall i :: 0 <= i < |a| ==> NoLoneUndefined(a[i].value)
    requires forall i :: 0 <= i < |b| ==> NoLoneUndefined(b[i].value)
    requires PrintMembers(a) + [CLOSE_BRACE] + x == PrintMembers(b) + [CLOSE_BRACE] + y
    ensures a == b && x == y
    decreases a, 2
  {
    NoMembers(a, x);
    NoMembers(b, y);
    if a == [] {
      assert b == [];
    } else {
      SomeMembersInjective(a, b, x, y);
    }
  }

  lemma NoMembers(a: seq<Member>, x: Text)
    ensures a == [] <==> (PrintMembers(a) + [CLOSE_BRACE] + x)[0] == CLOSE_BRACE
    ensures a == [] ==> (PrintMembers(a) + [CLOSE_BRACE] + x)[1..] == x
  {
    if a != [] {
      MembersUnfold(a, x);
    }
  }

  lemma {:induction false} SomeMembersInjective(a: seq<Member>, b: seq<Member>, x: Text, y: Text)
    requires a != [] && b != []
    requires forall i :: 0 <= i < |a| ==> NoLoneUndefined(a[i].value)
    requires forall i :: 0 <= i < |b| ==> NoLoneUndefined(b[i].value)
    requires PrintMembers(a) + [CLOSE_BRACE] + x == PrintMembers(b) + [CLOSE_BRACE] + y
    ensures a == b && x == y
    decreases a, 1
  {
    MembersUnfold(a, x);
    MembersUnfold(b, y);
    var p, q := AfterMember(a, x), AfterMember(b, y);
    var va, vb := Print(a[0].value) + p, Print(b[0].value) + q;
    QuotedInjective(a[0].key, b[0].key, [COLON] + va, [COLON] + vb);
    assert va == ([COLON] + va)[1..] && vb == ([COLON] + vb)[1..];
    PrintInjective(a[0].value, b[0].value, p, q);
    assert p[0] == if |a| == 1 then CLOSE_BRACE else COMMA;
    assert q[0] == if |b| == 1 then CLOSE_BRACE else COMMA;
    if |a| == 1 {
      assert x == p[1..] && y == q[1..];
    } else {
      assert p[1..] == PrintMembers(a[1..]) + [CLOSE_BRACE] + x;
      assert q[1..] == PrintMembers(b[1..]) + [CLOSE_BRACE] + y;
      MembersInjective(a[1..], b[1..], x, y);
    }
    assert a == [a[0]] + a[1..] && b == [b[0]] + b[1..];
  }

  // --- the canonical tree decides equality ---

  predicate KeyLess(m: Member, n: Member) {
    Less(m.key, n.key)
  }

  lemma KeyLessIsStrictOrder()
    ensures StrictOrder(KeyLess)
  {
    LessIsStrictOrder();
  }

  lemma {:induction false} InsertKeepsAscending(m: Member, sorted: seq<Member>)
    requires Ascending(KeyLess, sorted)
    requires forall x :: x in sorted ==> x.key != m.key
    ensures Ascending(KeyLess, InsertMember(m, sorted))
    ensures forall x :: x in InsertMember(m, sorted) <==> x == m || x in sorted
  {
    KeyLessIsStrictOrder();
    if sorted == [] || Less(m.key, sorted[0].key) {
    } else {
      var rest := InsertMember(m, sorted[1..]);
      InsertKeepsAscending(m, sorted[1..]);
      LessTotal(m.key, sorted[0].key);
      assert forall x :: x in sorted <==> x == sorted[0] || x in sorted[1..];
      forall j | 0 <= j < |rest|
        ensures KeyLess(sorted[0], rest[j])
      {
        assert rest[j] in rest;
      }
    }
  }

  predicate UniqueKeys(members: seq<Member>) {
    forall i, j :: 0 <= i < j < |members| ==> members[i].key != members[j].key
  }

  ghost predicate CanonOf(m: Member, members: seq<Member>) {
    exists i :: 0 <= i < |members| && !members[i].value.Undefined?
                && m == Member(members[i].key, Canon(members[i].value))
  }

  lemma {:induction false} CanonMembersAre(members: seq<Member>)
    requires UniqueKeys(members)
    ensures Ascending(KeyLess, CanonMembers(members))
    ensures forall m :: m in CanonMembers(members) <==> CanonOf(m, members)
  {
    if members != [] {
      var rest := CanonMembers(members[1..]);
      CanonMembersAre(members[1..]);
      forall m
        ensures CanonOf(m, members[1..]) ==> CanonOf(m, members) && m.key != members[0].key
      {
        if CanonOf(m, members[1..]) {
          var i :| 0 <= i < |members[1..]| && !members[1..][i].value.Undefined?
                   && m == Member(members[1..][i].key, Canon(members[1..][i].value));
          assert members[i + 1] == members[1..][i];
        }
      }
      forall m
        ensures CanonOf(m, members) ==> CanonOf(m, members[1..])
                                        || (!members[0].value.Undefined? &&
                                             m == Member(members[0].key, Canon(members[0].value)))
      {
        if CanonOf(m, members) {
          var i :| 0 <= i < |members| && !members[i].value.Undefined?
                   && m == Member(members[i].key, Canon(members[i].value));
          assert i > 0 ==> members[1..][i - 1] == members[i];
        }
      }
      if !members[0].value.Undefined? {
        InsertKeepsAscending(Member(members[0].key, Canon(members[0].value)), rest);
      }
    }
  }

  lemma {:induction false} CanonDecides(a: Value, b: Value)
    requires WellFormed(a) && WellFormed(b)
    ensures Canon(a) == Canon(b) <==> Equivalent(a, b)
    decreases a
  {
    if a.Array? && b.Array? {
      if |a.items| == |b.items| {
        forall i | 0 <= i < |a.items|
          ensures CanonItems(a.items)[i] == CanonItems(b.items)[i] <==> Equivalent(a.items[i], b.items[i])
        {
          CanonDecides(a.items[i], b.items[i]);
        }
      }
    } else if a.Object? && b.Object? {
      forall i, j | 0 <= i < |a.members| && 0 <= j < |b.members|
        ensures Canon(a.members[i].value) == Canon(b.members[j].value)
                <==> Equivalent(a.members[i].value, b.members[j].value)
      {
        CanonDecides(a.members[i].value, b.members[j].value);
      }
      ObjectDecides(a.members, b.members);
    }
  }

  /** Two member lists have the same canonical members exactly when each defined member of
      one has a partner in the other with the same key and the same canonical value. */
  lemma ObjectDecides(a: seq<Member>, b: seq<Member>)
    requires UniqueKeys(a) && UniqueKeys(b)
    ensures CanonMembers(a) == CanonMembers(b) <==> Partnered(a, b) && Partnered(b, a)
  {
    CanonMembersAre(a);
    CanonMembersAre(b);
    if Partnered(a, b) && Partnered(b, a) {
      PartnersAreMembers(a, b);
      PartnersAreMembers(b, a);
      KeyLessIsStrictOrder();
      AscendingIsUnique(KeyLess, CanonMembers(a), CanonMembers(b));
    }
    if CanonMembers(a) == CanonMembers(b) {
      MembersArePartners(a, b);
      MembersArePartners(b, a);
    }
  }

  ghost predicate Partnered(a: seq<Member>, b: seq<Member>) {
    forall i :: 0 <= i < |a| ==>
                  a[i].value.Undefined?
                  || exists j :: 0 <= j < |b| && b[j].key == a[i].key && Canon(b[j].value) == Canon(a[i].value)
  }

  lemma PartnersAreMembers(a: seq<Member>, b: seq<Member>)
    requires Partnered(a, b)
    ensures forall m :: CanonOf(m, a) ==> CanonOf(m, b)
  {
    forall m | CanonOf(m, a)
      ensures CanonOf(m, b)
    {
      var i :| 0 <= i < |a| && !a[i].value.Undefined? && m == Member(a[i].key, Canon(a[i].value));
      var j :| 0 <= j < |b| && b[j].key == a[i].key && Canon(b[j].value) == Canon(a[i].value);
      assert !b[j].value.Undefined?;
    }
  }

  lemma MembersArePartners(a: seq<Member>, b: seq<Member>)
    requires forall m :: CanonOf(m, a) ==> CanonOf(m, b)
    ensures Partnered(a, b)
  {
    forall i | 0 <= i < |a| && !a[i].value.Undefined?
      ensures exists j :: 0 <= j < |b| && b[j].key == a[i].key && Canon(b[j].value) == Canon(a[i].value)
    {
      assert CanonOf(Member(a[i].key, Canon(a[i].value)), a);
      assert CanonOf(Member(a[i].key, Canon(a[i].value)), b);
    }
  }

  lemma {:induction false} CanonKeepsNoLone(v: Value)
    requires NoLoneUndefined(v)
    ensures NoLoneUndefined(Canon(v))
    ensures Canon(v).Undefined? <==> v.Undefined?
    decreases v, 0
  {
    match v
    case Array(items) =>
      forall i | 0 <= i < |items|
        ensures NoLoneUndefined(CanonItems(items)[i]) && (Canon(items[i]).Undefined? <==> items[i].Undefined?)
      {
        CanonKeepsNoLone(items[i]);
      }
      assert |items| != 1 || items == [items[0]];
    case Object(members) => CanonMembersKeepNoLone(members);
    case _ =>
  }

  lemma {:induction false} CanonMembersKeepNoLone(members: seq<Member>)
    requires forall i :: 0 <= i < |members| ==> NoLoneUndefined(members[i].value)
    ensures forall m :: m in CanonMembers(members) ==> NoLoneUndefined(m.value)
    decreases members, 1
  {
    if members != [] {
      CanonMembersKeepNoLone(members[1..]);
      CanonKeepsNoLone(members[0].value);
      InsertElements(Member(members[0].key, Canon(members[0].value)), CanonMembers(members[1..]));
    }
  }

  lemma {:induction false} InsertElements(m: Member, sorted: seq<Member>)
    ensures forall x :: x in InsertMember(m, sorted) ==> x == m || x in sorted
  {
    if sorted != [] && !Less(m.key, sorted[0].key) {
      InsertElements(m, sorted[1..]);
    }
  }

  // --- the theorem ---

  /** Every `[undefined]` replaced by `[]`. */
  function Collapse(v: Value): Value
    decreases v, 0
  {
    match v
    case Array(items) => Array(if items == [Undefined] then [] else CollapseItems(items))
    case Object(members) => Object(CollapseMembers(members))
    case _ => v
  }

  function CollapseItems(items: seq<Value>): (r: seq<Value>)
    ensures |r| == |items|
    ensures forall i :: 0 <= i < |items| ==> r[i] == Collapse(items[i])
    decreases items, 1
  {
    if items == [] then [] else [Collapse(items[0])] + CollapseItems(items[1..])
  }

  function CollapseMembers(members: seq<Member>): (r: seq<Member>)
    ensures |r| == |members|
    ensures forall i :: 0 <= i < |members| ==> r[i] == Member(members[i].key, Collapse(members[i].value))
    decreases members, 1
  {
    if members == [] then []
    else [Member(members[0].key, Collapse(members[0].value))] + CollapseMembers(members[1..])
  }

  lemma {:induction false} CollapseFacts(v: Value)
    ensures Stable(Collapse(v)) == Stable(v)
    ensures NoLoneUndefined(Collapse(v))
    ensures WellFormed(v) ==> WellFormed(Collapse(v))
    ensures Collapse(v).Undefined? <==> v.Undefined?
    ensures NoLoneUndefined(v) ==> Collapse(v) == v
    decreases v, 0
  {
    match v
    case Array(items) => CollapseItemsFacts(items);
    case Object(members) => CollapseMembersFacts(members);
    case _ =>
  }

  lemma {:induction false} CollapseItemsFacts(items: seq<Value>)
    ensures StableItems(CollapseItems(items)) == StableItems(items)
    ensures forall i :: 0 <= i < |items| ==> NoLoneUndefined(Collapse(items[i]))
    ensures forall i :: 0 <= i < |items| ==> (Collapse(items[i]).Undefined? <==> items[i].Undefined?)
    ensures forall i :: 0 <= i < |items| && WellFormed(items[i]) ==> WellFormed(Collapse(items[i]))
    ensures forall i :: 0 <= i < |items| && NoLoneUndefined(items[i]) ==> Collapse(items[i]) == items[i]
    decreases items, 1
  {
    if items != [] {
      CollapseFacts(items[0]);
      CollapseItemsFacts(items[1..]);
      assert CollapseItems(items)[1..] == CollapseItems(items[1..]);
      assert forall i :: 0 < i < |items| ==> items[i] == items[1..][i - 1];
    }
  }

  lemma {:induction false} CollapseMembersFacts(members: seq<Member>)
    ensures SortedEntries(CollapseMembers(members)) == SortedEntries(members)
    ensures forall i :: 0 <= i < |members| ==> NoLoneUndefined(Collapse(members[i].value))
    ensures forall i :: 0 <= i < |members| && WellFormed(members[i].value) ==> WellFormed(Collapse(members[i].value))
    ensures forall i :: 0 <= i < |members| && NoLoneUndefined(members[i].value)
                        ==> Collapse(members[i].value) == members[i].value
    decreases members, 1
  {
    if members != [] {
      CollapseFacts(members[0].value);
      CollapseMembersFacts(members[1..]);
      assert CollapseMembers(members)[1..] == CollapseMembers(members[1..]);
      assert forall i :: 0 < i < |members| ==> members[i] == members[1..][i - 1];
    }
  }

  /** `same` decides equality exactly, once `[undefined]` is read as `[]`. */
  lemma SameIsExact(a: Value, b: Value)
    requires WellFormed(a) && WellFormed(b)
    ensures Same(a, b) <==> Equivalent(Collapse(a), Collapse(b))
  {
    var ca, cb := Collapse(a), Collapse(b);
    CollapseFacts(a);
    CollapseFacts(b);
    StablePrintsCanon(ca);
    StablePrintsCanon(cb);
    CanonKeepsNoLone(ca);
    CanonKeepsNoLone(cb);
    CanonDecides(ca, cb);
    if Same(a, b) {
      assert Print(Canon(ca)) + [] == Print(Canon(cb)) + [];
      PrintInjective(Canon(ca), Canon(cb), [], []);
    }
  }

  /** For JSON values, `same` hides no change and invents none. */
  lemma SameIsEquivalence(a: Value, b: Value)
    requires WellFormed(a) && WellFormed(b)
    requires NoLoneUndefined(a) && NoLoneUndefined(b)
    ensures Same(a, b) <==> Equivalent(a, b)
  {
    SameIsExact(a, b);
    CollapseFacts(a);
    CollapseFacts(b);
  }

  /** The one ambiguity: `join` prints an undefined item as nothing, so an array holding
      only `undefined` looks empty. */
  lemma LoneUndefinedLooksEmpty()
    ensures Same(Array([Undefined]), Array([]))
    ensures !Equivalent(Array([Undefined]), Array([]))
  {
    assert StableItems([Undefined]) == Stable(Undefined) == [];
  }
}
