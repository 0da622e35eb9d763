/** Which colour slot a chart series gets.

    Models `hashKey`, `slotForKey`, `compareByCodePoint` and `assignColors`
    (app/components/charts/palette.ts). A key is a JavaScript string: a sequence of UTF-16
    code units, lone surrogates included. */
module Palette {
  import opened Order
  import opened Probing

  type Unit = u: int | 0 <= u < 0x1_0000
  type Key = seq<Unit>

  // --- code points ---

  predicate High(u: int) { 0xD800 <= u < 0xDC00 }

  predicate Low(u: int) { 0xDC00 <= u < 0xE000 }

  predicate Paired(key: Key) {
    |key| >= 2 && High(key[0]) && Low(key[1])
  }

  /** `[...key]`: a surrogate pair is one code point, a lone surrogate is itself. */
  function CodePoints(key: Key): seq<int> {
    if key == [] then []
    else if Paired(key) then
      [0x1_0000 + (key[0] - 0xD800) * 0x400 + (key[1] - 0xDC00)] + CodePoints(key[2..])
    else [key[0] as int] + CodePoints(key[1..])
  }

  function Units(points: seq<int>): seq<int> {
    if points == [] then []
    else if points[0] >= 0x1_0000 then
      [0xD800 + (points[0] - 0x1_0000) / 0x400, 0xDC00 + (points[0] - 0x1_0000) % 0x400] + Units(points[1..])
    else [points[0]] + Units(points[1..])
  }

  lemma {:induction false} UnitsOfCodePoints(key: Key)
    ensures Units(CodePoints(key)) == key
    decreases |key|
  {
    if key == [] {
    } else if Paired(key) {
      UnitsOfCodePoints(key[2..]);
      var high: int, low: int := key[0], key[1];
      var point := 0x1_0000 + (high - 0xD800) * 0x400 + (low - 0xDC00);
      assert CodePoints(key)[1..] == CodePoints(key[2..]);
      assert (point - 0x1_0000) / 0x400 == key[0] - 0xD800;
      assert (point - 0x1_0000) % 0x400 == key[1] - 0xDC00;
      assert key == [key[0], key[1]] + key[2..];
    } else {
      UnitsOfCodePoints(key[1..]);
      assert CodePoints(key)[1..] == CodePoints(key[1..]);
      assert key == [key[0]] + key[1..];
    }
  }

  predicate IsScalar(point: int) {
    0 <= point < 0x11_0000 && !High(point) && !Low(point)
  }

  lemma SplitPoint(point: int)
    requires 0x1_0000 <= point < 0x11_0000
    ensures var high, low := 0xD800 + (point - 0x1_0000) / 0x400, 0xDC00 + (point - 0x1_0000) % 0x400;
            High(high) && Low(low) && 0x1_0000 + (high - 0xD800) * 0x400 + (low - 0xDC00) == point
  {
  }

  /** Every text of Unicode scalar values comes back from its units: pairs are joined. */
  lemma {:induction false} CodePointsOfUnits(points: seq<int>)
    requires forall i :: 0 <= i < |points| ==> IsScalar(points[i])
    ensures forall i :: 0 <= i < |Units(points)| ==> 0 <= Units(points)[i] < 0x1_0000
    ensures CodePoints(Units(points)) == points
  {
    if points != [] {
      var units, rest := Units(points), Units(points[1..]);
      CodePointsOfUnits(points[1..]);
      if points[0] >= 0x1_0000 {
        SplitPoint(points[0]);
        assert units[2..] == rest;
      } else {
        assert units[1..] == rest;
      }
      assert points == [points[0]] + points[1..];
    }
  }

  // --- the order ---

  /** `compareByCodePoint`: the first differing code point decides, then the length. */
  method CompareByCodePoint(a: Key, b: Key) returns (difference: int)
    ensures difference < 0 <==> KeyLess(a, b)
    ensures difference > 0 <==> KeyLess(b, a)
    ensures difference == 0 <==> a == b
  {
    var left, right := CodePoints(a), CodePoints(b);
    var index := 0;
    while index < |left| && index < |right|
      invariant 0 <= index <= |left| && index <= |right|
      invariant left[..index] == right[..index]
    {
      difference := left[index] - right[index];
      if difference != 0 {
        FirstDifference(left, right, index);
        return;
      }
      index := index + 1;
    }
    difference := |left| - |right|;
    PrefixCompare(left, right, index);
    UnitsOfCodePoints(a);
    UnitsOfCodePoints(b);
    LessIrreflexive(left);
  }

  predicate KeyLess(a: Key, b: Key) {
    Less(CodePoints(a), CodePoints(b))
  }

  lemma {:induction false} FirstDifference(a: seq<int>, b: seq<int>, index: nat)
    requires index < |a| && index < |b|
    requires a[..index] == b[..index] && a[index] != b[index]
    ensures Less(a, b) <==> a[index] < b[index]
    ensures Less(b, a) <==> b[index] < a[index]
  {
    if index > 0 {
      assert a[0] == a[..index][0] && b[0] == b[..index][0];
      assert a[1..][..index - 1] == a[..index][1..] && b[1..][..index - 1] == b[..index][1..];
      FirstDifference(a[1..], b[1..], index - 1);
    }
  }

  lemma {:induction false} PrefixCompare(a: seq<int>, b: seq<int>, index: nat)
    requires index <= |a| && index <= |b| && (index == |a| || index == |b|)
    requires a[..index] == b[..index]
    ensures Less(a, b) <==> |a| < |b|
    ensures Less(b, a) <==> |b| < |a|
    ensures |a| == |b| <==> a == b
  {
    if index > 0 {
      assert a[0] == a[..index][0] && b[0] == b[..index][0];
      assert a[1..][..index - 1] == a[..index][1..] && b[1..][..index - 1] == b[..index][1..];
      PrefixCompare(a[1..], b[1..], index - 1);
      assert a == [a[0]] + a[1..] && b == [b[0]] + b[1..];
    }
  }

  /** Comparing by code point is a strict total order on keys. */
  lemma KeyLessIsTotalOrder()
    ensures StrictOrder(KeyLess)
    ensures forall a: Key, b: Key :: a == b || KeyLess(a, b) || KeyLess(b, a)
  {
    LessIsStrictOrder();
    forall a: Key, b: Key
      ensures a == b || KeyLess(a, b) || KeyLess(b, a)
    {
      LessTotal(CodePoints(a), CodePoints(b));
      UnitsOfCodePoints(a);
      UnitsOfCodePoints(b);
    }
  }

  // --- the hash ---

  type Byte = b: int | 0 <= b < 0x100

  type Word = w: int | 0 <= w < 0x1_0000_0000

  /** The UTF-8 bytes of one code point; a lone surrogate encodes as U+FFFD. */
  function EncodePoint(point: int): seq<Byte>
    requires 0 <= point < 0x11_0000
  {
    var p := if High(point) || Low(point) then 0xFFFD else point;
    if p < 0x80 then [p]
    else if p < 0x800 then [(0xC0 + p / 0x40), (0x80 + p % 0x40)]
    else if p < 0x1_0000 then
      [(0xE0 + p / 0x1000), (0x80 + p / 0x40 % 0x40), (0x80 + p % 0x40)]
    else
      [(0xF0 + p / 0x4_0000), (0x80 + p / 0x1000 % 0x40),
       (0x80 + p / 0x40 % 0x40), (0x80 + p % 0x40)]
  }

  lemma {:induction false} CodePointRange(key: Key)
    ensures forall i :: 0 <= i < |CodePoints(key)| ==> 0 <= CodePoints(key)[i] < 0x11_0000
    decreases |key|
  {
    if key != [] {
      CodePointRange(if Paired(key) then key[2..] else key[1..]);
    }
  }

  function Encode(points: seq<int>): seq<Byte>
    requires forall i :: 0 <= i < |points| ==> 0 <= points[i] < 0x11_0000
  {
    if points == [] then [] else EncodePoint(points[0]) + Encode(points[1..])
  }

  function Fold(round: (Word, Byte) -> Word, hash: Word, bytes: seq<Byte>): Word
    decreases |bytes|
  {
    if bytes == [] then hash else Fold(round, round(hash, bytes[0]), bytes[1..])
  }

  /** Exclusive or, bit by bit. */
  function Xor(a: nat, b: nat): nat
    decreases a + b
  {
    if a == 0 && b == 0 then 0 else (a + b) % 2 + 2 * Xor(a / 2, b / 2)
  }

  /** One round: exclusive-or the byte into the low eight bits, multiply by the FNV prime,
      keep 32 bits. */
  function Mix(hash: Word, byte: Byte): Word {
    (hash - hash % 0x100 + Xor(hash % 0x100, byte)) * 0x0100_0193 % 0x1_0000_0000
  }

  function FoldBytes(hash: Word, bytes: seq<Byte>): Word {
    Fold(Mix, hash, bytes)
  }

  /** FNV-1a over the key's UTF-8 bytes. */
  function HashOf(key: Key): Word {
    CodePointRange(key);
    FoldBytes(0x811c_9dc5, Encode(CodePoints(key)))
  }

  method HashKey(key: Key) returns (hash: Word)
    ensures hash == HashOf(key)
  {
    CodePointRange(key);
    var bytes := Encode(CodePoints(key));
    hash := 0x811c_9dc5;
    var i := 0;
    assert bytes[0..] == bytes;
    while i < |bytes|
      invariant 0 <= i <= |bytes|
      invariant FoldBytes(hash, bytes[i..]) == HashOf(key)
    {
      assert bytes[i..][1..] == bytes[i + 1..];
      hash := Mix(hash, bytes[i]);
      i := i + 1;
    }
  }

  // --- the hash takes in every byte, and the bytes every code point ---

  lemma {:induction false} FoldAppend(round: (Word, Byte) -> Word, hash: Word, bytes: seq<Byte>, last: Byte)
    ensures Fold(round, hash, bytes + [last]) == round(Fold(round, hash, bytes), last)
    decreases |bytes|
  {
    if bytes == [] {
      assert [last][1..] == [];
    } else {
      assert (bytes + [last])[1..] == bytes[1..] + [last];
      FoldAppend(round, round(hash, bytes[0]), bytes[1..], last);
    }
  }

  /** The hash of no bytes is the offset basis, and one more byte is one more round. */
  lemma HashGrows(bytes: seq<Byte>, last: Byte)
    ensures FoldBytes(0x811c_9dc5, []) == 0x811c_9dc5
    ensures FoldBytes(0x811c_9dc5, bytes + [last]) == Mix(FoldBytes(0x811c_9dc5, bytes), last)
  {
    FoldAppend(Mix, 0x811c_9dc5, bytes, last);
  }

  lemma OneRound(hash: Word, byte: Byte)
    ensures FoldBytes(hash, [byte]) == Mix(hash, byte)
  {
    assert [] + [byte] == [byte];
    FoldAppend(Mix, hash, [], byte);
  }

  function Bit(n: nat, i: nat): nat {
    if i == 0 then n % 2 else Bit(n / 2, i - 1)
  }

  /** The exclusive or has a bit exactly where one of the two has it and the other does not. */
  lemma {:induction false} XorIsBitwise(a: nat, b: nat, i: nat)
    ensures Bit(Xor(a, b), i) == (Bit(a, i) + Bit(b, i)) % 2
  {
    if a == 0 && b == 0 {
      NoBits(i);
    } else {
      XorUnfolds(a, b);
      SumParity(a, b);
      Halves(Xor(a, b), (a + b) % 2, Xor(a / 2, b / 2));
      if i > 0 {
        XorIsBitwise(a / 2, b / 2, i - 1);
      }
    }
  }

  lemma Halves(n: nat, low: nat, high: nat)
    requires n == low + 2 * high && low < 2
    ensures n % 2 == low && n / 2 == high
  {
  }

  lemma XorUnfolds(a: nat, b: nat)
    requires a + b > 0
    ensures Xor(a, b) == (a + b) % 2 + 2 * Xor(a / 2, b / 2)
  {
  }

  lemma SumParity(a: nat, b: nat)
    ensures (a + b) % 2 == (a % 2 + b % 2) % 2
  {
  }

  lemma {:induction false} NoBits(i: nat)
    ensures Bit(0, i) == 0
  {
    if i > 0 {
      NoBits(i - 1);
    }
  }

  /** The code points UTF-8 bytes stand for, by the lead bytes of section 3 of RFC 3629. */
  function Decode(bytes: seq<Byte>): seq<int>
    decreases |bytes|
  {
    if bytes == [] then []
    else if bytes[0] < 0xC0 then [bytes[0] as int] + Decode(bytes[1..])
    else if bytes[0] < 0xE0 && |bytes| >= 2 then
      [(bytes[0] - 0xC0) * 0x40 + (bytes[1] - 0x80)] + Decode(bytes[2..])
    else if bytes[0] < 0xF0 && |bytes| >= 3 then
      [(bytes[0] - 0xE0) * 0x1000 + (bytes[1] - 0x80) * 0x40 + (bytes[2] - 0x80)] + Decode(bytes[3..])
    else if |bytes| >= 4 then
      [(bytes[0] - 0xF0) * 0x4_0000 + (bytes[1] - 0x80) * 0x1000 + (bytes[2] - 0x80) * 0x40 + (bytes[3] - 0x80)]
      + Decode(bytes[4..])
    else []
  }

  function Wellformed(point: int): int {
    if High(point) || Low(point) then 0xFFFD else point
  }

  function AllWellformed(points: seq<int>): (r: seq<int>)
    ensures |r| == |points| && forall i :: 0 <= i < |r| ==> r[i] == Wellformed(points[i])
  {
    seq(|points|, i requires 0 <= i < |points| => Wellformed(points[i]))
  }

  lemma Sextets(p: int)
    requires 0 <= p
    ensures p == p / 0x40 * 0x40 + p % 0x40
    ensures p == p / 0x1000 * 0x1000 + p / 0x40 % 0x40 * 0x40 + p % 0x40
    ensures p == p / 0x4_0000 * 0x4_0000 + p / 0x1000 % 0x40 * 0x1000 + p / 0x40 % 0x40 * 0x40 + p % 0x40
  {
    var q := p / 0x40;
    var r := q / 0x40;
    assert p / 0x1000 == r;
    assert p / 0x4_0000 == r / 0x40;
    assert q == r * 0x40 + q % 0x40 && r == r / 0x40 * 0x40 + r % 0x40;
  }

  lemma DecodesFirst(point: int, rest: seq<Byte>)
    requires 0 <= point < 0x11_0000
    ensures Decode(EncodePoint(point) + rest) == [Wellformed(point)] + Decode(rest)
  {
    var p, bytes := Wellformed(point), EncodePoint(point) + rest;
    Sextets(p);
    assert bytes[|EncodePoint(point)|..] == rest;
  }

  /** The bytes say every code point, in order; only lone surrogates are replaced. */
  lemma {:induction false} BytesDecode(points: seq<int>)
    requires forall i :: 0 <= i < |points| ==> 0 <= points[i] < 0x11_0000
    ensures Decode(Encode(points)) == AllWellformed(points)
  {
    if points != [] {
      BytesDecode(points[1..]);
      DecodesFirst(points[0], Encode(points[1..]));
      assert AllWellformed(points) == [Wellformed(points[0])] + AllWellformed(points[1..]);
    }
  }

  /** Keys without lone surrogates that have the same bytes are the same. */
  lemma BytesDetermineTheKey(a: Key, b: Key)
    requires forall p :: p in CodePoints(a) || p in CodePoints(b) ==> Wellformed(p) == p
    requires forall i :: 0 <= i < |CodePoints(a)| ==> 0 <= CodePoints(a)[i] < 0x11_0000
    requires forall i :: 0 <= i < |CodePoints(b)| ==> 0 <= CodePoints(b)[i] < 0x11_0000
    requires Encode(CodePoints(a)) == Encode(CodePoints(b))
    ensures a == b
  {
    BytesDecode(CodePoints(a));
    BytesDecode(CodePoints(b));
    assert AllWellformed(CodePoints(a)) == CodePoints(a);
    assert AllWellformed(CodePoints(b)) == CodePoints(b);
    UnitsOfCodePoints(a);
    UnitsOfCodePoints(b);
  }

  function SlotForKey(key: Key): Slot {
    HashOf(key) % LIMIT
  }

  // --- assignment ---

  function InsertKey(key: Key, sorted: seq<Key>): seq<Key> {
    if sorted == [] || KeyLess(key, sorted[0]) then [key] + sorted
    else if key == sorted[0] then sorted
    else [sorted[0]] + InsertKey(key, sorted[1..])
  }

  /** The distinct keys, sorted by code point. */
  function Ordered(keys: seq<Key>): seq<Key> {
    if keys == [] then [] else InsertKey(keys[0], Ordered(keys[1..]))
  }

  lemma {:induction false} InsertKeyFacts(key: Key, sorted: seq<Key>)
    requires Ascending(KeyLess, sorted)
    ensures Ascending(KeyLess, InsertKey(key, sorted))
    ensures forall x :: x in InsertKey(key, sorted) <==> x == key || x in sorted
  {
    KeyLessIsTotalOrder();
    if sorted != [] && !KeyLess(key, sorted[0]) && key != sorted[0] {
      var rest := InsertKey(key, sorted[1..]);
      InsertKeyFacts(key, sorted[1..]);
      assert forall x :: x in sorted <==> x == sorted[0] || x in sorted[1..];
      forall j | 0 <= j < |rest|
        ensures KeyLess(sorted[0], rest[j])
      {
        assert rest[j] in rest;
      }
    }
  }

  lemma {:induction false} OrderedFacts(keys: seq<Key>)
    ensures Ascending(KeyLess, Ordered(keys))
    ensures forall x :: x in Ordered(keys) <==> x in keys
  {
    if keys != [] {
      OrderedFacts(keys[1..]);
      InsertKeyFacts(keys[0], Ordered(keys[1..]));
      assert forall x :: x in keys <==> x == keys[0] || x in keys[1..];
    }
  }

  function Preferences(prefer: Key -> Slot, keys: seq<Key>): (r: seq<Slot>)
    ensures |r| == |keys|
    ensures forall i :: 0 <= i < |keys| ==> r[i] == prefer(keys[i])
  {
    seq(|keys|, i requires 0 <= i < |keys| => prefer(keys[i]))
  }

  ghost predicate Assigns(ordered: seq<Key>, slots: seq<Slot>, colors: map<Key, Slot>) {
    && |slots| == |ordered|
    && (forall k :: k in colors <==> k in ordered)
    && (forall i :: 0 <= i < |ordered| ==> colors[ordered[i]] == slots[i])
  }

  /** `colors` gives each key the slot probing gives it in the sorted list. */
  ghost predicate Colours(prefer: Key -> Slot, ordered: seq<Key>, colors: map<Key, Slot>) {
    Assigns(ordered, Slots(Preferences(prefer, ordered)), colors)
  }

  method AssignColors(keys: seq<Key>) returns (colors: map<Key, Slot>)
    ensures Colours(SlotForKey, Ordered(keys), colors)
  {
    colors := AssignBy(SlotForKey, keys);
  }

  method AssignBy(prefer: Key -> Slot, keys: seq<Key>) returns (colors: map<Key, Slot>)
    ensures Colours(prefer, Ordered(keys), colors)
  {
    var ordered := Ordered(keys);
    OrderedFacts(keys);
    colors := map[];
    var used: set<Slot> := {};
    var i := 0;
    while i < |ordered|
      invariant 0 <= i <= |ordered|
      invariant Coloured(prefer, ordered[..i], used, colors)
    {
      var slot := FindSlot(prefer(ordered[i]), used);
      AssignStep(prefer, ordered, i, used, colors);
      used := used + {slot};
      colors := colors[ordered[i] := slot];
      i := i + 1;
    }
    assert ordered[..i] == ordered;
  }

  /** The loop's state: the slots given so far, as the set it probes and the map it fills. */
  ghost predicate Coloured(prefer: Key -> Slot, done: seq<Key>, used: set<Slot>, colors: map<Key, Slot>) {
    && used == Used(Slots(Preferences(prefer, done)))
    && Colours(prefer, done, colors)
  }

  lemma AssignStep(prefer: Key -> Slot, ordered: seq<Key>, i: nat, used: set<Slot>, colors: map<Key, Slot>)
    requires i < |ordered| && Ascending(KeyLess, ordered)
    requires Coloured(prefer, ordered[..i], used, colors)
    ensures var slot := Probe(prefer(ordered[i]), used, LIMIT);
            Coloured(prefer, ordered[..i + 1], used + {slot}, colors[ordered[i] := slot])
  {
    var given := Slots(Preferences(prefer, ordered[..i]));
    var slot := Probe(prefer(ordered[i]), used, LIMIT);
    NextSlots(prefer, ordered, i);
    NextAssigns(ordered, i, given, colors, slot);
    UsedGrows(given, slot);
  }

  lemma UsedGrows(given: seq<Slot>, slot: Slot)
    ensures Used(given + [slot]) == Used(given) + {slot}
  {
  }

  lemma NextSlots(prefer: Key -> Slot, ordered: seq<Key>, i: nat)
    requires i < |ordered|
    ensures var before := Slots(Preferences(prefer, ordered[..i]));
            Slots(Preferences(prefer, ordered[..i + 1])) == before + [Probe(prefer(ordered[i]), Used(before), LIMIT)]
  {
    var next := Preferences(prefer, ordered[..i + 1]);
    assert next[..i] == Preferences(prefer, ordered[..i]);
    assert next[i] == prefer(ordered[i]);
  }

  lemma NextAssigns(ordered: seq<Key>, i: nat, given: seq<Slot>, colors: map<Key, Slot>, slot: Slot)
    requires i < |ordered| && Ascending(KeyLess, ordered)
    requires Assigns(ordered[..i], given, colors)
    ensures Assigns(ordered[..i + 1], given + [slot], colors[ordered[i] := slot])
  {
    KeyLessIsTotalOrder();
    var next := colors[ordered[i] := slot];
    forall j | 0 <= j <= i
      ensures ordered[j] in next && next[ordered[j]] == (given + [slot])[j]
    {
      if j < i {
        assert KeyLess(ordered[j], ordered[i]);
        assert ordered[..i][j] == ordered[j];
      }
    }
    assert forall k :: k in ordered[..i + 1] <==> k == ordered[i] || k in ordered[..i];
  }

  // --- the claims ---

  /** One set of keys has one colouring, however the list was ordered or repeated. */
  lemma ColoursOfTheSet(prefer: Key -> Slot, keys: seq<Key>, others: seq<Key>,
                        colors: map<Key, Slot>, otherColors: map<Key, Slot>)
    requires forall k :: k in keys <==> k in others
    requires Colours(prefer, Ordered(keys), colors) && Colours(prefer, Ordered(others), otherColors)
    ensures colors == otherColors
  {
    KeyLessIsTotalOrder();
    OrderedFacts(keys);
    OrderedFacts(others);
    var ordered := Ordered(keys);
    AscendingIsUnique(KeyLess, ordered, Ordered(others));
    forall k | k in colors
      ensures k in otherColors && colors[k] == otherColors[k]
    {
      assert k in ordered;
      var i :| 0 <= i < |ordered| && ordered[i] == k;
    }
    assert forall k :: k in otherColors ==> k in colors;
  }

  /** Up to five keys, no two share a slot. */
  lemma FiveKeysFiveColours(prefer: Key -> Slot, keys: seq<Key>, colors: map<Key, Slot>, a: Key, b: Key)
    requires Colours(prefer, Ordered(keys), colors)
    requires |Ordered(keys)| <= LIMIT
    requires a in keys && b in keys && a != b
    ensures a in colors && b in colors && colors[a] != colors[b]
  {
    OrderedFacts(keys);
    var ordered := Ordered(keys);
    DistinctToTheCap(Preferences(prefer, ordered));
    var i :| 0 <= i < |ordered| && ordered[i] == a;
    var j :| 0 <= j < |ordered| && ordered[j] == b;
    assert i < j || j < i;
  }

  /** A key past the fifth gets the slot it prefers. */
  lemma PastTheCap(prefer: Key -> Slot, keys: seq<Key>, colors: map<Key, Slot>, i: nat)
    requires Colours(prefer, Ordered(keys), colors)
    requires LIMIT <= i < |Ordered(keys)|
    ensures colors[Ordered(keys)[i]] == prefer(Ordered(keys)[i])
  {
    DistinctToTheCap(Preferences(prefer, Ordered(keys)));
  }

  /** Keys that sort after all others never change an earlier key's slot. */
  lemma LaterKeysChangeNothing(prefer: Key -> Slot, keys: seq<Key>, more: seq<Key>,
                               colors: map<Key, Slot>, moreColors: map<Key, Slot>, key: Key)
    requires forall k, m :: k in keys && m in more ==> KeyLess(k, m)
    requires Colours(prefer, Ordered(keys), colors) && Colours(prefer, Ordered(keys + more), moreColors)
    requires key in keys
    ensures key in colors && key in moreColors && colors[key] == moreColors[key]
  {
    OrderedAppend(keys, more);
    OrderedFacts(keys);
    var ordered := Ordered(keys);
    var i: nat :| i < |ordered| && ordered[i] == key;
    ColoursExtend(prefer, ordered, Ordered(more), colors, moreColors, i);
  }

  lemma SlotsExtend(prefer: Key -> Slot, first: seq<Key>, rest: seq<Key>)
    ensures var slots := Slots(Preferences(prefer, first + rest));
            |slots| == |first + rest| && slots[..|first|] == Slots(Preferences(prefer, first))
  {
    assert Preferences(prefer, first + rest) == Preferences(prefer, first) + Preferences(prefer, rest);
    PrefixStable(Preferences(prefer, first), Preferences(prefer, rest));
  }

  lemma ColoursExtend(prefer: Key -> Slot, first: seq<Key>, rest: seq<Key>,
                      colors: map<Key, Slot>, moreColors: map<Key, Slot>, i: nat)
    requires Colours(prefer, first, colors) && Colours(prefer, first + rest, moreColors)
    requires i < |first|
    ensures first[i] in colors && first[i] in moreColors && colors[first[i]] == moreColors[first[i]]
  {
    ColourAt(prefer, first, colors, i);
    ColourAt(prefer, first + rest, moreColors, i);
    SlotsExtend(prefer, first, rest);
    SameBelow(Slots(Preferences(prefer, first)), Slots(Preferences(prefer, first + rest)), i);
  }

  lemma SameBelow(a: seq<Slot>, b: seq<Slot>, i: nat)
    requires a <= b && i < |a|
    ensures a[i] == b[i]
  {
  }

  lemma ColourAt(prefer: Key -> Slot, ordered: seq<Key>, colors: map<Key, Slot>, i: nat)
    requires Colours(prefer, ordered, colors) && i < |ordered|
    ensures ordered[i] in colors && colors[ordered[i]] == Slots(Preferences(prefer, ordered))[i]
  {
  }

  lemma OrderedAppend(keys: seq<Key>, more: seq<Key>)
    requires forall k, m :: k in keys && m in more ==> KeyLess(k, m)
    ensures Ordered(keys + more) == Ordered(keys) + Ordered(more)
  {
    KeyLessIsTotalOrder();
    OrderedFacts(keys);
    OrderedFacts(more);
    OrderedFacts(keys + more);
    var first, second := Ordered(keys), Ordered(more);
    forall i, j | 0 <= i < j < |first + second|
      ensures KeyLess((first + second)[i], (first + second)[j])
    {
      if i < |first| <= j {
        assert first[i] in first && second[j - |first|] in second;
      }
    }
    forall x
      ensures x in first + second <==> x in Ordered(keys + more)
    {
      assert x in first + second <==> x in keys || x in more;
    }
    AscendingIsUnique(KeyLess, first + second, Ordered(keys + more));
  }

  /** A key keeps its preferred slot exactly when five keys come before it, or no stretch of
      slots ending in the preferred one is asked for by as many of those as fill it. */
  lemma KeepsPreferredExactlyWhen(prefer: Key -> Slot, keys: seq<Key>, colors: map<Key, Slot>, i: nat)
    requires Colours(prefer, Ordered(keys), colors)
    requires i < |Ordered(keys)|
    ensures var ordered := Ordered(keys);
            colors[ordered[i]] == prefer(ordered[i])
            <==> i >= LIMIT || !Crowded(Preferences(prefer, ordered[..i]), prefer(ordered[i]))
  {
    var ordered := Ordered(keys);
    MetExactlyWhen(Preferences(prefer, ordered), i);
    assert Preferences(prefer, ordered)[..i] == Preferences(prefer, ordered[..i]);
  }

  // --- a key displaced by keys that do not share its preference ---

  lemma XorOfLetters()
    ensures Xor(197, 99) == 166 && Xor(197, 100) == 161 && Xor(197, 101) == 160
  {
    assert Xor(0, 0) == 0;
    assert Xor(1, 0) == 1;
    assert Xor(3, 1) == 2;
    assert Xor(6, 3) == 5;
    assert Xor(12, 6) == 10;
    assert Xor(24, 12) == 20;
    assert Xor(49, 24) == 41;
    assert Xor(98, 49) == 83;
    assert Xor(24, 12) == 20;
    assert Xor(49, 25) == 40;
    assert Xor(98, 50) == 80;
  }

  lemma OneUnit(key: Key)
    requires |key| == 1
    ensures CodePoints(key) == [key[0] as int]
  {
    assert CodePoints(key[1..]) == [];
  }

  lemma OneByte(point: int)
    requires 0 <= point < 0x80
    ensures Encode([point]) == [point as Byte]
  {
    assert EncodePoint(point) == [point as Byte];
    assert Encode([point][1..]) == [];
  }

  lemma OneByteHash(key: Key)
    requires |key| == 1 && 0 <= key[0] < 0x80
    ensures HashOf(key) == Mix(0x811c_9dc5, key[0])
  {
    OneUnit(key);
    OneByte(key[0]);
    OneRound(0x811c_9dc5, key[0]);
  }

  lemma OneByteSlot(key: Key, xor: nat, slot: Slot)
    requires |key| == 1 && 0 <= key[0] < 0x80 && Xor(197, key[0]) == xor
    requires slot == (0x811c_9d00 + xor) * 0x0100_0193 % 0x1_0000_0000 % 5
    ensures SlotForKey(key) == slot
  {
    OneByteHash(key);
    MixOf(key[0], xor);
  }

  lemma MixOf(byte: Byte, xor: nat)
    requires Xor(197, byte) == xor
    ensures Mix(0x811c_9dc5, byte) == (0x811c_9d00 + xor) * 0x0100_0193 % 0x1_0000_0000
  {
    var hash: int := 0x811c_9dc5;
    assert hash % 0x100 == 197;
  }

  lemma WordAndSlot(product: int, high: int, word: int, fives: int, slot: int)
    requires product == high * 0x1_0000_0000 + word && 0 <= word < 0x1_0000_0000
    requires word == 5 * fives + slot && 0 <= slot < 5
    ensures product % 0x1_0000_0000 % 5 == slot
  {
  }

  lemma Remainders()
    ensures (0x811c_9d00 + 166) * 0x0100_0193 % 0x1_0000_0000 % 5 == 3
    ensures (0x811c_9d00 + 161) * 0x0100_0193 % 0x1_0000_0000 % 5 == 3
    ensures (0x811c_9d00 + 160) * 0x0100_0193 % 0x1_0000_0000 % 5 == 4
  {
    WordAndSlot((0x811c_9d00 + 166) * 0x0100_0193, 8461672, 3859557458, 771911491, 3);
    WordAndSlot((0x811c_9d00 + 161) * 0x0100_0193, 8461672, 3775669363, 755133872, 3);
    WordAndSlot((0x811c_9d00 + 160) * 0x0100_0193, 8461672, 3758891744, 751778348, 4);
  }

  lemma PreferencesOfLetters(c: Key, d: Key, e: Key)
    requires c == [99] && d == [100] && e == [101]
    ensures SlotForKey(c) == 3 && SlotForKey(d) == 3 && SlotForKey(e) == 4
  {
    XorOfLetters();
    Remainders();
    OneByteSlot(c, 166, 3);
    OneByteSlot(d, 161, 3);
    OneByteSlot(e, 160, 4);
  }

  lemma LettersInOrder(c: Key, d: Key, e: Key)
    requires c == [99] && d == [100] && e == [101]
    ensures Ordered([c, d, e]) == [c, d, e]
  {
    OneUnit(c);
    OneUnit(d);
    OneUnit(e);
    assert KeyLess(c, d) && KeyLess(d, e);
    assert [c, d, e][1..] == [d, e] && [d, e][1..] == [e] && [e][1..] == [];
    assert Ordered([e]) == [e];
    assert Ordered([d, e]) == [d, e];
  }

  /** The keys "c" and "d" both prefer slot 3, so "d" is moved to slot 4; "e", which alone
      prefers slot 4, gets slot 0. */
  lemma DisplacedWithoutACollision(c: Key, d: Key, e: Key, colors: map<Key, Slot>)
    requires c == [99] && d == [100] && e == [101]
    requires Colours(SlotForKey, Ordered([c, d, e]), colors)
    ensures SlotForKey(c) == 3 && SlotForKey(d) == 3 && SlotForKey(e) == 4
    ensures c in colors && colors[c] == 3 && d in colors && colors[d] == 4 && e in colors && colors[e] == 0
  {
    PreferencesOfLetters(c, d, e);
    LettersInOrder(c, d, e);
    ThirdIsDisplaced(SlotForKey, [c, d, e], colors);
  }

  lemma ThirdIsDisplaced(prefer: Key -> Slot, ordered: seq<Key>, colors: map<Key, Slot>)
    requires |ordered| == 3 && prefer(ordered[0]) == 3 && prefer(ordered[1]) == 3 && prefer(ordered[2]) == 4
    requires Colours(prefer, ordered, colors)
    ensures forall i :: 0 <= i < 3 ==> ordered[i] in colors
    ensures colors[ordered[0]] == 3 && colors[ordered[1]] == 4 && colors[ordered[2]] == 0
  {
    assert Preferences(prefer, ordered) == [3, 3, 4];
    TwoThenANeighbour();
    ColourAt(prefer, ordered, colors, 0);
    ColourAt(prefer, ordered, colors, 1);
    ColourAt(prefer, ordered, colors, 2);
  }
}
