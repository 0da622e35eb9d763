/** The incremental frame parser that follows an answer as it streams.

    Models `parseStreamFrames` and the read loop that feeds it (app/hooks/useChatStream.ts).
    `JSON.parse` is an arbitrary partial function, given as a parameter. */
module StreamFrames {
  import opened Options

  /** What separates pieces: a line break, or the blank line that ends a frame. */
  datatype Break = Line | Frame

  /** The length of `\r?\n` at `i`, or 0. */
  function NewlineAt(s: string, i: nat): (w: nat)
    ensures w <= 2 && i + w <= |s| + (if w == 0 then i else 0)
  {
    if i < |s| && s[i] == '\n' then 1
    else if i + 1 < |s| && s[i] == '\r' && s[i + 1] == '\n' then 2
    else 0
  }

  /** The length of the separator that starts at `i`, or 0. */
  function BreakAt(kind: Break, s: string, i: nat): (w: nat)
    ensures w > 0 ==> i + w <= |s|
  {
    var first := NewlineAt(s, i);
    match kind
    case Line => first
    case Frame =>
      if first == 0 then 0
      else
        var second := NewlineAt(s, i + first);
        if second == 0 then 0 else first + second
  }

  /** Where the first separator at or after `from` starts. */
  function Find(kind: Break, s: string, from: nat): (r: Option<nat>)
    requires from <= |s|
    ensures r.Some? ==> from <= r.value && BreakAt(kind, s, r.value) > 0
    ensures r.Some? ==> forall j :: from <= j < r.value ==> BreakAt(kind, s, j) == 0
    ensures r.None? ==> forall j :: from <= j ==> BreakAt(kind, s, j) == 0
    decreases |s| - from
  {
    if BreakAt(kind, s, from) > 0 then Some(from)
    else if from == |s| then None
    else Find(kind, s, from + 1)
  }

  lemma FindIs(kind: Break, s: string, i: nat)
    requires i <= |s| && BreakAt(kind, s, i) > 0
    requires forall j :: 0 <= j < i ==> BreakAt(kind, s, j) == 0
    ensures Find(kind, s, 0) == Some(i)
  {
    var found := Find(kind, s, 0);
    assert found.Some?;
    assert found.value <= i;
  }

  /** `s.split(separator)`: never empty, and its last piece holds no separator. */
  function Split(kind: Break, s: string): (parts: seq<string>)
    ensures parts != []
    decreases |s|
  {
    match Find(kind, s, 0)
    case None => [s]
    case Some(i) => [s[..i]] + Split(kind, s[i + BreakAt(kind, s, i)..])
  }

  // --- the data of one frame ---

  function Join(lines: seq<string>): string {
    if lines == [] then ""
    else if |lines| == 1 then lines[0]
    else lines[0] + "\n" + Join(lines[1..])
  }

  /** `line.slice(5).replace(/^ /, "")` on the lines that start with `data:`. */
  function DataLines(lines: seq<string>): seq<string> {
    if lines == [] then []
    else
      var rest := DataLines(lines[1..]);
      if "data:" <= lines[0] then [StripSpace(lines[0][5..])] + rest else rest
  }

  function StripSpace(s: string): string {
    if s != [] && s[0] == ' ' then s[1..] else s
  }

  function Data(part: string): string {
    Join(DataLines(Split(Line, part)))
  }

  /** The event a frame's data carries, if it carries one. */
  function EventOf<E>(parse: string -> Option<E>, data: string): seq<E> {
    if data == "" then []
    else
      match parse(data)
      case None => []
      case Some(e) => [e]
  }

  function Events<E>(parse: string -> Option<E>, parts: seq<string>): seq<E> {
    if parts == [] then [] else EventOf(parse, Data(parts[0])) + Events(parse, parts[1..])
  }

  datatype Parsed<E> = Parsed(events: seq<E>, rest: string)

  function Parse<E>(parse: string -> Option<E>, buffer: string): Parsed<E> {
    var parts := Split(Frame, buffer);
    Parsed(Events(parse, Init(parts)), Last(parts))
  }

  method ParseStreamFrames<E>(parse: string -> Option<E>, buffer: string) returns (r: Parsed<E>)
    ensures r == Parse(parse, buffer)
  {
    var parts := Split(Frame, buffer);
    var rest := Last(parts);
    parts := Init(parts);
    var events: seq<E> := [];
    var k := 0;
    while k < |parts|
      invariant 0 <= k <= |parts|
      invariant events == Events(parse, parts[..k])
    {
      var data := Data(parts[k]);
      EventsStep(parse, parts, k);
      if data != "" {
        match parse(data) {
          case Some(e) => events := events + [e];
          case None =>
        }
      }
      k := k + 1;
    }
    assert parts[..k] == parts;
    r := Parsed(events, rest);
  }

  lemma EventsStep<E>(parse: string -> Option<E>, parts: seq<string>, k: nat)
    requires k < |parts|
    ensures Events(parse, parts[..k + 1]) == Events(parse, parts[..k]) + EventOf(parse, Data(parts[k]))
  {
    assert parts[..k + 1] == parts[..k] + [parts[k]];
    EventsAppend(parse, parts[..k], [parts[k]]);
    assert Events(parse, [parts[k]]) == EventOf(parse, Data(parts[k]));
  }

  // --- the read loop ---

  function Concat(chunks: seq<string>): string {
    if chunks == [] then "" else Concat(chunks[..|chunks| - 1]) + chunks[|chunks| - 1]
  }

  /** The loop of `send`: append what was read, parse, keep the rest. Whatever the cuts,
      the events and the remainder are those of the whole text parsed once. */
  method ReadLoop<E>(parse: string -> Option<E>, chunks: seq<string>) returns (r: Parsed<E>)
    ensures r == Parse(parse, Concat(chunks))
  {
    var buffer := "";
    var events: seq<E> := [];
    var k := 0;
    while k < |chunks|
      invariant 0 <= k <= |chunks|
      invariant Parse(parse, Concat(chunks[..k])) == Parsed(events, buffer)
    {
      buffer := buffer + chunks[k];
      var parsed := ParseStreamFrames(parse, buffer);
      ParseAppend(parse, Concat(chunks[..k]), chunks[k]);
      assert chunks[..k + 1][..k] == chunks[..k];
      buffer := parsed.rest;
      events := events + parsed.events;
      k := k + 1;
    }
    assert chunks[..k] == chunks;
    r := Parsed(events, buffer);
  }

  /** More text neither moves nor removes the first frame separator. */
  lemma FirstFrameIsStable(s: string, t: string)
    requires Find(Frame, s, 0).Some?
    ensures Find(Frame, s + t, 0) == Find(Frame, s, 0)
    ensures BreakAt(Frame, s + t, Find(Frame, s, 0).value) == BreakAt(Frame, s, Find(Frame, s, 0).value)
  {
    var i := Find(Frame, s, 0).value;
    forall j | 0 <= j < i
      ensures BreakAt(Frame, s + t, j) == 0
    {
      NothingStraddles(s, t, j, i);
    }
    assert BreakAt(Frame, s + t, i) == BreakAt(Frame, s, i);
  }

  /** A separator cannot start before one that is already complete and end beyond it. */
  lemma NothingStraddles(s: string, t: string, j: nat, i: nat)
    requires j < i && BreakAt(Frame, s, i) > 0
    requires BreakAt(Frame, s, j) == 0
    ensures BreakAt(Frame, s + t, j) == 0
  {
    assert i + 1 < |s|;
    assert NewlineAt(s + t, j) == NewlineAt(s, j);
    if j + 2 < i {
      assert forall k :: 0 <= k <= i ==> (s + t)[k] == s[k];
    }
  }

  /** All pieces but the last. */
  function Init(parts: seq<string>): seq<string>
    requires parts != []
  {
    parts[..|parts| - 1]
  }

  function Last(parts: seq<string>): string
    requires parts != []
  {
    parts[|parts| - 1]
  }

  lemma {:induction false} SplitAppend(s: string, t: string)
    ensures Split(Frame, s + t) == Init(Split(Frame, s)) + Split(Frame, Last(Split(Frame, s)) + t)
    decreases |s|
  {
    if Find(Frame, s, 0).Some? {
      var i := Find(Frame, s, 0).value;
      var next := i + BreakAt(Frame, s, i);
      FirstFrameIsStable(s, t);
      SliceAppend(s, t, i, next);
      SplitCut(s, i);
      SplitCut(s + t, i);
      SplitAppend(s[next..], t);
      ConsPieces(s[..i], Split(Frame, s[next..]), Split(Frame, Last(Split(Frame, s[next..])) + t));
    } else {
      assert Init([s]) == [];
    }
  }

  lemma SplitCut(s: string, i: nat)
    requires Find(Frame, s, 0) == Some(i)
    ensures Split(Frame, s) == [s[..i]] + Split(Frame, s[i + BreakAt(Frame, s, i)..])
  {
  }

  lemma SliceAppend(s: string, t: string, i: nat, next: nat)
    requires i <= next <= |s|
    ensures (s + t)[..i] == s[..i] && (s + t)[next..] == s[next..] + t
  {
  }

  lemma ConsPieces(first: string, rest: seq<string>, more: seq<string>)
    requires rest != []
    ensures Last([first] + rest) == Last(rest)
    ensures [first] + (Init(rest) + more) == Init([first] + rest) + more
  {
  }

  lemma Associate<T>(a: seq<T>, b: seq<T>, c: seq<T>)
    ensures (a + b) + c == a + (b + c)
  {
  }

  lemma {:induction false} EventsAppend<E>(parse: string -> Option<E>, a: seq<string>, b: seq<string>)
    ensures Events(parse, a + b) == Events(parse, a) + Events(parse, b)
  {
    if a == [] {
      assert a + b == b;
    } else {
      EventsAppend(parse, a[1..], b);
      assert (a + b)[1..] == a[1..] + b;
      Associate(EventOf(parse, Data(a[0])), Events(parse, a[1..]), Events(parse, b));
    }
  }

  /** Parsing a text in two steps, the remainder of the first in front of the second. */
  lemma ParseAppend<E>(parse: string -> Option<E>, s: string, t: string)
    ensures var first := Parse(parse, s);
            var second := Parse(parse, first.rest + t);
            Parse(parse, s + t) == Parsed(first.events + second.events, second.rest)
  {
    SplitAppend(s, t);
    var init := Init(Split(Frame, s));
    var more := Split(Frame, Last(Split(Frame, s)) + t);
    EventsAppend(parse, init, Init(more));
    assert Init(init + more) == init + Init(more) && Last(init + more) == Last(more);
  }

  // --- what a server sends comes back ---

  /** A line of a frame and the line break behind it: a data line, with or without the space
      behind the colon, or any other line, such as a comment or another field. */
  datatype SentLine =
    | DataLine(text: string, spaced: bool, crlf: bool)
    | OtherLine(text: string, crlf: bool)

  /** A frame: its lines, and the break of the blank line that ends it. */
  datatype SentFrame = SentFrame(lines: seq<SentLine>, crlf: bool)

  function NewLine(crlf: bool): string {
    if crlf then "\r\n" else "\n"
  }

  function Raw(line: SentLine): string {
    match line
    case DataLine(text, spaced, _) => if spaced then "data: " + text else "data:" + text
    case OtherLine(text, _) => text
  }

  predicate OneLine(line: string) {
    forall i :: 0 <= i < |line| ==> line[i] != '\r' && line[i] != '\n'
  }

  /** Texts are single lines; one that starts with a space needs the space in front of it. */
  predicate IsSendable(line: SentLine) {
    && OneLine(line.text)
    && match line
       case DataLine(text, spaced, _) => !spaced ==> !(" " <= text)
       case OtherLine(text, _) => text != "" && !("data:" <= text)
  }

  predicate Sendable(lines: seq<SentLine>) {
    lines != [] && forall i :: 0 <= i < |lines| ==> IsSendable(lines[i])
  }

  /** What a frame carries. */
  function Payload(lines: seq<SentLine>): seq<string> {
    if lines == [] then []
    else (if lines[0].DataLine? then [lines[0].text] else []) + Payload(lines[1..])
  }

  /** The lines of a frame up to the break behind the last. */
  function Body(lines: seq<SentLine>): string
    requires lines != []
  {
    if |lines| == 1 then Raw(lines[0]) else Raw(lines[0]) + NewLine(lines[0].crlf) + Body(lines[1..])
  }

  function BlankLine(frame: SentFrame): string
    requires frame.lines != []
  {
    NewLine(frame.lines[|frame.lines| - 1].crlf) + NewLine(frame.crlf)
  }

  function Encode(frames: seq<SentFrame>): string
    requires forall i :: 0 <= i < |frames| ==> Sendable(frames[i].lines)
  {
    if frames == [] then ""
    else
      assert Sendable(frames[0].lines);
      Body(frames[0].lines) + BlankLine(frames[0]) + Encode(frames[1..])
  }

  function Decoded<E>(parse: string -> Option<E>, frames: seq<SentFrame>): seq<E> {
    if frames == [] then [] else EventOf(parse, Join(Payload(frames[0].lines))) + Decoded(parse, frames[1..])
  }

  /** No carriage return without its line feed, and no line break that ends the text or precedes
      another. */
  predicate Flat(body: string) {
    forall j :: 0 <= j < |body| ==> FlatAt(body, j)
  }

  predicate FlatAt(body: string, j: nat)
    requires j < |body|
  {
    && (body[j] == '\r' ==> j + 2 < |body| && body[j + 1] == '\n')
    && (body[j] == '\n' ==> j + 1 < |body| && body[j + 1] != '\r' && body[j + 1] != '\n')
  }

  lemma RawIsOneLine(line: SentLine)
    requires IsSendable(line)
    ensures OneLine(Raw(line)) && Raw(line) != ""
  {
    match line
    case DataLine(text, spaced, _) =>
      var front := if spaced then "data: " else "data:";
      assert Raw(line) == front + text;
      assert forall i :: |front| <= i < |Raw(line)| ==> Raw(line)[i] == text[i - |front|];
    case OtherLine(_, _) =>
  }

  lemma FlatBehindLine(line: string, crlf: bool, rest: string)
    requires OneLine(line) && Flat(rest) && rest != "" && rest[0] != '\r' && rest[0] != '\n'
    ensures Flat(line + NewLine(crlf) + rest)
  {
    var front := line + NewLine(crlf);
    var all := front + rest;
    forall j | 0 <= j < |all|
      ensures FlatAt(all, j)
    {
      if j < |line| {
        assert all[j] == line[j];
      } else if j >= |front| {
        assert all[j] == rest[j - |front|] && FlatAt(rest, j - |front|);
        assert j + 1 < |all| ==> all[j + 1] == rest[j - |front| + 1];
      } else {
        assert all[|front|] == rest[0];
      }
    }
  }

  lemma {:induction false} BodyIsFlat(lines: seq<SentLine>)
    requires Sendable(lines)
    ensures Flat(Body(lines)) && Body(lines) != "" && Body(lines)[0] != '\r' && Body(lines)[0] != '\n'
  {
    RawIsOneLine(lines[0]);
    if |lines| > 1 {
      BodyIsFlat(lines[1..]);
      FlatBehindLine(Raw(lines[0]), lines[0].crlf, Body(lines[1..]));
      assert Body(lines)[0] == Raw(lines[0])[0];
    }
  }

  lemma FlatFrame(body: string, first: bool, second: bool, t: string)
    requires Flat(body)
    ensures var blank := NewLine(first) + NewLine(second);
            && Find(Frame, body + blank + t, 0) == Some(|body|)
            && BreakAt(Frame, body + blank + t, |body|) == |blank|
  {
    var blank := NewLine(first) + NewLine(second);
    var s := body + blank + t;
    forall j | 0 <= j < |body|
      ensures BreakAt(Frame, s, j) == 0
    {
      assert FlatAt(body, j);
      assert s[j] == body[j];
      assert j + 1 < |body| ==> s[j + 1] == body[j + 1] && FlatAt(body, j + 1);
      assert j + 2 < |body| ==> s[j + 2] == body[j + 2];
    }
    BlankIsBreak(body, first, second, t);
    FindIs(Frame, s, |body|);
  }

  lemma BlankIsBreak(body: string, first: bool, second: bool, t: string)
    ensures var blank := NewLine(first) + NewLine(second);
            BreakAt(Frame, body + blank + t, |body|) == |blank|
  {
    var blank := NewLine(first) + NewLine(second);
    var s := body + blank + t;
    assert forall k :: 0 <= k < |blank| ==> s[|body| + k] == blank[k];
  }

  lemma FirstLine(line: string, crlf: bool, t: string)
    requires OneLine(line)
    ensures Find(Line, line + NewLine(crlf) + t, 0) == Some(|line|)
    ensures BreakAt(Line, line + NewLine(crlf) + t, |line|) == |NewLine(crlf)|
    ensures Find(Line, line, 0) == None
  {
    var s := line + NewLine(crlf) + t;
    forall j | 0 <= j < |line|
      ensures BreakAt(Line, s, j) == 0
    {
      assert s[j] == line[j];
    }
    assert forall k :: 0 <= k < |NewLine(crlf)| ==> s[|line| + k] == NewLine(crlf)[k];
    FindIs(Line, s, |line|);
  }

  lemma RawCarries(line: SentLine)
    requires IsSendable(line)
    ensures DataLines([Raw(line)]) == if line.DataLine? then [line.text] else []
  {
    var one: seq<string> := [Raw(line)];
    assert one[1..] == [];
    match line
    case DataLine(text, spaced, _) =>
      assert "data:" <= Raw(line) && Raw(line)[5..] == (if spaced then [' '] + text else text);
    case OtherLine(_, _) =>
  }

  lemma {:induction false} DataLinesAppend(a: seq<string>, b: seq<string>)
    ensures DataLines(a + b) == DataLines(a) + DataLines(b)
  {
    if a == [] {
      assert a + b == b;
    } else {
      DataLinesAppend(a[1..], b);
      assert (a + b)[1..] == a[1..] + b;
      if "data:" <= a[0] {
        Associate([StripSpace(a[0][5..])], DataLines(a[1..]), DataLines(b));
      }
    }
  }

  lemma {:induction false} BodyCarriesItsLines(lines: seq<SentLine>)
    requires Sendable(lines)
    ensures DataLines(Split(Line, Body(lines))) == Payload(lines)
  {
    var first := Raw(lines[0]);
    RawIsOneLine(lines[0]);
    RawCarries(lines[0]);
    if |lines| == 1 {
      FirstLine(first, false, "");
      assert Payload(lines[1..]) == [];
    } else {
      var rest := Body(lines[1..]);
      FirstLine(first, lines[0].crlf, rest);
      Cut(first, NewLine(lines[0].crlf), rest);
      assert Split(Line, Body(lines)) == [first] + Split(Line, rest);
      BodyCarriesItsLines(lines[1..]);
      DataLinesAppend([first], Split(Line, rest));
    }
  }

  lemma Cut(first: string, separator: string, rest: string)
    ensures (first + separator + rest)[..|first|] == first
    ensures (first + separator + rest)[|first| + |separator|..] == rest
  {
  }

  /** Whatever the line breaks, the spaces behind the colons and the other lines between: every
      payload sent as data lines is received once, in order, and nothing is left over; with
      `ReadLoop`, that holds however the text is cut. */
  lemma {:induction false} RoundTrip<E>(parse: string -> Option<E>, frames: seq<SentFrame>)
    requires forall i :: 0 <= i < |frames| ==> Sendable(frames[i].lines)
    ensures Parse(parse, Encode(frames)) == Parsed(Decoded(parse, frames), "")
  {
    if frames == [] {
      assert Split(Frame, "") == [""];
    } else {
      RoundTrip(parse, frames[1..]);
      FirstPayload(parse, frames[0], Encode(frames[1..]));
    }
  }

  lemma FirstPayload<E>(parse: string -> Option<E>, frame: SentFrame, tail: string)
    requires Sendable(frame.lines)
    ensures var rest := Parse(parse, tail);
            Parse(parse, Body(frame.lines) + BlankLine(frame) + tail)
            == Parsed(EventOf(parse, Join(Payload(frame.lines))) + rest.events, rest.rest)
  {
    var body := Body(frame.lines);
    BodyIsFlat(frame.lines);
    FlatFrame(body, frame.lines[|frame.lines| - 1].crlf, frame.crlf, tail);
    Cut(body, BlankLine(frame), tail);
    var rest := Split(Frame, tail);
    assert Split(Frame, body + BlankLine(frame) + tail) == [body] + rest;
    ConsPieces(body, rest, []);
    assert Init([body] + rest) == [body] + Init(rest);
    BodyCarriesItsLines(frame.lines);
    EventsAppend(parse, [body], Init(rest));
    assert Events(parse, [body]) == EventOf(parse, Data(body));
  }
}
