/** The action register as CSV, and a reader that takes it apart again.

    Models `actionsCsv` (app/components/actions/action-list.tsx). The reader follows section 2
    of RFC 4180 with a line feed as the record break. */
module ActionsCsv {
  import opened Options

  datatype Owner = Customer | Msp

  datatype Status = Open | Accepted | WontDo | Resolved

  datatype Item = Item(
    customer: string, connector: string, kind: string, title: string, owner: Option<Owner>,
    status: Status, firstSeenPeriod: string, note: Option<string>)

  const HEADINGS: seq<string> :=
    ["Customer", "Connector", "Kind", "Finding", "Owner", "Status", "First seen", "Note"]

  // --- the printer ---

  function Escaped(c: char): string {
    if c == '"' then "\"\"" else [c]
  }

  /** Quotes doubled: `value.replaceAll('"', '""')`. */
  function Doubled(value: string): string {
    if value == "" then ""
    else Escaped(value[0]) + Doubled(value[1..])
  }

  predicate NeedsQuotes(value: string) {
    exists i :: 0 <= i < |value| && Special(value[i])
  }

  predicate Special(c: char) {
    c == '"' || c == ',' || c == '\n'
  }

  function Cell(value: string): string {
    if NeedsQuotes(value) then "\"" + Doubled(value) + "\"" else value
  }

  function KindLabel(labels: map<string, string>, kind: string): string {
    if kind in labels then labels[kind] else kind
  }

  function OwnerLabel(owner: Option<Owner>): string {
    match owner
    case None => ""
    case Some(Customer) => "Customer"
    case Some(Msp) => "MSP"
  }

  function StatusLabel(status: Status): string {
    match status
    case Open => "Open"
    case Accepted => "Accepted"
    case WontDo => "Won't do"
    case Resolved => "Resolved"
  }

  /** The eight texts of one row. `labels` is the component's table of kind names. */
  function Texts(labels: map<string, string>, item: Item): (r: seq<string>)
    ensures |r| == 8
  {
    [item.customer, item.connector, KindLabel(labels, item.kind), item.title, OwnerLabel(item.owner),
     StatusLabel(item.status), if |item.firstSeenPeriod| <= 7 then item.firstSeenPeriod else item.firstSeenPeriod[..7],
     if item.note.None? then "" else item.note.value]
  }

  function Row(texts: seq<string>): string
    requires texts != []
  {
    if |texts| == 1 then Cell(texts[0]) else Cell(texts[0]) + "," + Row(texts[1..])
  }

  /** `[header, ...rows].join("\n") + "\n"`. */
  function Lines(rows: seq<seq<string>>): string
    requires forall i :: 0 <= i < |rows| ==> rows[i] != []
  {
    if rows == [] then "" else Row(rows[0]) + "\n" + Lines(rows[1..])
  }

  function AllTexts(labels: map<string, string>, items: seq<Item>): (r: seq<seq<string>>)
    ensures |r| == |items|
    ensures forall i :: 0 <= i < |items| ==> r[i] == Texts(labels, items[i])
  {
    seq(|items|, i requires 0 <= i < |items| => Texts(labels, items[i]))
  }

  /** The header line is the headings as they stand: no quoting is applied to it. */
  function Commas(texts: seq<string>): string
    requires texts != []
  {
    if |texts| == 1 then texts[0] else texts[0] + "," + Commas(texts[1..])
  }

  function ActionsText(labels: map<string, string>, items: seq<Item>): string {
    Commas(HEADINGS) + "\n" + Lines(AllTexts(labels, items))
  }

  // --- the reader ---

  datatype Field = Field(text: string, rest: string)

  /** The text up to the first comma or line feed, and what follows it. */
  function BareField(s: string): (r: Field)
    ensures |r.rest| <= |s|
  {
    if s == "" || s[0] == ',' || s[0] == '\n' then Field("", s)
    else
      var r := BareField(s[1..]);
      Field([s[0]] + r.text, r.rest)
  }

  /** After an opening quote: a doubled quote is a quote, a single one closes. */
  function QuotedField(s: string): (r: Option<Field>)
    ensures r.Some? ==> |r.value.rest| <= |s|
  {
    if s == "" then None
    else if s[0] == '"' then
      if |s| > 1 && s[1] == '"' then Prefixed('"', QuotedField(s[2..])) else Some(Field("", s[1..]))
    else Prefixed(s[0], QuotedField(s[1..]))
  }

  function Prefixed(c: char, r: Option<Field>): Option<Field> {
    if r.None? then None else Some(Field([c] + r.value.text, r.value.rest))
  }

  function ReadField(s: string): (r: Option<Field>)
    ensures r.Some? ==> |r.value.rest| <= |s|
  {
    if s != "" && s[0] == '"' then QuotedField(s[1..]) else Some(BareField(s))
  }

  datatype Record = Record(cells: seq<string>, rest: string)

  /** Fields separated by commas up to the line feed that ends the record. */
  function ReadRecord(s: string): (r: Option<Record>)
    ensures r.Some? ==> |r.value.rest| < |s|
    decreases |s|
  {
    match ReadField(s)
    case None => None
    case Some(field) =>
      if field.rest == "" then None
      else if field.rest[0] == '\n' then Some(Record([field.text], field.rest[1..]))
      else if field.rest[0] == ',' then
        match ReadRecord(field.rest[1..]) {
          case None => None
          case Some(more) => Some(Record([field.text] + more.cells, more.rest))
        }
      else None
  }

  function ReadCsv(s: string): Option<seq<seq<string>>>
    decreases |s|
  {
    if s == "" then Some([])
    else
      match ReadRecord(s)
      case None => None
      case Some(record) =>
        match ReadCsv(record.rest) {
          case None => None
          case Some(more) => Some([record.cells] + more)
        }
  }

  // --- the round trip ---

  /** What can follow a cell. */
  predicate Delimited(rest: string) {
    rest != "" && (rest[0] == ',' || rest[0] == '\n')
  }

  lemma {:induction false} DoubledReadsBack(value: string, rest: string, s: string)
    requires Delimited(rest)
    requires s == Doubled(value) + "\"" + rest
    ensures QuotedField(s) == Some(Field(value, rest))
    decreases |value|
  {
    if value == "" {
      assert s[0] == '"' && s[1] == rest[0] && s[1..] == rest;
    } else {
      var c := value[0];
      DoubledUnfolds(value, rest, s);
      DoubledReadsBack(value[1..], rest, s[|Escaped(c)|..]);
      assert value == [c] + value[1..];
    }
  }

  lemma DoubledUnfolds(value: string, rest: string, s: string)
    requires value != "" && s == Doubled(value) + "\"" + rest
    ensures Escaped(value[0]) <= s && s[0] == value[0]
    ensures s[|Escaped(value[0])|..] == Doubled(value[1..]) + "\"" + rest
  {
    var first, others := Escaped(value[0]), Doubled(value[1..]);
    Associate(first, others, "\"");
    Associate(first, others + "\"", rest);
    Prefixing(first, others + "\"" + rest);
  }

  lemma Prefixing(a: string, b: string)
    requires a != ""
    ensures a <= a + b && (a + b)[0] == a[0] && (a + b)[|a|..] == b
  {
  }

  lemma {:induction false} BareReadsBack(value: string, rest: string)
    requires !NeedsQuotes(value) && Delimited(rest)
    ensures BareField(value + rest) == Field(value, rest)
  {
    if value == "" {
      assert value + rest == rest;
    } else {
      assert Special(value[0]) ==> NeedsQuotes(value);
      forall i | 0 <= i < |value[1..]|
        ensures !Special(value[1..][i])
      {
        assert value[1..][i] == value[i + 1];
      }
      BareReadsBack(value[1..], rest);
      assert (value + rest)[1..] == value[1..] + rest;
      assert value == [value[0]] + value[1..];
    }
  }

  lemma CellReadsBack(value: string, rest: string)
    requires Delimited(rest)
    ensures ReadField(Cell(value) + rest) == Some(Field(value, rest))
  {
    if NeedsQuotes(value) {
      var s := "\"" + Doubled(value) + "\"" + rest;
      assert s[0] == '"' && s[1..] == Doubled(value) + "\"" + rest;
      DoubledReadsBack(value, rest, s[1..]);
    } else {
      BareReadsBack(value, rest);
      if value != "" {
        assert Special(value[0]) ==> NeedsQuotes(value);
      }
    }
  }

  lemma {:induction false} DoublingAddsOnly(value: string)
    ensures |value| <= |Doubled(value)|
  {
    if value != "" {
      DoublingAddsOnly(value[1..]);
    }
  }

  /** A cell is quoted exactly when it must be. */
  lemma CellIsBareExactlyWhen(value: string)
    ensures Cell(value) == value <==> '"' !in value && ',' !in value && '\n' !in value
  {
    DoublingAddsOnly(value);
    assert NeedsQuotes(value) ==> |Cell(value)| > |value|;
  }

  lemma {:induction false} RowReadsBack(texts: seq<string>, rest: string)
    requires texts != []
    ensures ReadRecord(Row(texts) + "\n" + rest) == Some(Record(texts, rest))
  {
    if |texts| == 1 {
      CellReadsBack(texts[0], "\n" + rest);
      LastField(Cell(texts[0]) + ("\n" + rest), texts[0], rest);
      Associate(Cell(texts[0]), "\n", rest);
      assert texts == [texts[0]];
    } else {
      var more := Row(texts[1..]) + "\n" + rest;
      CellReadsBack(texts[0], "," + more);
      RowReadsBack(texts[1..], rest);
      NextField(Cell(texts[0]) + ("," + more), texts[0], more);
      RowUnfolds(texts, rest);
      assert texts == [texts[0]] + texts[1..];
    }
  }

  lemma Associate(a: string, b: string, c: string)
    ensures a + b + c == a + (b + c)
  {
  }

  lemma RowUnfolds(texts: seq<string>, rest: string)
    requires |texts| > 1
    ensures Row(texts) + "\n" + rest == Cell(texts[0]) + ("," + (Row(texts[1..]) + "\n" + rest))
  {
    var row := Row(texts[1..]);
    Associate(Cell(texts[0]), ",", row);
    Associate(Cell(texts[0]), "," + row, "\n" + rest);
    Associate(",", row, "\n" + rest);
    Associate(row, "\n", rest);
    Associate(Row(texts), "\n", rest);
  }

  lemma LastField(s: string, text: string, rest: string)
    requires ReadField(s) == Some(Field(text, "\n" + rest))
    ensures ReadRecord(s) == Some(Record([text], rest))
  {
    assert ("\n" + rest)[1..] == rest;
  }

  lemma NextField(s: string, text: string, more: string)
    requires ReadField(s) == Some(Field(text, "," + more))
    requires ReadRecord(more).Some?
    ensures ReadRecord(s) == Some(Record([text] + ReadRecord(more).value.cells, ReadRecord(more).value.rest))
  {
    assert ("," + more)[1..] == more;
  }

  lemma {:induction false} LinesReadBack(rows: seq<seq<string>>)
    requires forall i :: 0 <= i < |rows| ==> rows[i] != []
    ensures ReadCsv(Lines(rows)) == Some(rows)
  {
    if rows != [] {
      RowReadsBack(rows[0], Lines(rows[1..]));
      LinesReadBack(rows[1..]);
      NextRecord(Lines(rows), rows[0], Lines(rows[1..]));
      assert rows == [rows[0]] + rows[1..];
    }
  }

  lemma NextRecord(s: string, cells: seq<string>, rest: string)
    requires ReadRecord(s) == Some(Record(cells, rest)) && ReadCsv(rest).Some?
    ensures ReadCsv(s) == Some([cells] + ReadCsv(rest).value)
  {
  }

  /** The header and one row of eight cells per item come back, in order, whatever the
      texts hold. */
  lemma CsvRoundTrip(labels: map<string, string>, items: seq<Item>)
    ensures ReadCsv(ActionsText(labels, items)) == Some([HEADINGS] + AllTexts(labels, items))
  {
    var rows := AllTexts(labels, items);
    PlainRow(HEADINGS);
    assert ([HEADINGS] + rows)[1..] == rows;
    LinesReadBack([HEADINGS] + rows);
  }

  /** Where no cell needs quotes, the printer's row and the plain join agree. */
  lemma {:induction false} PlainRow(texts: seq<string>)
    requires texts != [] && forall i :: 0 <= i < |texts| ==> !NeedsQuotes(texts[i])
    ensures Row(texts) == Commas(texts)
  {
    if |texts| > 1 {
      PlainRow(texts[1..]);
    }
  }

  /** Two lists of rows with the same text are the same rows: nothing a cell holds can be
      mistaken for a cell or row break. */
  lemma SameTextSameRows(labels: map<string, string>, items: seq<Item>, others: seq<Item>)
    requires ActionsText(labels, items) == ActionsText(labels, others)
    ensures AllTexts(labels, items) == AllTexts(labels, others)
  {
    CsvRoundTrip(labels, items);
    CsvRoundTrip(labels, others);
    assert ([HEADINGS] + AllTexts(labels, items))[1..] == AllTexts(labels, items);
    assert ([HEADINGS] + AllTexts(labels, others))[1..] == AllTexts(labels, others);
  }
}
