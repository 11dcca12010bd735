/**
  A decoder for section 2 of RFC 4180, and the round trip: decoding what the writer produced gives
  back exactly the guarded cells.
 */
module CsvRoundTrip {
  import opened Platforms
  import opened Csv

  datatype Mode = FieldStart | Plain | Quoted | QuoteSeen | CrSeen | Malformed

  /** Records finished so far, fields of the current record, the current field. */
  datatype Decoder = Decoder(records: seq<seq<string>>, fields: seq<string>, field: string, mode: Mode)

  const START := Decoder([], [], "", FieldStart)

  function EndField(d: Decoder): Decoder {
    Decoder(d.records, d.fields + [d.field], "", FieldStart)
  }

  function Bad(d: Decoder): Decoder {
    d.(mode := Malformed)
  }

  function Take(d: Decoder, c: char): Decoder {
    match d.mode
    case FieldStart =>
      if c == '"' then d.(mode := Quoted)
      else if c == ',' then EndField(d)
      else if c == '\r' then d.(mode := CrSeen)
      else if c == '\n' then Bad(d)
      else d.(field := [c], mode := Plain)
    case Plain =>
      if c == ',' then EndField(d)
      else if c == '\r' then d.(mode := CrSeen)
      else if c == '\n' || c == '"' then Bad(d)
      else d.(field := d.field + [c])
    case Quoted =>
      if c == '"' then d.(mode := QuoteSeen) else d.(field := d.field + [c])
    case QuoteSeen =>
      if c == '"' then d.(field := d.field + [c], mode := Quoted)
      else if c == ',' then EndField(d)
      else if c == '\r' then d.(mode := CrSeen)
      else Bad(d)
    case CrSeen =>
      if c == '\n' then Decoder(d.records + [d.fields + [d.field]], [], "", FieldStart) else Bad(d)
    case Malformed => d
  }

  function TakeAll(d: Decoder, s: string): Decoder
    decreases |s|
  {
    if s == [] then d else TakeAll(Take(d, s[0]), s[1..])
  }

  /** The last record may lack its line break. */
  function Decode(s: string): Option<seq<seq<string>>> {
    var d := TakeAll(START, s);
    match d.mode
    case FieldStart => Some(if d.fields == [] then d.records else d.records + [d.fields + [d.field]])
    case Plain => Some(d.records + [d.fields + [d.field]])
    case QuoteSeen => Some(d.records + [d.fields + [d.field]])
    case _ => None
  }

  lemma {:induction false} TakeAllAppend(d: Decoder, a: string, b: string)
    ensures TakeAll(d, a + b) == TakeAll(TakeAll(d, a), b)
    decreases |a|
  {
    if a == [] {
      assert a + b == b;
    } else {
      assert (a + b)[1..] == a[1..] + b;
      TakeAllAppend(Take(d, a[0]), a[1..], b);
    }
  }

  lemma TakeAllOne(d: Decoder, c: char)
    ensures TakeAll(d, [c]) == Take(d, c)
  {
    assert TakeAll(Take(d, c), []) == Take(d, c);
  }

  /** The field is complete: a comma or a line break ends it as it stands. */
  ghost predicate Holding(d: Decoder, records: seq<seq<string>>, fields: seq<string>, field: string) {
    && d.records == records && d.fields == fields && d.field == field
    && (d.mode.Plain? || d.mode.QuoteSeen? || (d.mode.FieldStart? && field == ""))
  }

  lemma {:induction false} PlainText(d: Decoder, s: string)
    requires d.mode.Plain? && !NeedsQuotes(s)
    ensures TakeAll(d, s) == d.(field := d.field + s)
    decreases |s|
  {
    if s == [] {
      assert d.field + s == d.field;
    } else {
      assert s[0] in s && forall c | c in s[1..] :: c in s;
      PlainText(Take(d, s[0]), s[1..]);
      assert d.field + [s[0]] + s[1..] == d.field + s;
    }
  }

  lemma {:induction false} QuotedText(d: Decoder, s: string)
    requires d.mode.Quoted?
    ensures TakeAll(d, Doubled(s)) == d.(field := d.field + s)
    decreases |s|
  {
    if s == [] {
      assert d.field + s == d.field;
    } else {
      var head := if s[0] == '"' then ['"', '"'] else [s[0]];
      var next := d.(field := d.field + [s[0]]);
      assert TakeAll(d, head) == next by {
        if s[0] == '"' {
          assert head[1..] == ['"'];
          TakeAllOne(Take(d, '"'), '"');
        } else {
          TakeAllOne(d, s[0]);
        }
      }
      TakeAllAppend(d, head, Doubled(s[1..]));
      QuotedText(next, s[1..]);
      assert d.field + [s[0]] + s[1..] == d.field + s;
    }
  }

  /** What a cell decodes to: its guarded text. */
  function Cell(v: CsvValue): string {
    Guard(TextOf(v))
  }

  /** Decoding may start a field here. */
  predicate Fresh(d: Decoder) {
    d.mode.FieldStart? && d.field == ""
  }

  /** Wherever a field may start, `text` is one whole field holding `cell`. */
  ghost predicate ReadsAsField(text: string, cell: string) {
    forall d {:trigger TakeAll(d, text)} | Fresh(d) :: Holding(TakeAll(d, text), d.records, d.fields, cell)
  }

  /** Wherever a record may start, `line` and its break are one whole record. */
  ghost predicate ReadsAsRecord(line: string, record: seq<string>) {
    forall d {:trigger TakeAll(d, line + "\r\n")} | Fresh(d) && d.fields == [] ::
      TakeAll(d, line + "\r\n") == Decoder(d.records + [record], [], "", FieldStart)
  }

  lemma OneField(d: Decoder, v: CsvValue)
    requires Fresh(d)
    ensures Holding(TakeAll(d, EscapeCsvField(v)), d.records, d.fields, Cell(v))
  {
    var text := Cell(v);
    var out := EscapeCsvField(v);
    if NeedsQuotes(text) {
      var open, body := Take(d, '"'), Doubled(text);
      assert out == ['"'] + body + ['"'];
      TakeAllAppend(d, ['"'] + body, ['"']);
      TakeAllAppend(d, ['"'], body);
      TakeAllOne(d, '"');
      QuotedText(open, text);
      assert "" + text == text;
      TakeAllOne(open.(field := text), '"');
    } else if text != "" {
      assert out == text;
      assert text[0] in text && forall c | c in text[1..] :: c in text;
      PlainText(Take(d, text[0]), text[1..]);
      assert [text[0]] + text[1..] == text;
    }
  }

  lemma EscapedReads(v: CsvValue)
    ensures ReadsAsField(EscapeCsvField(v), Cell(v))
  {
    forall d | Fresh(d) ensures Holding(TakeAll(d, EscapeCsvField(v)), d.records, d.fields, Cell(v)) {
      OneField(d, v);
    }
  }

  lemma FieldThenComma(d: Decoder, text: string, cell: string)
    requires Fresh(d) && ReadsAsField(text, cell)
    ensures TakeAll(d, text + ",") == Decoder(d.records, d.fields + [cell], "", FieldStart)
  {
    TakeAllAppend(d, text, ",");
    TakeAllOne(TakeAll(d, text), ',');
  }

  lemma FieldThenBreak(d: Decoder, text: string, cell: string)
    requires Fresh(d) && ReadsAsField(text, cell)
    ensures TakeAll(d, text + "\r\n") == Decoder(d.records + [d.fields + [cell]], [], "", FieldStart)
  {
    var held := TakeAll(d, text);
    TakeAllAppend(d, text, "\r\n");
    assert "\r\n"[1..] == "\n";
    TakeAllOne(Take(held, '\r'), '\n');
  }

  /** A joined list with its closing line break, cut behind the first separator. */
  lemma JoinedThenBreak(parts: seq<string>, separator: string)
    requires |parts| > 1
    ensures JoinWith(parts, separator) + "\r\n" == (parts[0] + separator) + (JoinWith(parts[1..], separator) + "\r\n")
  {
  }

  /** Decoding in two parts, the state between them given. */
  lemma InTwo(d: Decoder, a: string, mid: Decoder, b: string, end: Decoder)
    requires TakeAll(d, a) == mid && TakeAll(mid, b) == end
    ensures TakeAll(d, a + b) == end
  {
    TakeAllAppend(d, a, b);
  }

  lemma {:induction false} JoinedFields(d: Decoder, texts: seq<string>, cells: seq<string>)
    requires Fresh(d) && |texts| == |cells| > 0
    requires forall i | 0 <= i < |texts| :: ReadsAsField(texts[i], cells[i])
    ensures TakeAll(d, JoinWith(texts, ",") + "\r\n") == Decoder(d.records + [d.fields + cells], [], "", FieldStart)
    decreases |texts|
  {
    var end := Decoder(d.records + [d.fields + cells], [], "", FieldStart);
    if |texts| == 1 {
      FieldThenBreak(d, texts[0], cells[0]);
      assert cells == [cells[0]];
    } else {
      var mid := Decoder(d.records, d.fields + [cells[0]], "", FieldStart);
      FieldThenComma(d, texts[0], cells[0]);
      JoinedFields(mid, texts[1..], cells[1..]);
      assert d.fields + [cells[0]] + cells[1..] == d.fields + cells;
      InTwo(d, texts[0] + ",", mid, JoinWith(texts[1..], ",") + "\r\n", end);
      JoinedThenBreak(texts, ",");
    }
  }

  lemma {:induction false} JoinedRecords(d: Decoder, lines: seq<string>, records: seq<seq<string>>)
    requires Fresh(d) && d.fields == [] && |lines| == |records| > 0
    requires forall i | 0 <= i < |lines| :: ReadsAsRecord(lines[i], records[i])
    ensures TakeAll(d, JoinWith(lines, "\r\n") + "\r\n") == Decoder(d.records + records, [], "", FieldStart)
    decreases |lines|
  {
    var end := Decoder(d.records + records, [], "", FieldStart);
    assert ReadsAsRecord(lines[0], records[0]);
    if |lines| == 1 {
      assert records == [records[0]];
    } else {
      var mid := Decoder(d.records + [records[0]], [], "", FieldStart);
      assert TakeAll(d, lines[0] + "\r\n") == mid;
      JoinedRecords(mid, lines[1..], records[1..]);
      assert d.records + [records[0]] + records[1..] == d.records + records;
      InTwo(d, lines[0] + "\r\n", mid, JoinWith(lines[1..], "\r\n") + "\r\n", end);
      JoinedThenBreak(lines, "\r\n");
    }
  }

  function Cells(row: seq<CsvValue>): seq<string> {
    seq(|row|, i requires 0 <= i < |row| => Cell(row[i]))
  }

  /** A record of no fields is written, and read, as one empty field. */
  function Record(row: seq<CsvValue>): seq<string> {
    if row == [] then [""] else Cells(row)
  }

  lemma LineReads(row: seq<CsvValue>)
    ensures ReadsAsRecord(Line(row), Record(row))
  {
    var texts := if row == [] then [""] else EscapeAll(row);
    assert Line(row) == JoinWith(texts, ",");
    forall i | 0 <= i < |texts| ensures ReadsAsField(texts[i], Record(row)[i]) {
      EscapedReads(if row == [] then Null else row[i]);
    }
    JoinedReads(texts, Record(row));
  }

  lemma JoinedReads(texts: seq<string>, cells: seq<string>)
    requires |texts| == |cells| > 0
    requires forall i | 0 <= i < |texts| :: ReadsAsField(texts[i], cells[i])
    ensures ReadsAsRecord(JoinWith(texts, ","), cells)
  {
    forall d | Fresh(d) && d.fields == []
      ensures TakeAll(d, JoinWith(texts, ",") + "\r\n") == Decoder(d.records + [cells], [], "", FieldStart)
    {
      JoinedFields(d, texts, cells);
      assert d.fields + cells == cells;
    }
  }

  function Records(rows: seq<seq<CsvValue>>): seq<seq<string>> {
    seq(|rows|, i requires 0 <= i < |rows| => Record(rows[i]))
  }

  lemma DecodesToRecords(headers: seq<string>, rows: seq<seq<CsvValue>>)
    ensures Decode(ToCsv(headers, rows)) == Some(Records([Headers(headers)] + rows))
  {
    var all := [Headers(headers)] + rows;
    forall i | 0 <= i < |all| ensures ReadsAsRecord(Lines(all)[i], Records(all)[i]) {
      LineReads(all[i]);
    }
    JoinedRecords(START, Lines(all), Records(all));
    assert [] + Records(all) == Records(all);
  }

  /** A decoded record holds the guarded texts, one field each; a record of no fields is one empty field. */
  ghost predicate Returns(record: seq<string>, texts: seq<string>) {
    if texts == [] then record == [""]
    else |record| == |texts| && forall i | 0 <= i < |texts| :: record[i] == Guard(texts[i])
  }

  function Texts(row: seq<CsvValue>): (r: seq<string>)
    ensures |r| == |row| && forall i | 0 <= i < |row| :: r[i] == TextOf(row[i])
  {
    seq(|row|, i requires 0 <= i < |row| => TextOf(row[i]))
  }

  lemma RowReturns(row: seq<CsvValue>)
    ensures Returns(Record(row), Texts(row))
  {
  }

  lemma HeaderReturns(headers: seq<string>)
    ensures Returns(Record(Headers(headers)), headers)
  {
  }

  /** Decoding the document gives back the header and every row, cell by guarded cell. */
  lemma RoundTrip(headers: seq<string>, rows: seq<seq<CsvValue>>)
    ensures Decode(ToCsv(headers, rows)).Some?
    ensures var records := Decode(ToCsv(headers, rows)).value;
            && |records| == 1 + |rows| && Returns(records[0], headers)
            && forall k | 0 <= k < |rows| :: Returns(records[1 + k], Texts(rows[k]))
  {
    DecodesToRecords(headers, rows);
    var all := [Headers(headers)] + rows;
    HeaderReturns(headers);
    forall k | 0 <= k < |rows| ensures Records(all)[1 + k] == Record(rows[k]) {
      assert all[1 + k] == rows[k];
    }
    forall k | 0 <= k < |rows| ensures Returns(Record(rows[k]), Texts(rows[k])) {
      RowReturns(rows[k]);
    }
  }

  /**
    So a cell comes back as the text that went in exactly when that text does not look like a
    formula or is a plain decimal; and no decoded cell looks like a formula unless it is a number.
   */
  lemma CellsReturned(row: seq<CsvValue>, i: nat)
    requires i < |row|
    ensures Record(row)[i] == TextOf(row[i]) <==> !Formulaish(TextOf(row[i])) || PlainDecimal(TextOf(row[i]))
    ensures Formulaish(Record(row)[i]) ==> PlainDecimal(Record(row)[i]) && Record(row)[i] == TextOf(row[i])
  {
    GuardDefuses(TextOf(row[i]));
  }
}
