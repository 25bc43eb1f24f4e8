/** CSV field escaping as the admin export does it (the quoting rule of
    section 2 of RFC 4180, with LF as the record separator), and a reader for
    that format, used to state that the export can be read back field for
    field. */
module Csv {
  import opened Wrappers
  import opened Text

  // ---------------------------------------------------------------------
  // Writing
  // ---------------------------------------------------------------------

  /** The test `/[",\n]/`: a double quote, a comma or a line feed forces quoting. */
  predicate NeedsQuoting(s: string) {
    '"' in s || ',' in s || '\n' in s
  }

  /** `s.replace(/"/g, "\"\"")`: every double quote doubled. */
  function DoubleQuotes(s: string): (r: string)
    ensures |r| >= |s|
    ensures '"' !in s ==> r == s
  {
    if |s| == 0 then ""
    else (if s[0] == '"' then "\"\"" else [s[0]]) + DoubleQuotes(s[1..])
  }

  /** A field as written to the file: unchanged when it holds no special
      character, otherwise wrapped in double quotes with inner quotes doubled. */
  function EscapeField(s: string): string {
    if NeedsQuoting(s) then "\"" + DoubleQuotes(s) + "\"" else s
  }

  /** The values `toCsvValue` accepts. */
  datatype CsvScalar = Str(s: string) | Num(n: int) | Flag(b: bool) | Null

  /** `value === null ? "" : String(value)`. */
  function ScalarText(v: CsvScalar): string {
    match v
    case Str(s) => s
    case Num(n) => IntToString(n)
    case Flag(b) => if b then "true" else "false"
    case Null => ""
  }

  /** `toCsvValue`: null becomes the empty field, numbers and booleans are
      written bare, strings are escaped when they need it. */
  function ToCsvValue(v: CsvScalar): (r: string)
    ensures v == Null ==> r == ""
    ensures v.Num? || v.Flag? ==> r == ScalarText(v)
    ensures v.Str? && !NeedsQuoting(v.s) ==> r == v.s
    ensures v.Str? && NeedsQuoting(v.s) ==> |r| >= |v.s| + 2 && r[0] == '"' && r[|r| - 1] == '"'
  {
    if v.Num? then IntTextIsPlain(v.n); EscapeField(ScalarText(v))
    else EscapeField(ScalarText(v))
  }

  /** `String(n)` never holds a character that forces quoting. */
  lemma IntTextIsPlain(n: int)
    ensures !NeedsQuoting(IntToString(n))
  {
    var s := IntToString(n);
    assert forall i :: 0 <= i < |s| ==> s[i] != '"' && s[i] != ',' && s[i] != '\n';
  }

  function EscapeAll(fields: seq<string>): (r: seq<string>)
    ensures |r| == |fields|
    ensures forall i :: 0 <= i < |fields| ==> r[i] == EscapeField(fields[i])
  {
    seq(|fields|, i requires 0 <= i < |fields| => EscapeField(fields[i]))
  }

  /** Fields made only of letters are written as they are. */
  lemma PlainFieldsUnchanged(fields: seq<string>)
    requires forall i, k :: 0 <= i < |fields| && 0 <= k < |fields[i]| ==> 'A' <= fields[i][k] <= 'z'
    ensures EscapeAll(fields) == fields
  {
    forall i | 0 <= i < |fields|
      ensures EscapeField(fields[i]) == fields[i]
    {
      assert !NeedsQuoting(fields[i]) by {
        forall c | c in fields[i] ensures 'A' <= c <= 'z' {
          var k :| 0 <= k < |fields[i]| && fields[i][k] == c;
        }
      }
    }
  }

  /** One line: the escaped fields joined by commas. */
  function FormatRecord(fields: seq<string>): string {
    Join(EscapeAll(fields), ',')
  }

  /** A whole file: the lines joined by line feeds. */
  function FormatDocument(records: seq<seq<string>>): string {
    Join(seq(|records|, i requires 0 <= i < |records| => FormatRecord(records[i])), '\n')
  }

  // ---------------------------------------------------------------------
  // Reading (the inverse, for stating the round trip)
  // ---------------------------------------------------------------------

  /** An unquoted field: everything up to the next comma or line feed. */
  function ReadPlain(s: string): (r: (string, string))
    ensures r.0 + r.1 == s
    ensures |r.1| == 0 || r.1[0] == ',' || r.1[0] == '\n'
  {
    if |s| == 0 || s[0] == ',' || s[0] == '\n' then ("", s)
    else
      var (f, rest) := ReadPlain(s[1..]);
      assert [s[0]] + f + rest == s;
      ([s[0]] + f, rest)
  }

  /** The inside of a quoted field, after its opening quote: `""` stands for
      one quote, a lone quote closes the field. None when it never closes. */
  function ReadQuoted(s: string): (r: Option<(string, string)>)
    ensures r.Some? ==> |r.value.1| < |s|
    decreases |s|
  {
    if |s| == 0 then None
    else if s[0] == '"' then
      if |s| >= 2 && s[1] == '"' then
        match ReadQuoted(s[2..])
        case None => None
        case Some((f, rest)) => Some(("\"" + f, rest))
      else Some(("", s[1..]))
    else
      match ReadQuoted(s[1..])
      case None => None
      case Some((f, rest)) => Some(([s[0]] + f, rest))
  }

  function ReadField(s: string): (r: Option<(string, string)>)
    ensures r.Some? ==> |r.value.1| <= |s|
  {
    if |s| > 0 && s[0] == '"' then ReadQuoted(s[1..]) else Some(ReadPlain(s))
  }

  /** The comma-separated fields of one line, and what follows the line. */
  function ReadRecord(s: string): (r: Option<(seq<string>, string)>)
    ensures r.Some? ==> |r.value.0| >= 1 && |r.value.1| <= |s|
    ensures r.Some? ==> |r.value.1| == 0 || r.value.1[0] == '\n'
    decreases |s|
  {
    match ReadField(s)
    case None => None
    case Some((f, rest)) =>
      if |rest| > 0 && rest[0] == ',' then
        match ReadRecord(rest[1..])
        case None => None
        case Some((fs, tail)) => Some(([f] + fs, tail))
      else if |rest| == 0 || rest[0] == '\n' then Some(([f], rest))
      else None
  }

  /** All lines of a file. */
  function ParseDocument(s: string): Option<seq<seq<string>>>
    decreases |s|
  {
    match ReadRecord(s)
    case None => None
    case Some((rec, rest)) =>
      if |rest| == 0 then Some([rec])
      else
        match ParseDocument(rest[1..])
        case None => None
        case Some(recs) => Some([rec] + recs)
  }

  // ---------------------------------------------------------------------
  // Round trip
  // ---------------------------------------------------------------------

  /** What may follow a field: nothing, a comma or a line feed. */
  predicate FieldEnd(t: string) {
    |t| == 0 || t[0] == ',' || t[0] == '\n'
  }

  lemma {:induction false} ReadPlainOf(v: string, t: string)
    requires !NeedsQuoting(v) && FieldEnd(t)
    ensures ReadPlain(v + t) == (v, t)
    decreases |v|
  {
    if |v| == 0 {
      assert v + t == t;
    } else {
      assert (v + t)[0] == v[0] && (v + t)[1..] == v[1..] + t;
      assert v[0] in v;
      assert !NeedsQuoting(v[1..]) by {
        forall c | c in v[1..] ensures c in v { }
      }
      ReadPlainOf(v[1..], t);
      assert [v[0]] + v[1..] == v;
    }
  }

  lemma {:induction false} ReadQuotedOf(v: string, t: string)
    requires |t| == 0 || t[0] != '"'
    ensures ReadQuoted(DoubleQuotes(v) + "\"" + t) == Some((v, t))
    decreases |v|
  {
    if |v| == 0 {
      var s := DoubleQuotes(v) + "\"" + t;
      assert s == "\"" + t;
      assert s[1..] == t;
    } else {
      ReadQuotedOf(v[1..], t);
      if v[0] == '"' {
        ReadQuotedQuote(v, t);
      } else {
        ReadQuotedPlain(v, t);
      }
    }
  }

  /** The step of `ReadQuotedOf` for a leading double quote. */
  lemma ReadQuotedQuote(v: string, t: string)
    requires |v| > 0 && v[0] == '"'
    requires ReadQuoted(DoubleQuotes(v[1..]) + "\"" + t) == Some((v[1..], t))
    ensures ReadQuoted(DoubleQuotes(v) + "\"" + t) == Some((v, t))
  {
    var inner := DoubleQuotes(v[1..]) + "\"" + t;
    var s := DoubleQuotes(v) + "\"" + t;
    assert DoubleQuotes(v) == "\"\"" + DoubleQuotes(v[1..]);
    assert s == "\"\"" + inner;
    assert s[0] == '"' && s[1] == '"';
    assert s[2..] == inner;
    assert "\"" + v[1..] == v;
  }

  /** The step of `ReadQuotedOf` for any other leading character. */
  lemma ReadQuotedPlain(v: string, t: string)
    requires |v| > 0 && v[0] != '"'
    requires ReadQuoted(DoubleQuotes(v[1..]) + "\"" + t) == Some((v[1..], t))
    ensures ReadQuoted(DoubleQuotes(v) + "\"" + t) == Some((v, t))
  {
    var inner := DoubleQuotes(v[1..]) + "\"" + t;
    var s := DoubleQuotes(v) + "\"" + t;
    assert DoubleQuotes(v) == [v[0]] + DoubleQuotes(v[1..]);
    assert s == [v[0]] + inner;
    assert s[0] == v[0];
    assert s[1..] == inner;
    assert [v[0]] + v[1..] == v;
  }

  lemma ReadFieldOf(v: string, t: string)
    requires FieldEnd(t)
    ensures ReadField(EscapeField(v) + t) == Some((v, t))
  {
    if NeedsQuoting(v) {
      ReadFieldQuoted(v, t);
    } else {
      ReadFieldPlain(v, t);
    }
  }

  /** A quoted field is read back through its closing quote. */
  lemma ReadFieldQuoted(v: string, t: string)
    requires FieldEnd(t) && NeedsQuoting(v)
    ensures ReadField(EscapeField(v) + t) == Some((v, t))
  {
    var w := DoubleQuotes(v) + "\"" + t;
    assert EscapeField(v) + t == "\"" + w;
    ReadFieldAfterQuote(w);
    ReadQuotedOf(v, t);
  }

  /** A field opening with a double quote is read as a quoted field. */
  lemma ReadFieldAfterQuote(w: string)
    ensures ReadField("\"" + w) == ReadQuoted(w)
  {
    assert ("\"" + w)[1..] == w;
  }

  /** A field needing no quotes is read up to the next separator. */
  lemma ReadFieldPlain(v: string, t: string)
    requires FieldEnd(t) && !NeedsQuoting(v)
    ensures ReadField(EscapeField(v) + t) == Some((v, t))
  {
    assert EscapeField(v) == v;
    ReadPlainOf(v, t);
    if |v| > 0 {
      assert v[0] in v;
      assert (v + t)[0] == v[0];
    } else {
      assert v + t == t;
    }
  }

  lemma {:induction false} ReadRecordOf(fields: seq<string>, t: string)
    requires |fields| >= 1
    requires |t| == 0 || t[0] == '\n'
    ensures ReadRecord(FormatRecord(fields) + t) == Some((fields, t))
    decreases |fields|
  {
    var esc := EscapeAll(fields);
    if |fields| == 1 {
      assert FormatRecord(fields) == EscapeField(fields[0]);
      ReadFieldOf(fields[0], t);
      assert fields == [fields[0]];
    } else {
      var restLine := FormatRecord(fields[1..]);
      assert esc[1..] == EscapeAll(fields[1..]);
      assert FormatRecord(fields) == EscapeField(fields[0]) + [','] + restLine;
      var after := [','] + (restLine + t);
      assert FormatRecord(fields) + t == EscapeField(fields[0]) + after;
      ReadFieldOf(fields[0], after);
      assert after[1..] == restLine + t;
      ReadRecordOf(fields[1..], t);
      assert [fields[0]] + fields[1..] == fields;
    }
  }

  /** Reading a written file gives back exactly the records written, as long
      as every record has at least one field. */
  lemma {:induction false} ParseFormatted(records: seq<seq<string>>)
    requires |records| >= 1
    requires forall i :: 0 <= i < |records| ==> |records[i]| >= 1
    ensures ParseDocument(FormatDocument(records)) == Some(records)
    decreases |records|
  {
    var lines := seq(|records|, i requires 0 <= i < |records| => FormatRecord(records[i]));
    if |records| == 1 {
      assert FormatDocument(records) == FormatRecord(records[0]);
      ReadRecordOf(records[0], "");
      assert FormatRecord(records[0]) + "" == FormatRecord(records[0]);
      assert records == [records[0]];
    } else {
      var restDoc := FormatDocument(records[1..]);
      assert lines[1..] == seq(|records[1..]|, i requires 0 <= i < |records[1..]| => FormatRecord(records[1..][i]));
      assert FormatDocument(records) == FormatRecord(records[0]) + ("\n" + restDoc);
      ReadRecordOf(records[0], "\n" + restDoc);
      assert ("\n" + restDoc)[1..] == restDoc;
      ParseFormatted(records[1..]);
      assert [records[0]] + records[1..] == records;
    }
  }

  /** Escaping alone is invertible: the quoted form of a field reads back as
      the field, whatever characters it holds. */
  lemma EscapeFieldRoundTrip(v: string)
    ensures ReadField(EscapeField(v)) == Some((v, ""))
  {
    ReadFieldOf(v, "");
    assert EscapeField(v) + "" == EscapeField(v);
  }
}
