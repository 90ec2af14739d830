/** The records the export writes: `csv.writer` with `delimiter=','`,
    `quoting=csv.QUOTE_ALL` and `lineterminator='\r\n'`. Every field is
    wrapped in double quotes and a quote inside a field is doubled; fields
    are separated by commas. `ParseRecord` reads such a record back. */
module Csv {
  import opened Common
  import opened Text

  /** A field's text with every `"` doubled. */
  function Escape(f: string): string
  {
    if f == [] then []
    else (if f[0] == '"' then "\"\"" else [f[0]]) + Escape(f[1..])
  }

  function FormatField(f: string): string
  {
    "\"" + Escape(f) + "\""
  }

  /** One record without its terminator. */
  function FormatRecord(fields: seq<string>): string
  {
    if fields == [] then ""
    else if |fields| == 1 then FormatField(fields[0])
    else FormatField(fields[0]) + "," + FormatRecord(fields[1..])
  }

  /** The content of a quoted field, read after its opening quote, up to
      its closing quote: the field's text and what follows the quote. */
  function ParseQuoted(s: string): (r: Option<(string, string)>)
    ensures r.Some? ==> |r.value.1| < |s|
  {
    if s == [] then None
    else if s[0] == '"' then
      if |s| >= 2 && s[1] == '"' then
        match ParseQuoted(s[2..])
        case None => None
        case Some((f, rest)) => Some(("\"" + f, rest))
      else Some(("", s[1..]))
    else
      match ParseQuoted(s[1..])
      case None => None
      case Some((f, rest)) => Some(([s[0]] + f, rest))
  }

  /** A non-empty comma-separated run of quoted fields. */
  function ParseFields(s: string): Option<seq<string>>
    decreases |s|
  {
    if s == [] || s[0] != '"' then None
    else
      match ParseQuoted(s[1..])
      case None => None
      case Some((f, rest)) =>
        if rest == [] then Some([f])
        else if rest[0] == ',' then
          match ParseFields(rest[1..])
          case None => None
          case Some(fs) => Some([f] + fs)
        else None
  }

  /** A record as `FormatRecord` lays it out; the empty line is the empty
      record. */
  function ParseRecord(line: string): Option<seq<string>>
  {
    if line == [] then Some([]) else ParseFields(line)
  }

  /** An escaped field followed by its closing quote reads back as the
      field, whatever follows the quote, as long as it is not a quote. */
  lemma {:induction false} ParseQuotedEscape(f: string, rest: string)
    requires rest == [] || rest[0] != '"'
    ensures ParseQuoted(Escape(f) + "\"" + rest) == Some((f, rest))
  {
    var s := Escape(f) + "\"" + rest;
    if f == [] {
      assert s == "\"" + rest;
      assert s[1..] == rest;
    } else if f[0] == '"' {
      ParseQuotedEscape(f[1..], rest);
      assert s == "\"\"" + (Escape(f[1..]) + "\"" + rest);
      assert s[2..] == Escape(f[1..]) + "\"" + rest;
      assert "\"" + f[1..] == f;
    } else {
      ParseQuotedEscape(f[1..], rest);
      assert s == [f[0]] + (Escape(f[1..]) + "\"" + rest);
      assert s[1..] == Escape(f[1..]) + "\"" + rest;
      assert [f[0]] + f[1..] == f;
    }
  }

  lemma ParseFieldsLast(f: string)
    ensures ParseFields(FormatField(f)) == Some([f])
  {
    ParseQuotedEscape(f, "");
    var s := FormatField(f);
    assert s[1..] == Escape(f) + "\"" + "";
  }

  lemma ParseFieldsCons(f: string, tail: string)
    ensures ParseFields(FormatField(f) + "," + tail)
         == match ParseFields(tail)
            case None => None
            case Some(fs) => Some([f] + fs)
  {
    ParseQuotedEscape(f, "," + tail);
    var s := FormatField(f) + "," + tail;
    assert s[1..] == Escape(f) + "\"" + ("," + tail);
    assert ("," + tail)[1..] == tail;
  }

  lemma {:induction false} ParseFieldsFormat(fields: seq<string>)
    requires fields != []
    ensures ParseFields(FormatRecord(fields)) == Some(fields)
  {
    if |fields| == 1 {
      ParseFieldsLast(fields[0]);
      assert fields == [fields[0]];
    } else {
      ParseFieldsCons(fields[0], FormatRecord(fields[1..]));
      ParseFieldsFormat(fields[1..]);
      assert [fields[0]] + fields[1..] == fields;
    }
  }

  /** Reading a written record gives back its fields, for any fields. */
  lemma RecordRoundTrip(fields: seq<string>)
    ensures ParseRecord(FormatRecord(fields)) == Some(fields)
  {
    if fields != [] {
      ParseFieldsFormat(fields);
    }
  }

  lemma {:induction false} EscapeNoLineBreak(f: string)
    requires NoLineBreak(f)
    ensures NoLineBreak(Escape(f))
  {
    if f != [] {
      EscapeNoLineBreak(f[1..]);
    }
  }

  /** A record of fields without line breaks is a single line. */
  lemma {:induction false} RecordNoLineBreak(fields: seq<string>)
    requires forall k :: 0 <= k < |fields| ==> NoLineBreak(fields[k])
    ensures NoLineBreak(FormatRecord(fields))
  {
    if fields != [] {
      EscapeNoLineBreak(fields[0]);
      if |fields| > 1 {
        RecordNoLineBreak(fields[1..]);
      }
    }
  }

  /** The whole file: the header record, then one record per row, each
      ended by CRLF. */
  function Document(header: seq<string>, rows: seq<seq<string>>): string
  {
    CrlfText([FormatRecord(header)] + seq(|rows|, k requires 0 <= k < |rows| => FormatRecord(rows[k])))
  }

  predicate NoLineBreaks(fields: seq<string>)
  {
    forall k :: 0 <= k < |fields| ==> NoLineBreak(fields[k])
  }

  /** Read back line by line, the file holds one line per record, 1 + the
      number of rows, and each line parses to the header or its row. */
  lemma DocumentReadsBack(header: seq<string>, rows: seq<seq<string>>)
    requires NoLineBreaks(header)
    requires forall k :: 0 <= k < |rows| ==> NoLineBreaks(rows[k])
    ensures var lines := TextLines(Document(header, rows));
      |lines| == 1 + |rows|
      && ParseRecord(lines[0]) == Some(header)
      && forall k :: 0 <= k < |rows| ==> ParseRecord(lines[k + 1]) == Some(rows[k])
  {
    var records := [FormatRecord(header)] + seq(|rows|, k requires 0 <= k < |rows| => FormatRecord(rows[k]));
    forall k | 0 <= k < |records|
      ensures NoLineBreak(records[k])
    {
      if k == 0 {
        RecordNoLineBreak(header);
      } else {
        RecordNoLineBreak(rows[k - 1]);
      }
    }
    TextLinesOfCrlf(records);
    RecordRoundTrip(header);
    forall k | 0 <= k < |rows|
      ensures ParseRecord(records[k + 1]) == Some(rows[k])
    {
      RecordRoundTrip(rows[k]);
    }
  }
}
