/** Parsing one row of comma-separated values
    (parse_csv_row, common/arg.cpp, lines 1320-1366). */
module CsvRow {

  /** The fields of the rest `s` of a row, given the field read so far. */
  function ParseFrom(s: string, field: string, inQuotes: bool): (fields: seq<string>)
    ensures fields != []
    decreases |s|
  {
    if s == "" then [field]
    else if s[0] == '"' then
      if !inQuotes then
        if field != "" then ParseFrom(s[1..], field + "\"", false) else ParseFrom(s[1..], field, true)
      else if |s| > 1 && s[1] == '"' then ParseFrom(s[2..], field + "\"", true)
      else ParseFrom(s[1..], field, false)
    else if s[0] == ',' && !inQuotes then [field] + ParseFrom(s[1..], "", false)
    else ParseFrom(s[1..], field + [s[0]], inQuotes)
  }

  function Parse(s: string): seq<string>
  {
    ParseFrom(s, "", false)
  }

  method ParseCsvRow(input: string) returns (fields: seq<string>)
    ensures fields == Parse(input)
  {
    fields := [];
    var field, inQuotes, i := "", false, 0;
    assert input[0..] == input;
    while i < |input|
      invariant 0 <= i <= |input|
      invariant fields + ParseFrom(input[i..], field, inQuotes) == Parse(input)
    {
      var ch := input[i];
      assert input[i..][1..] == input[i + 1..];
      if ch == '"' {
        if !inQuotes {
          if field != "" {
            field := field + "\"";
          } else {
            inQuotes := true;
          }
        } else {
          if i + 1 < |input| && input[i + 1] == '"' {
            assert input[i..][2..] == input[i + 2..];
            field := field + "\"";
            i := i + 1;
          } else {
            inQuotes := false;
          }
        }
      } else if ch == ',' {
        if inQuotes {
          field := field + ",";
        } else {
          fields := fields + [field];
          field := "";
        }
      } else {
        field := field + [ch];
      }
      i := i + 1;
    }
    fields := fields + [field];
  }

  // ----- a printer -----

  /** The inner text of a quoted field: quotes are doubled. */
  function Doubled(f: string): string
  {
    if f == "" then "" else DoubledChar(f[0]) + Doubled(f[1..])
  }

  function DoubledChar(c: char): string
  {
    if c == '"' then "\"\"" else [c]
  }

  /** A field that may stand without quotes. */
  predicate IsPlain(f: string)
  {
    ',' !in f && (f != "" ==> f[0] != '"')
  }

  datatype Cell = Cell(text: string, quoted: bool)

  function PrintCell(c: Cell): string
  {
    if c.quoted then "\"" + Doubled(c.text) + "\"" else c.text
  }

  function PrintRow(row: seq<Cell>): string
    requires row != []
  {
    if |row| == 1 then PrintCell(row[0]) else PrintCell(row[0]) + "," + PrintRow(row[1..])
  }

  function Texts(row: seq<Cell>): seq<string>
  {
    seq(|row|, i requires 0 <= i < |row| => row[i].text)
  }

  /** What may follow a printed cell. */
  predicate EndsCell(s: string)
  {
    s == "" || s[0] == ','
  }

  lemma {:induction false} ParseDoubled(f: string, rest: string, field: string)
    requires EndsCell(rest)
    ensures ParseFrom(Doubled(f) + "\"" + rest, field, true) == ParseFrom(rest, field + f, false)
    decreases |f|
  {
    hide *;
    if f == "" {
      DoubledNothing(rest);
      assert field + f == field;
      ParseCloses(rest, field);
    } else {
      var tail := Doubled(f[1..]) + "\"" + rest;
      DoubledUnfold(f, rest);
      ParseInside(f[0], tail, field);
      ParseDoubled(f[1..], rest, field + [f[0]]);
      assert field + [f[0]] + f[1..] == field + f;
    }
  }

  lemma DoubledNothing(rest: string)
    ensures Doubled("") + "\"" + rest == "\"" + rest
  {
  }

  lemma DoubledUnfold(f: string, rest: string)
    requires f != ""
    ensures Doubled(f) + "\"" + rest == DoubledChar(f[0]) + (Doubled(f[1..]) + "\"" + rest)
  {
  }

  lemma ParseInside(c: char, tail: string, field: string)
    ensures ParseFrom(DoubledChar(c) + tail, field, true) == ParseFrom(tail, field + [c], true)
  {
    var s := DoubledChar(c) + tail;
    assert if c == '"' then s[2..] == tail else s[1..] == tail;
  }

  lemma ParseCloses(rest: string, field: string)
    requires EndsCell(rest)
    ensures ParseFrom("\"" + rest, field, true) == ParseFrom(rest, field, false)
  {
    assert ("\"" + rest)[1..] == rest;
  }

  lemma {:induction false} ParsePlain(f: string, rest: string, field: string)
    requires EndsCell(rest) && ',' !in f && (f != "" && f[0] == '"' ==> field != "")
    ensures ParseFrom(f + rest, field, false) == ParseFrom(rest, field + f, false)
    decreases |f|
  {
    if f == "" {
      assert f + rest == rest && field + f == field;
    } else {
      assert (f + rest)[0] == f[0] && (f + rest)[1..] == f[1..] + rest;
      ParsePlain(f[1..], rest, field + [f[0]]);
      assert field + [f[0]] + f[1..] == field + f;
    }
  }

  lemma ParseCell(c: Cell, rest: string)
    requires EndsCell(rest) && (c.quoted || IsPlain(c.text))
    ensures Parse(PrintCell(c) + rest) == ParseFrom(rest, c.text, false)
  {
    if c.quoted {
      var s := PrintCell(c) + rest;
      assert s[1..] == Doubled(c.text) + "\"" + rest;
      ParseDoubled(c.text, rest, "");
    } else {
      ParsePlain(c.text, rest, "");
    }
    assert "" + c.text == c.text;
  }

  /** Parsing inverts printing for every non-empty row: any field may be quoted, and plain
      fields may stand without quotes. */
  lemma {:induction false} RowRoundTrip(row: seq<Cell>)
    requires row != [] && forall i :: 0 <= i < |row| ==> row[i].quoted || IsPlain(row[i].text)
    ensures Parse(PrintRow(row)) == Texts(row)
  {
    hide PrintCell, ParseFrom, Parse, IsPlain;
    if |row| == 1 {
      ParseCell(row[0], "");
      ParseEnd(row[0].text);
      assert PrintCell(row[0]) + "" == PrintCell(row[0]);
      assert Texts(row) == [row[0].text];
    } else {
      var tail := PrintRow(row[1..]);
      ParseCell(row[0], "," + tail);
      ParseSeparator(row[0].text, tail);
      RowRoundTrip(row[1..]);
      assert PrintRow(row) == PrintCell(row[0]) + ("," + tail);
      assert Texts(row) == [row[0].text] + Texts(row[1..]);
    }
  }

  lemma ParseEnd(field: string)
    ensures ParseFrom("", field, false) == [field]
  {
  }

  lemma ParseSeparator(field: string, tail: string)
    ensures ParseFrom("," + tail, field, false) == [field] + Parse(tail)
  {
    assert ("," + tail)[1..] == tail;
  }

  // ----- the same parser without look-ahead -----

  /** At the start of a field, inside a bare one, inside quotes, or after a quote that ends
      the quoted part unless another one follows. */
  datatype Mode = Fresh | Bare | Quoted | Ending

  function NextMode(m: Mode, c: char): Mode
  {
    if m == Quoted then (if c == '"' then Ending else Quoted)
    else if c == ',' then Fresh
    else if c == '"' && m != Bare then Quoted
    else Bare
  }

  function Added(m: Mode, c: char): string
  {
    if c == '"' && (m == Fresh || m == Quoted) then "" else [c]
  }

  function Stream(m: Mode, field: string, s: string): (fields: seq<string>)
    ensures fields != []
    decreases |s|
  {
    if s == "" then [field]
    else if s[0] == ',' && m != Quoted then [field] + Stream(Fresh, "", s[1..])
    else Stream(NextMode(m, s[0]), field + Added(m, s[0]), s[1..])
  }

  /** The modes in which the parser with look-ahead can be. */
  predicate Agrees(m: Mode, field: string, inQuotes: bool)
  {
    match m
    case Fresh => field == "" && !inQuotes
    case Bare => field != "" && !inQuotes
    case Quoted => inQuotes
    case Ending => false
  }

  /** The parser that looks ahead and the one that does not give the same fields. */
  lemma {:induction false} StreamAgrees(m: Mode, field: string, inQuotes: bool, s: string)
    requires Agrees(m, field, inQuotes)
    ensures Stream(m, field, s) == ParseFrom(s, field, inQuotes)
    decreases |s|
  {
    if s != "" {
      var c, rest := s[0], s[1..];
      if c == '"' && m == Quoted {
        // the next character decides what this quote means
        assert field + "" == field;
        assert Stream(m, field, s) == Stream(Ending, field, rest);
        if rest == "" {
        } else if rest[0] == '"' {
          assert rest[1..] == s[2..];
          StreamAgrees(Quoted, field + "\"", true, s[2..]);
        } else if rest[0] == ',' {
          StreamAgrees(Fresh, "", false, rest[1..]);
        } else {
          StreamAgrees(Bare, field + [rest[0]], false, rest[1..]);
        }
      } else if c == ',' && m != Quoted {
        StreamAgrees(Fresh, "", false, rest);
      } else {
        assert c == '"' && m == Fresh ==> field + "" == field;
        StreamAgrees(NextMode(m, c), field + Added(m, c), inQuotes || (m == Fresh && c == '"'), rest);
      }
    }
  }

  /** Commas that separate fields. */
  function Separators(m: Mode, s: string): nat
    decreases |s|
  {
    if s == "" then 0 else (if s[0] == ',' && m != Quoted then 1 else 0) + Separators(NextMode(m, s[0]), s[1..])
  }

  lemma {:induction false} StreamCount(m: Mode, field: string, s: string)
    ensures |Stream(m, field, s)| == 1 + Separators(m, s)
    decreases |s|
  {
    if s != "" {
      if s[0] == ',' && m != Quoted {
        StreamCount(Fresh, "", s[1..]);
      } else {
        StreamCount(NextMode(m, s[0]), field + Added(m, s[0]), s[1..]);
      }
    }
  }

  /** For every row, there is one field more than there are commas outside quotes. */
  lemma FieldCount(s: string)
    ensures |Parse(s)| == 1 + Separators(Fresh, s)
  {
    StreamAgrees(Fresh, "", false, s);
    StreamCount(Fresh, "", s);
  }
}
