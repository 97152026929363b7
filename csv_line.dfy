/** The quote-aware splitter of one CSV line (`parseCSVLine` in
    src/component/CSVBookUpload.tsx). It follows the quoting of rules 5 to 7
    of section 2 of RFC 4180 (a quoted field may hold commas, and a doubled
    quote inside quotes stands for one quote), except that every field is
    trimmed and a stray quote anywhere simply toggles the quoted state. */
module CsvLine {

  import opened Text

  /** The splitter's two-state machine run over the rest `s` of the line, with
      the field being read (`current`) and the fields already finished. */
  function Scan(s: string, inQuotes: bool, current: string, fields: seq<string>): seq<string>
    decreases |s|
  {
    if s == [] then fields + [Trim(current)]
    else if s[0] == '"' then
      if inQuotes && |s| > 1 && s[1] == '"' then Scan(s[2..], inQuotes, current + ['"'], fields)
      else Scan(s[1..], !inQuotes, current, fields)
    else if s[0] == ',' && !inQuotes then Scan(s[1..], inQuotes, "", fields + [Trim(current)])
    else Scan(s[1..], inQuotes, current + [s[0]], fields)
  }

  /** The fields of a whole line. */
  function LineFields(line: string): seq<string> {
    Scan(line, false, "", [])
  }

  /** One step of the splitter at position `i` of the line. */
  lemma ScanAt(line: string, i: int, inQuotes: bool, current: string, fields: seq<string>)
    requires 0 <= i < |line|
    ensures line[i] == '"' && inQuotes && i + 1 < |line| && line[i + 1] == '"' ==>
      Scan(line[i..], inQuotes, current, fields) == Scan(line[i + 2..], inQuotes, current + ['"'], fields)
    ensures line[i] == '"' && !(inQuotes && i + 1 < |line| && line[i + 1] == '"') ==>
      Scan(line[i..], inQuotes, current, fields) == Scan(line[i + 1..], !inQuotes, current, fields)
    ensures line[i] == ',' && !inQuotes ==>
      Scan(line[i..], inQuotes, current, fields) == Scan(line[i + 1..], inQuotes, "", fields + [Trim(current)])
    ensures line[i] != '"' && !(line[i] == ',' && !inQuotes) ==>
      Scan(line[i..], inQuotes, current, fields) == Scan(line[i + 1..], inQuotes, current + [line[i]], fields)
  {
    assert line[i..][1..] == line[i + 1..];
    if i + 1 < |line| {
      assert line[i..][2..] == line[i + 2..];
    }
  }

  /** The component's character loop. */
  method ParseLine(line: string) returns (result: seq<string>)
    ensures result == LineFields(line)
  {
    result := [];
    var current := "";
    var inQuotes := false;
    var i := 0;
    while i < |line|
      invariant 0 <= i <= |line|
      invariant Scan(line[i..], inQuotes, current, result) == LineFields(line)
    {
      ScanAt(line, i, inQuotes, current, result);
      var c := line[i];
      if c == '"' {
        if inQuotes && i + 1 < |line| && line[i + 1] == '"' {
          current := current + ['"'];
          i := i + 1;
        } else {
          inQuotes := !inQuotes;
        }
      } else if c == ',' && !inQuotes {
        result := result + [Trim(current)];
        current := "";
      } else {
        current := current + [c];
      }
      i := i + 1;
    }
    result := result + [Trim(current)];
  }

  // ------------------------------------------------------ field count

  /** The commas the splitter reads while outside quotes. */
  function UnquotedCommas(s: string, inQuotes: bool): nat
    decreases |s|
  {
    if s == [] then 0
    else if s[0] == '"' then
      if inQuotes && |s| > 1 && s[1] == '"' then UnquotedCommas(s[2..], inQuotes)
      else UnquotedCommas(s[1..], !inQuotes)
    else (if s[0] == ',' && !inQuotes then 1 else 0) + UnquotedCommas(s[1..], inQuotes)
  }

  lemma {:induction false} ScanCount(s: string, inQuotes: bool, current: string, fields: seq<string>)
    ensures |Scan(s, inQuotes, current, fields)| == |fields| + 1 + UnquotedCommas(s, inQuotes)
    decreases |s|
  {
    if s == [] {
    } else if s[0] == '"' {
      if inQuotes && |s| > 1 && s[1] == '"' {
        ScanCount(s[2..], inQuotes, current + ['"'], fields);
      } else {
        ScanCount(s[1..], !inQuotes, current, fields);
      }
    } else if s[0] == ',' && !inQuotes {
      ScanCount(s[1..], inQuotes, "", fields + [Trim(current)]);
    } else {
      ScanCount(s[1..], inQuotes, current + [s[0]], fields);
    }
  }

  /** A line always yields at least one field: one more than its unquoted commas. */
  lemma FieldCount(line: string)
    ensures |LineFields(line)| == 1 + UnquotedCommas(line, false)
    ensures |LineFields(line)| >= 1
  {
    ScanCount(line, false, "", []);
  }

  // ----------------------------------------------------- field content

  /** Finished fields are never revisited. */
  lemma {:induction false} ScanKeepsFields(s: string, inQuotes: bool, current: string, fields: seq<string>)
    ensures Scan(s, inQuotes, current, fields) == fields + Scan(s, inQuotes, current, [])
    decreases |s|
  {
    if s == [] {
    } else if s[0] == '"' {
      if inQuotes && |s| > 1 && s[1] == '"' {
        ScanKeepsFields(s[2..], inQuotes, current + ['"'], fields);
      } else {
        ScanKeepsFields(s[1..], !inQuotes, current, fields);
      }
    } else if s[0] == ',' && !inQuotes {
      var rest := Scan(s[1..], inQuotes, "", []);
      ScanKeepsFields(s[1..], inQuotes, "", fields + [Trim(current)]);
      ScanKeepsFields(s[1..], inQuotes, "", [Trim(current)]);
      assert [] + [Trim(current)] == [Trim(current)];
      assert fields + [Trim(current)] + rest == fields + ([Trim(current)] + rest);
    } else {
      ScanKeepsFields(s[1..], inQuotes, current + [s[0]], fields);
    }
  }

  lemma {:induction false} ScanTrimmed(s: string, inQuotes: bool, current: string, fields: seq<string>)
    requires forall i :: 0 <= i < |fields| ==> IsTrimmed(fields[i])
    ensures forall i :: 0 <= i < |Scan(s, inQuotes, current, fields)| ==> IsTrimmed(Scan(s, inQuotes, current, fields)[i])
    decreases |s|
  {
    if s == [] {
    } else if s[0] == '"' {
      if inQuotes && |s| > 1 && s[1] == '"' {
        ScanTrimmed(s[2..], inQuotes, current + ['"'], fields);
      } else {
        ScanTrimmed(s[1..], !inQuotes, current, fields);
      }
    } else if s[0] == ',' && !inQuotes {
      ScanTrimmed(s[1..], inQuotes, "", fields + [Trim(current)]);
    } else {
      ScanTrimmed(s[1..], inQuotes, current + [s[0]], fields);
    }
  }

  /** Every field comes out whitespace-trimmed. */
  lemma FieldsTrimmed(line: string)
    ensures forall i :: 0 <= i < |LineFields(line)| ==> IsTrimmed(LineFields(line)[i])
  {
    ScanTrimmed(line, false, "", []);
  }

  /** No two quotes stand next to each other in `s`. */
  predicate NoDoubledQuote(s: string) {
    forall i :: 0 <= i < |s| - 1 ==> !(s[i] == '"' && s[i + 1] == '"')
  }

  lemma NoDoubledQuoteTail(s: string)
    requires s != [] && NoDoubledQuote(s)
    ensures NoDoubledQuote(s[1..])
    ensures s[0] == '"' && |s| > 1 ==> s[1] != '"'
  {
    forall i | 0 <= i < |s[1..]| - 1
      ensures !(s[1..][i] == '"' && s[1..][i + 1] == '"')
    {
      assert s[1..][i] == s[i + 1] && s[1..][i + 1] == s[i + 2];
    }
  }

  lemma {:induction false} ScanQuoteFree(s: string, inQuotes: bool, current: string, fields: seq<string>)
    requires NoDoubledQuote(s)
    requires '"' !in current
    requires forall i :: 0 <= i < |fields| ==> '"' !in fields[i]
    ensures forall i :: 0 <= i < |Scan(s, inQuotes, current, fields)| ==> '"' !in Scan(s, inQuotes, current, fields)[i]
    decreases |s|
  {
    if s == [] {
      TrimKeepsOut(current, '"');
    } else {
      NoDoubledQuoteTail(s);
      if s[0] == '"' {
        assert Scan(s, inQuotes, current, fields) == Scan(s[1..], !inQuotes, current, fields);
        ScanQuoteFree(s[1..], !inQuotes, current, fields);
      } else if s[0] == ',' && !inQuotes {
        TrimKeepsOut(current, '"');
        var more := fields + [Trim(current)];
        assert forall i :: 0 <= i < |more| ==> '"' !in more[i];
        ScanQuoteFree(s[1..], inQuotes, "", more);
      } else {
        assert '"' !in current + [s[0]];
        ScanQuoteFree(s[1..], inQuotes, current + [s[0]], fields);
      }
    }
  }

  /** A quote reaches a field only through a doubled quote: a line without one
      yields fields without quotes. */
  lemma QuotesOnlyFromPairs(line: string)
    requires NoDoubledQuote(line)
    ensures forall i :: 0 <= i < |LineFields(line)| ==> '"' !in LineFields(line)[i]
  {
    ScanQuoteFree(line, false, "", []);
  }

  // ------------------------------------------------------- round trips

  /** Rule 7 of the RFC: a quote inside a quoted field is written twice. */
  function Escape(f: string): string {
    if f == [] then [] else (if f[0] == '"' then "\"\"" else [f[0]]) + Escape(f[1..])
  }

  /** Rule 6 of the RFC: a field enclosed in quotes. */
  function Quoted(f: string): string {
    "\"" + Escape(f) + "\""
  }

  /** A line of quoted fields separated by commas. */
  function QuotedLine(fields: seq<string>): string
    requires fields != []
  {
    if |fields| == 1 then Quoted(fields[0]) else Quoted(fields[0]) + "," + QuotedLine(fields[1..])
  }

  /** Inside quotes, a doubled quote adds one quote to the field. */
  lemma ScanDoubledQuote(t: string, current: string, fields: seq<string>)
    ensures Scan("\"\"" + t, true, current, fields) == Scan(t, true, current + ['"'], fields)
  {
    assert ("\"\"" + t)[2..] == t;
  }

  /** Inside quotes, a quote not followed by another one closes the quotes. */
  lemma ScanClosingQuote(rest: string, current: string, fields: seq<string>)
    requires rest == [] || rest[0] != '"'
    ensures Scan("\"" + rest, true, current, fields) == Scan(rest, false, current, fields)
  {
    assert ("\"" + rest)[1..] == rest;
  }

  /** Inside quotes, any other character joins the field. */
  lemma ScanQuotedChar(c: char, t: string, current: string, fields: seq<string>)
    requires c != '"'
    ensures Scan([c] + t, true, current, fields) == Scan(t, true, current + [c], fields)
  {
    assert ([c] + t)[1..] == t;
  }

  lemma EscapeStep(f: string, rest: string)
    requires f != []
    ensures Escape(f) + rest == (if f[0] == '"' then "\"\"" else [f[0]]) + (Escape(f[1..]) + rest)
  {
  }

  lemma ExtendField(current: string, f: string)
    requires f != []
    ensures current + [f[0]] + f[1..] == current + f
  {
    assert f == [f[0]] + f[1..];
  }

  lemma {:induction false} ScanEscaped(f: string, current: string, rest: string, fields: seq<string>)
    requires rest == [] || rest[0] != '"'
    ensures Scan(Escape(f) + "\"" + rest, true, current, fields) == Scan(rest, false, current + f, fields)
    decreases |f|
  {
    if f == [] {
      assert Escape(f) == [];
      assert current + f == current;
      ScanClosingQuote(rest, current, fields);
    } else {
      var t := Escape(f[1..]) + ("\"" + rest);
      assert Escape(f) + "\"" + rest == Escape(f) + ("\"" + rest);
      assert Escape(f[1..]) + "\"" + rest == t;
      EscapeStep(f, "\"" + rest);
      ScanEscaped(f[1..], current + [f[0]], rest, fields);
      ExtendField(current, f);
      if f[0] == '"' {
        ScanDoubledQuote(t, current, fields);
      } else {
        ScanQuotedChar(f[0], t, current, fields);
      }
    }
  }

  lemma ScanQuoted(f: string, rest: string, fields: seq<string>)
    requires rest == [] || rest[0] != '"'
    ensures Scan(Quoted(f) + rest, false, "", fields) == Scan(rest, false, f, fields)
  {
    var s := Quoted(f) + rest;
    assert s == "\"" + (Escape(f) + "\"" + rest);
    assert s[1..] == Escape(f) + "\"" + rest;
    ScanEscaped(f, "", rest, fields);
    assert "" + f == f;
  }

  /** An unquoted comma closes the current field. */
  lemma ScanComma(rest: string, current: string, fields: seq<string>)
    ensures Scan("," + rest, false, current, fields) == Scan(rest, false, "", fields + [Trim(current)])
  {
    assert ("," + rest)[1..] == rest;
  }

  lemma {:induction false} ScanQuotedLine(fields: seq<string>, done: seq<string>)
    requires fields != []
    requires forall i :: 0 <= i < |fields| ==> IsTrimmed(fields[i])
    ensures Scan(QuotedLine(fields), false, "", done) == done + fields
    decreases |fields|
  {
    var f := fields[0];
    assert IsTrimmed(f);
    if |fields| == 1 {
      ScanQuoted(f, "", done);
      assert Quoted(f) + "" == Quoted(f);
      assert Trim(f) == f;
    } else {
      var tail := QuotedLine(fields[1..]);
      var rest := "," + tail;
      assert QuotedLine(fields) == Quoted(f) + rest;
      ScanQuoted(f, rest, done);
      ScanComma(tail, f, done);
      assert Trim(f) == f;
      ScanQuotedLine(fields[1..], done + [f]);
      assert done + [f] + fields[1..] == done + fields;
    }
  }

  /** Quoting every field and splitting the line gives the fields back, for any
      fields without surrounding whitespace: commas and quotes included. */
  lemma QuotedRoundTrip(fields: seq<string>)
    requires fields != []
    requires forall i :: 0 <= i < |fields| ==> IsTrimmed(fields[i])
    ensures LineFields(QuotedLine(fields)) == fields
  {
    ScanQuotedLine(fields, []);
  }

  /** A field that needs no quoting. */
  predicate Plain(f: string) {
    IsTrimmed(f) && ',' !in f && '"' !in f
  }

  lemma {:induction false} ScanPlain(f: string, current: string, rest: string, fields: seq<string>)
    requires ',' !in f && '"' !in f
    ensures Scan(f + rest, false, current, fields) == Scan(rest, false, current + f, fields)
    decreases |f|
  {
    if f == [] {
      assert f + rest == rest;
      assert current + f == current;
    } else {
      assert (f + rest)[0] == f[0];
      assert (f + rest)[1..] == f[1..] + rest;
      ScanPlain(f[1..], current + [f[0]], rest, fields);
      assert current + [f[0]] + f[1..] == current + f;
    }
  }

  lemma JoinCons(parts: seq<string>, sep: string)
    requires |parts| > 1
    ensures JoinWith(parts, sep) == parts[0] + (sep + JoinWith(parts[1..], sep))
  {
  }

  /** A plain field followed by a comma is one finished field. */
  lemma ScanPlainField(f: string, rest: string, done: seq<string>)
    requires Plain(f)
    requires rest == [] || rest[0] == ','
    ensures Scan(f + rest, false, "", done) == Scan(rest, false, f, done)
  {
    ScanPlain(f, "", rest, done);
    assert "" + f == f;
  }

  lemma {:induction false} ScanPlainLine(fields: seq<string>, done: seq<string>)
    requires fields != []
    requires forall i :: 0 <= i < |fields| ==> Plain(fields[i])
    ensures Scan(JoinWith(fields, ","), false, "", done) == done + fields
    decreases |fields|
  {
    var f := fields[0];
    assert Plain(f);
    assert Trim(f) == f;
    if |fields| == 1 {
      ScanPlainField(f, "", done);
      assert f + "" == f;
    } else {
      var tail := JoinWith(fields[1..], ",");
      JoinCons(fields, ",");
      ScanPlainField(f, "," + tail, done);
      ScanComma(tail, f, done);
      ScanPlainLine(fields[1..], done + [f]);
      assert done + [f] + fields[1..] == done + fields;
    }
  }

  /** Outside quotes a comma ends a field: joining plain fields with commas and
      splitting the line gives the fields back. */
  lemma PlainRoundTrip(fields: seq<string>)
    requires fields != []
    requires forall i :: 0 <= i < |fields| ==> Plain(fields[i])
    ensures LineFields(JoinWith(fields, ",")) == fields
  {
    ScanPlainLine(fields, []);
  }
}
