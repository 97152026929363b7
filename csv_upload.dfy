/** The CSV book import of src/component/CSVBookUpload.tsx: reading a file
    into staged books, editing and deleting staged rows, and sending them all
    to the create endpoint. */
module CsvUpload {

  import opened Interfaces
  import opened Text
  import opened Seqs
  import opened CsvLine
  import opened Endpoints

  const TooFewLines: string := "CSV file must have at least a header and one data row"
  const MissingPrefix: string := "Missing required columns: "
  const NoValidBooks: string := "No valid books found in CSV file"
  const NotCsv: string := "Please upload a CSV file"
  const ReadFailed: string := "Error reading file"

  /** The normalised names of the six columns a file must have. */
  const ExpectedColumns: seq<string> :=
    ["title", "author", "isbn", "publisher", "availableamount", "coverpicture"]

  // ------------------------------------------------------------- lines

  predicate NonBlank(line: string) {
    Trim(line) != ""
  }

  /** The file split at line feeds, blank lines dropped. A carriage return
      stays at the end of its line (and is trimmed off the last field). */
  function Lines(text: string): (r: seq<string>)
    ensures forall i :: 0 <= i < |r| ==> NonBlank(r[i])
  {
    FilterSpec(SplitOn(text, '\n'), NonBlank);
    Filter(SplitOn(text, '\n'), NonBlank)
  }

  // ----------------------------------------------------------- headers

  function DropSpaces(s: string): (r: string)
    ensures forall i :: 0 <= i < |r| ==> !IsSpace(r[i])
    ensures forall i :: 0 <= i < |r| ==> r[i] in s
  {
    FilterSpec(s, c => !IsSpace(c));
    Filter(s, c => !IsSpace(c))
  }

  function DropQuotes(s: string): (r: string)
    ensures forall i :: 0 <= i < |r| ==> r[i] != '"'
    ensures forall i :: 0 <= i < |r| ==> r[i] in s
  {
    FilterSpec(s, c => c != '"');
    Filter(s, c => c != '"')
  }

  /** A header cell lower-cased with every whitespace and quote character
      removed, so that `Available Amount` names the `availableamount` column. */
  function NormalizeHeader(h: string): (r: string)
    ensures HasNoUpper(r)
    ensures forall i :: 0 <= i < |r| ==> !IsSpace(r[i]) && r[i] != '"'
  {
    var lowered := Lower(h);
    LowerIsLower(h);
    var r := DropQuotes(DropSpaces(lowered));
    assert forall i :: 0 <= i < |r| ==> r[i] in lowered;
    r
  }

  /** A name that normalisation leaves alone. */
  predicate IsNormal(h: string) {
    HasNoUpper(h) && forall i :: 0 <= i < |h| ==> !IsSpace(h[i]) && h[i] != '"'
  }

  lemma NormalizeFixes(h: string)
    requires IsNormal(h)
    ensures NormalizeHeader(h) == h
  {
    assert Lower(h) == h;
    FilterKeepsAll(h, c => !IsSpace(c));
    FilterKeepsAll(h, c => c != '"');
  }

  /** Normalising twice is normalising once. */
  lemma NormalizeIdempotent(h: string)
    ensures NormalizeHeader(NormalizeHeader(h)) == NormalizeHeader(h)
  {
    NormalizeFixes(NormalizeHeader(h));
  }

  function Headers(line: string): (r: seq<string>)
    ensures |r| == |LineFields(line)|
    ensures forall i :: 0 <= i < |r| ==> IsNormal(r[i])
  {
    var cells := LineFields(line);
    seq(|cells|, i requires 0 <= i < |cells| => NormalizeHeader(cells[i]))
  }

  /** The expected columns absent from the header, in the expected order. */
  function MissingColumns(headers: seq<string>): seq<string>
  {
    Filter(ExpectedColumns, col => col !in headers)
  }

  /** The missing columns keep the expected order. */
  lemma MissingColumnsOrdered(headers: seq<string>)
    ensures IsSubsequence(MissingColumns(headers), ExpectedColumns)
  {
    FilterIsSubsequence(ExpectedColumns, col => col !in headers);
  }

  /** A column is reported missing exactly when it is expected and absent. */
  lemma MissingColumnsSpec(headers: seq<string>, col: string)
    ensures col in MissingColumns(headers) <==> col in ExpectedColumns && col !in headers
  {
    FilterMember(ExpectedColumns, c => c !in headers, col);
  }

  // -------------------------------------------------------------- rows

  /** `v.replace(/^"|"$/g, "")`: one quote removed from each end, if present. */
  function StripQuotes(v: string): (r: string)
  {
    var w := if v != [] && v[0] == '"' then v[1..] else v;
    if w != [] && w[|w| - 1] == '"' then w[..|w| - 1] else w
  }

  lemma StripQuotesKeeps(v: string)
    requires v == [] || (v[0] != '"' && v[|v| - 1] != '"')
    ensures StripQuotes(v) == v
  {
  }

  lemma StripQuotesUnwraps(m: string)
    ensures StripQuotes("\"" + m + "\"") == m
  {
    var v := "\"" + m + "\"";
    assert v[1..] == m + "\"";
    assert (m + "\"")[..|m|] == m;
  }

  function RowValues(line: string): (r: seq<string>)
    ensures |r| == |LineFields(line)|
  {
    var cells := LineFields(line);
    seq(|cells|, i requires 0 <= i < |cells| => StripQuotes(cells[i]))
  }

  /** `book[name]` after `book[headers[i]] = values[i]` for every column in
      turn. */
  function Cell(headers: seq<string>, values: seq<string>, name: string): string
    requires |headers| == |values|
  {
    if headers == [] then ""
    else if headers[|headers| - 1] == name then values[|values| - 1]
    else Cell(headers[..|headers| - 1], values[..|values| - 1], name)
  }

  /** The value under the last column of that name, or `""` if there is none. */
  lemma {:induction false} CellSpec(headers: seq<string>, values: seq<string>, name: string)
    requires |headers| == |values|
    ensures name !in headers ==> Cell(headers, values, name) == ""
    ensures name in headers ==>
      exists i | 0 <= i < |headers| :: headers[i] == name && Cell(headers, values, name) == values[i]
        && forall j | i < j < |headers| :: headers[j] != name
  {
    if headers != [] {
      var n := |headers| - 1;
      var front, rear := headers[..n], values[..n];
      assert headers == front + [headers[n]];
      if headers[n] == name {
        assert headers[n] == name && Cell(headers, values, name) == values[n];
      } else {
        CellSpec(front, rear, name);
        assert Cell(headers, values, name) == Cell(front, rear, name);
        if name in front {
          var i :| 0 <= i < |front| && front[i] == name && Cell(front, rear, name) == rear[i]
            && forall j | i < j < |front| :: front[j] != name;
          assert headers[i] == name && Cell(headers, values, name) == values[i];
          forall j | i < j < |headers|
            ensures headers[j] != name
          {
            if j < n {
              assert headers[j] == front[j];
            }
          }
        }
      }
    }
  }

  /** `parseInt(cell || "1", 10) || 1`: an absent, unreadable or zero amount
      becomes 1. */
  function Amount(cell: string): int
  {
    match ParseInt(if cell == "" then "1" else cell)
    case None => 1
    case Some(n) => if n == 0 then 1 else n
  }

  lemma AmountSpec(cell: string)
    ensures Amount(cell) != 0
    ensures cell == "" ==> Amount(cell) == 1
    ensures cell != "" && ParseInt(cell) == None ==> Amount(cell) == 1
    ensures ParseInt(cell).Some? && ParseInt(cell).value != 0 ==> Amount(cell) == ParseInt(cell).value
  {
    assert DecimalString(1) == "1";
    ParseIntDecimal(1);
  }

  /** Printing a positive amount and reading it back gives the amount. */
  lemma AmountDecimal(n: nat)
    requires n >= 1
    ensures Amount(DecimalString(n)) == n
  {
    ParseIntDecimal(n);
  }

  /** A staged book needs every text field. */
  predicate Complete(b: BookData) {
    b.title != "" && b.author != "" && b.isbn != "" && b.publisher != "" && b.coverPicture != ""
  }

  function BookOf(headers: seq<string>, values: seq<string>): BookData
    requires |headers| == |values|
  {
    BookData(
      Cell(headers, values, "title"),
      Cell(headers, values, "author"),
      Cell(headers, values, "isbn"),
      Cell(headers, values, "publisher"),
      Amount(Cell(headers, values, "availableamount")),
      Cell(headers, values, "coverpicture"))
  }

  /** The book one data row yields: none for a row with the wrong number of
      fields or a missing text field. */
  function RowBook(headers: seq<string>, line: string): (r: Option<BookData>)
    ensures r.Some? ==> Complete(r.value) && r.value.availableAmount != 0
    ensures |LineFields(line)| != |headers| ==> r == None
  {
    var values := RowValues(line);
    if |values| != |headers| then None
    else
      var b := BookOf(headers, values);
      AmountSpec(Cell(headers, values, "availableamount"));
      if Complete(b) then Some(b) else None
  }

  /** What one row adds to the staged list: its book, or nothing. */
  function Staged(book: Option<BookData>): (r: seq<BookData>)
    ensures |r| <= 1
    ensures book.Some? ==> r == [book.value]
    ensures book.None? ==> r == []
  {
    match book
    case Some(b) => [b]
    case None => []
  }

  /** The data-row loop for any row reader: every row read on its own, the
      books it yields kept in row order. */
  function Collect(rows: seq<string>, read: string -> Option<BookData>): (r: seq<BookData>)
    ensures |r| <= |rows|
  {
    if rows == [] then [] else Staged(read(rows[0])) + Collect(rows[1..], read)
  }

  /** Rows are read independently and in order. */
  lemma {:induction false} CollectAppend(a: seq<string>, b: seq<string>, read: string -> Option<BookData>)
    ensures Collect(a + b, read) == Collect(a, read) + Collect(b, read)
  {
    if a == [] {
      assert a + b == b;
    } else {
      assert (a + b)[0] == a[0];
      assert (a + b)[1..] == a[1..] + b;
      CollectAppend(a[1..], b, read);
    }
  }

  /** A book is kept exactly when some row yields it. */
  lemma {:induction false} CollectSpec(rows: seq<string>, read: string -> Option<BookData>)
    ensures forall b :: b in Collect(rows, read) <==> exists i | 0 <= i < |rows| :: read(rows[i]) == Some(b)
  {
    if rows != [] {
      CollectSpec(rows[1..], read);
      forall b | (exists i | 0 <= i < |rows| :: read(rows[i]) == Some(b))
        ensures b in Collect(rows, read)
      {
        var i :| 0 <= i < |rows| && read(rows[i]) == Some(b);
        if i > 0 {
          assert rows[1..][i - 1] == rows[i];
        }
      }
      forall b | b in Collect(rows, read)
        ensures exists i | 0 <= i < |rows| :: read(rows[i]) == Some(b)
      {
        if read(rows[0]) != Some(b) {
          assert b in Collect(rows[1..], read);
          var j :| 0 <= j < |rows[1..]| && read(rows[1..][j]) == Some(b);
          assert rows[j + 1] == rows[1..][j];
        }
      }
    }
  }

  /** The books of the data rows under the given header row. */
  function RowBooks(headers: seq<string>, rows: seq<string>): (r: seq<BookData>)
    ensures |r| <= |rows|
  {
    Collect(rows, line => RowBook(headers, line))
  }

  /** A book is staged exactly when some row yields it. */
  lemma RowBooksSpec(headers: seq<string>, rows: seq<string>)
    ensures forall b :: b in RowBooks(headers, rows) <==> exists i | 0 <= i < |rows| :: RowBook(headers, rows[i]) == Some(b)
  {
    CollectSpec(rows, line => RowBook(headers, line));
  }

  /** Every staged book has all its text fields. */
  lemma RowBooksComplete(headers: seq<string>, rows: seq<string>)
    ensures forall i :: 0 <= i < |RowBooks(headers, rows)| ==> Complete(RowBooks(headers, rows)[i])
  {
    var r := RowBooks(headers, rows);
    RowBooksSpec(headers, rows);
    forall i | 0 <= i < |r|
      ensures Complete(r[i])
    {
      assert r[i] in r;
      var k :| 0 <= k < |rows| && RowBook(headers, rows[k]) == Some(r[i]);
    }
  }

  /** The first data row's book, if any, comes first. */
  lemma RowBooksCons(headers: seq<string>, rows: seq<string>)
    requires rows != []
    ensures RowBooks(headers, rows) == Staged(RowBook(headers, rows[0])) + RowBooks(headers, rows[1..])
  {
  }

  lemma RowBooksSnoc(headers: seq<string>, rows: seq<string>, line: string)
    ensures RowBooks(headers, rows + [line]) ==
      RowBooks(headers, rows) + Staged(RowBook(headers, line))
  {
    CollectAppend(rows, [line], line => RowBook(headers, line));
    assert [line][1..] == [];
  }

  // -------------------------------------------------------- whole file

  /** What `parseCSV` returns or throws for a file's text. */
  function CsvBooks(text: string): Result<seq<BookData>>
  {
    BooksOfLines(Lines(text))
  }

  /** The same, from the file's non-blank lines. */
  function BooksOfLines(lines: seq<string>): Result<seq<BookData>>
  {
    if |lines| < 2 then Err(TooFewLines)
    else
      var missing := MissingColumns(Headers(lines[0]));
      if missing != [] then Err(MissingPrefix + JoinWith(missing, ", "))
      else Ok(RowBooks(Headers(lines[0]), lines[1..]))
  }

  /** The two errors and when each is thrown; otherwise the staged books are
      complete and come from the data rows. */
  lemma CsvBooksSpec(text: string)
    ensures |Lines(text)| < 2 ==> CsvBooks(text) == Err(TooFewLines)
    ensures |Lines(text)| >= 2 ==>
      (CsvBooks(text).Err? <==> MissingColumns(Headers(Lines(text)[0])) != [])
    ensures CsvBooks(text).Err? && |Lines(text)| >= 2 ==>
      CsvBooks(text).message == MissingPrefix + JoinWith(MissingColumns(Headers(Lines(text)[0])), ", ")
    ensures CsvBooks(text).Ok? ==>
      CsvBooks(text).value == RowBooks(Headers(Lines(text)[0]), Lines(text)[1..])
      && forall i :: 0 <= i < |CsvBooks(text).value| ==> Complete(CsvBooks(text).value[i])
  {
    var lines := Lines(text);
    assert CsvBooks(text) == BooksOfLines(lines);
    if |lines| >= 2 {
      RowBooksComplete(Headers(lines[0]), lines[1..]);
    }
  }


  /** One pass of `parseCSV`'s row loop: the book a data row yields, if any. */
  method ParseRow(headers: seq<string>, line: string) returns (book: Option<BookData>)
    ensures book == RowBook(headers, line)
  {
    var fields := ParseLine(line);
    var values := seq(|fields|, k requires 0 <= k < |fields| => StripQuotes(fields[k]));
    assert values == RowValues(line);
    if |values| != |headers| {
      return None;
    }
    var b := BookOf(headers, values);
    if b.title != "" && b.author != "" && b.isbn != "" && b.publisher != "" && b.coverPicture != "" {
      book := Some(b);
    } else {
      book := None;
    }
  }

  /** The header row of `parseCSV`: split, then every name normalised. */
  method ReadHeaders(line: string) returns (headers: seq<string>)
    ensures headers == Headers(line)
  {
    var cells := ParseLine(line);
    headers := seq(|cells|, i requires 0 <= i < |cells| => NormalizeHeader(cells[i]));
  }

  /** The data-row loop of `parseCSV`: every line after the header, in order. */
  method ParseRows(headers: seq<string>, lines: seq<string>) returns (parsed: seq<BookData>)
    requires |lines| >= 1
    ensures parsed == RowBooks(headers, lines[1..])
  {
    parsed := [];
    var i := 1;
    while i < |lines|
      invariant 1 <= i <= |lines|
      invariant parsed == RowBooks(headers, lines[1..i])
    {
      var book := ParseRow(headers, lines[i]);
      RowBooksSnoc(headers, lines[1..i], lines[i]);
      SliceSnoc(lines, 1, i);
      if book.Some? {
        parsed := parsed + [book.value];
      }
      i := i + 1;
    }
    SliceToEnd(lines, 1);
  }

  /** The component's `parseCSV`. */
  method ParseCsv(text: string) returns (r: Result<seq<BookData>>)
    ensures r == CsvBooks(text)
  {
    var lines := Lines(text);
    assert CsvBooks(text) == BooksOfLines(lines);
    if |lines| < 2 {
      return Err(TooFewLines);
    }
    var headers := ReadHeaders(lines[0]);
    var missing := MissingColumns(headers);
    if |missing| > 0 {
      return Err(MissingPrefix + JoinWith(missing, ", "));
    }
    var parsed := ParseRows(headers, lines);
    return Ok(parsed);
  }

  // ------------------------------------------------------------ staging

  /** One edit made in the review table. */
  datatype FieldEdit =
    | SetTitle(text: string)
    | SetAuthor(text: string)
    | SetIsbn(text: string)
    | SetPublisher(text: string)
    | SetAmount(typed: string)
    | SetCover(text: string)

  /** The amount box: `parseInt(value, 10) || 0`. */
  function TypedAmount(typed: string): (n: int)
    ensures ParseInt(typed) == None ==> n == 0
    ensures ParseInt(typed).Some? ==> n == ParseInt(typed).value
  {
    match ParseInt(typed) case None => 0 case Some(k) => k
  }

  /** The staged book with the edited field replaced and every other field kept. */
  function Edited(b: BookData, e: FieldEdit): (r: BookData)
    ensures r.title == (if e.SetTitle? then e.text else b.title)
    ensures r.author == (if e.SetAuthor? then e.text else b.author)
    ensures r.isbn == (if e.SetIsbn? then e.text else b.isbn)
    ensures r.publisher == (if e.SetPublisher? then e.text else b.publisher)
    ensures r.availableAmount == (if e.SetAmount? then TypedAmount(e.typed) else b.availableAmount)
    ensures r.coverPicture == (if e.SetCover? then e.text else b.coverPicture)
  {
    match e
    case SetTitle(t) => b.(title := t)
    case SetAuthor(t) => b.(author := t)
    case SetIsbn(t) => b.(isbn := t)
    case SetPublisher(t) => b.(publisher := t)
    case SetAmount(typed) => b.(availableAmount := TypedAmount(typed))
    case SetCover(t) => b.(coverPicture := t)
  }

  /** The number of requests that succeeded. */
  function Successes(outcomes: seq<Outcome>): nat {
    |Filter(outcomes, (o: Outcome) => o.Succeeded?)|
  }

  /** The loop of `handleAddAll`: one create request per staged book, in
      order, counting how many succeeded and how many failed. The outcome of
      each request is supplied by the caller. */
  method SendAll(books: seq<BookData>, outcomes: seq<Outcome>)
    returns (sent: seq<Request>, successCount: nat, errorCount: nat)
    requires |outcomes| == |books|
    ensures |sent| == |books|
    ensures forall i :: 0 <= i < |books| ==> sent[i] == CreateBook(books[i])
    ensures successCount == Successes(outcomes)
    ensures successCount + errorCount == |books|
  {
    sent := [];
    successCount := 0;
    errorCount := 0;
    var i := 0;
    while i < |books|
      invariant 0 <= i <= |books|
      invariant |sent| == i
      invariant forall k :: 0 <= k < i ==> sent[k] == CreateBook(books[k])
      invariant successCount == |Filter(outcomes[..i], (o: Outcome) => o.Succeeded?)|
      invariant successCount + errorCount == i
    {
      sent := sent + [CreateBook(books[i])];
      FilterPrefix(outcomes, i, (o: Outcome) => o.Succeeded?);
      if outcomes[i].Succeeded? {
        successCount := successCount + 1;
      } else {
        errorCount := errorCount + 1;
      }
      i := i + 1;
    }
    assert outcomes[..i] == outcomes;
  }

  /** The CSV upload panel: the staged books under review and the error shown
      above them. The file input and the toasts are not modelled. */
  class Staging {
    var books: seq<BookData>
    var error: Option<string>

    constructor()
      ensures books == [] && error == None
    {
      books := [];
      error := None;
    }

    /** Choosing a file: only a name ending in `.csv` is read; `startsReading`
        says whether the file reader is started. */
    method ChooseFile(fileName: string) returns (startsReading: bool)
      modifies this`error
      ensures startsReading <==> EndsWith(fileName, ".csv")
      ensures !startsReading ==> error == Some(NotCsv)
      ensures startsReading ==> error == old(error)
    {
      startsReading := EndsWith(fileName, ".csv");
      if !startsReading {
        error := Some(NotCsv);
      }
    }

    /** The reader's error callback. */
    method ReadFailure()
      modifies this`error
      ensures error == Some(ReadFailed)
    {
      error := Some(ReadFailed);
    }

    /** The reader's load callback with the file's text: the parse error, or
        the complaint that no row was usable, or the parsed books staged. */
    method Loaded(text: string)
      modifies this
      ensures CsvBooks(text).Err? ==> books == old(books) && error == Some(CsvBooks(text).message)
      ensures CsvBooks(text).Ok? && CsvBooks(text).value == [] ==> books == old(books) && error == Some(NoValidBooks)
      ensures CsvBooks(text).Ok? && CsvBooks(text).value != [] ==> books == CsvBooks(text).value && error == None
    {
      var parsed := ParseCsv(text);
      match parsed
      case Err(m) =>
        error := Some(m);
      case Ok(bs) =>
        if |bs| == 0 {
          error := Some(NoValidBooks);
        } else {
          books := bs;
          error := None;
        }
    }

    /** An edit in the row at `index`; the table only offers existing rows. */
    method ChangeBook(index: nat, edit: FieldEdit)
      requires index < |books|
      modifies this`books
      ensures books == old(books)[index := Edited(old(books)[index], edit)]
    {
      books := books[index := Edited(books[index], edit)];
    }

    /** Removing the row at `index`; an index past the end removes nothing. */
    method DeleteBook(index: int)
      modifies this`books
      ensures 0 <= index < |old(books)| ==> |books| == |old(books)| - 1
      ensures !(0 <= index < |old(books)|) ==> books == old(books)
      ensures forall i :: 0 <= i < |books| && i < index ==> books[i] == old(books)[i]
      ensures forall i :: 0 <= i < |books| && 0 <= index <= i ==> books[i] == old(books)[i + 1]
    {
      if 0 <= index < |books| {
        books := books[..index] + books[index + 1..];
      }
    }

    /** "Add all": nothing is sent when no book is staged; otherwise every
        staged book is sent, the counts are reported and the staging is emptied
        whatever the outcomes. */
    method AddAll(outcomes: seq<Outcome>) returns (sent: seq<Request>, successCount: nat, errorCount: nat)
      requires |outcomes| == |books|
      modifies this`books
      ensures old(books) == [] ==> sent == [] && successCount == 0 && errorCount == 0 && books == []
      ensures |sent| == |old(books)|
      ensures forall i :: 0 <= i < |sent| ==> sent[i] == CreateBook(old(books)[i])
      ensures successCount == Successes(outcomes)
      ensures successCount + errorCount == |old(books)|
      ensures books == []
    {
      if |books| == 0 {
        return [], 0, 0;
      }
      sent, successCount, errorCount := SendAll(books, outcomes);
      books := [];
    }

    method Clear()
      modifies this
      ensures books == [] && error == None
    {
      books := [];
      error := None;
    }
  }
}
