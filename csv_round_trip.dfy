/** A file written in the documented column format is read back by the
    import as exactly the books it was written from. */
module CsvRoundTrip {

  import opened Interfaces
  import opened Text
  import opened Seqs
  import opened CsvLine
  import opened CsvUpload

  /** The column names as the upload panel documents them. */
  const HeaderNames: seq<string> :=
    ["title", "author", "ISBN", "publisher", "availableAmount", "coverPicture"]

  function HeaderLine(): string {
    JoinWith(HeaderNames, ",")
  }

  /** A text field the import reads back unchanged: no surrounding whitespace
      (fields are trimmed), no line feed (lines are split first) and no quote
      at either end (one is stripped from each end). */
  predicate Portable(f: string) {
    IsTrimmed(f) && '\n' !in f && (f == [] || (f[0] != '"' && f[|f| - 1] != '"'))
  }

  predicate Exportable(b: BookData) {
    Complete(b) && b.availableAmount >= 1
    && Portable(b.title) && Portable(b.author) && Portable(b.isbn)
    && Portable(b.publisher) && Portable(b.coverPicture)
  }

  function RowFields(b: BookData): seq<string>
    requires Exportable(b)
  {
    [b.title, b.author, b.isbn, b.publisher, DecimalString(b.availableAmount), b.coverPicture]
  }

  /** A data row with every field quoted. */
  function RowLine(b: BookData): string
    requires Exportable(b)
  {
    QuotedLine(RowFields(b))
  }

  function Rows(books: seq<BookData>): (r: seq<string>)
    requires forall i :: 0 <= i < |books| ==> Exportable(books[i])
    ensures |r| == |books|
  {
    if books == [] then [] else [RowLine(books[0])] + Rows(books[1..])
  }

  /** The header line, then one row per book. */
  function Export(books: seq<BookData>): string
    requires forall i :: 0 <= i < |books| ==> Exportable(books[i])
  {
    JoinWith([HeaderLine()] + Rows(books), "\n")
  }

  // ---------------------------------------------------------- the header

  lemma NormalizeLowers(h: string)
    requires forall i :: 0 <= i < |h| ==> !IsSpace(h[i]) && h[i] != '"'
    ensures NormalizeHeader(h) == Lower(h)
  {
    NormalizeFixes(Lower(h));
    assert Lower(Lower(h)) == Lower(h) by {
      LowerIsLower(h);
    }
    assert IsNormal(Lower(h));
  }

  lemma HeaderLineFields()
    ensures LineFields(HeaderLine()) == HeaderNames
  {
    forall i | 0 <= i < |HeaderNames|
      ensures Plain(HeaderNames[i])
    {
    }
    PlainRoundTrip(HeaderNames);
  }

  /** ASCII letters only. */
  predicate Letters(h: string) {
    forall i :: 0 <= i < |h| ==> 'a' <= h[i] <= 'z' || 'A' <= h[i] <= 'Z'
  }

  lemma LettersArePlain(h: string)
    requires Letters(h)
    ensures forall i :: 0 <= i < |h| ==> !IsSpace(h[i]) && h[i] != '"' && h[i] != ','
  {
  }

  lemma LoweredNames(k: int)
    requires 0 <= k < 6
    ensures Lower(HeaderNames[k]) == ExpectedColumns[k]
  {
  }

  lemma NamesAreLetters(k: int)
    requires 0 <= k < 6
    ensures Letters(HeaderNames[k])
  {
  }

  lemma HeaderLineHeaders()
    ensures Headers(HeaderLine()) == ExpectedColumns
  {
    HeaderLineFields();
    var hs := Headers(HeaderLine());
    forall k | 0 <= k < 6
      ensures hs[k] == ExpectedColumns[k]
    {
      LoweredNames(k);
      NamesAreLetters(k);
      LettersArePlain(HeaderNames[k]);
      NormalizeLowers(HeaderNames[k]);
    }
  }

  lemma NothingMissing()
    ensures MissingColumns(ExpectedColumns) == []
  {
    var missing := MissingColumns(ExpectedColumns);
    if missing != [] {
      MissingColumnsSpec(ExpectedColumns, missing[0]);
    }
  }

  // ------------------------------------------------------------- the rows

  lemma CellAt(headers: seq<string>, values: seq<string>, i: int)
    requires |headers| == |values| && 0 <= i < |headers|
    requires forall j | 0 <= j < |headers| && j != i :: headers[j] != headers[i]
    ensures Cell(headers, values, headers[i]) == values[i]
  {
    CellSpec(headers, values, headers[i]);
  }

  lemma EscapeKeepsOut(f: string, c: char)
    requires c != '"' && c !in f
    ensures c !in Escape(f)
  {
  }

  lemma {:induction false} QuotedLineKeepsOut(fields: seq<string>, c: char)
    requires fields != []
    requires c != '"' && c != ','
    requires forall i :: 0 <= i < |fields| ==> c !in fields[i]
    ensures c !in QuotedLine(fields)
  {
    EscapeKeepsOut(fields[0], c);
    if |fields| > 1 {
      QuotedLineKeepsOut(fields[1..], c);
    }
  }

  lemma DigitsPortable(n: nat)
    ensures Portable(DecimalString(n))
  {
    var s := DecimalString(n);
    assert IsDigit(s[0]) && IsDigit(s[|s| - 1]);
  }

  lemma RowFieldsPortable(b: BookData)
    requires Exportable(b)
    ensures forall i :: 0 <= i < |RowFields(b)| ==> Portable(RowFields(b)[i])
  {
    DigitsPortable(b.availableAmount);
  }

  /** One exported row is read back as its book. */
  lemma RowRoundTrip(b: BookData)
    requires Exportable(b)
    ensures RowBook(ExpectedColumns, RowLine(b)) == Some(b)
  {
    var fields := RowFields(b);
    RowFieldsPortable(b);
    QuotedRoundTrip(fields);
    var values := RowValues(RowLine(b));
    forall i | 0 <= i < 6
      ensures values[i] == fields[i]
    {
      StripQuotesKeeps(fields[i]);
    }
    assert values == fields;
    CellAt(ExpectedColumns, values, 0);
    CellAt(ExpectedColumns, values, 1);
    CellAt(ExpectedColumns, values, 2);
    CellAt(ExpectedColumns, values, 3);
    CellAt(ExpectedColumns, values, 4);
    CellAt(ExpectedColumns, values, 5);
    AmountDecimal(b.availableAmount);
    assert BookOf(ExpectedColumns, values) == b;
  }

  lemma {:induction false} RowsRoundTrip(books: seq<BookData>)
    requires forall i :: 0 <= i < |books| ==> Exportable(books[i])
    ensures RowBooks(ExpectedColumns, Rows(books)) == books
  {
    if books != [] {
      var rows := Rows(books);
      assert rows[0] == RowLine(books[0]);
      assert rows[1..] == Rows(books[1..]);
      RowBooksCons(ExpectedColumns, rows);
      RowRoundTrip(books[0]);
      RowsRoundTrip(books[1..]);
      assert [books[0]] + books[1..] == books;
    }
  }

  lemma {:induction false} RowsKeepOut(books: seq<BookData>)
    requires forall i :: 0 <= i < |books| ==> Exportable(books[i])
    ensures forall i :: 0 <= i < |books| ==> '\n' !in Rows(books)[i] && Rows(books)[i] != [] && Rows(books)[i][0] == '"'
  {
    if books != [] {
      RowFieldsPortable(books[0]);
      QuotedLineKeepsOut(RowFields(books[0]), '\n');
      RowsKeepOut(books[1..]);
      var rows := Rows(books);
      assert rows[1..] == Rows(books[1..]);
    }
  }

  // ---------------------------------------------------------- the file

  lemma HeaderLineKeepsOut()
    ensures '\n' !in HeaderLine() && HeaderLine()[0] == 't'
  {
    forall k | 0 <= k < |HeaderNames| ensures '\n' !in HeaderNames[k] { }
    JoinKeepsOut(HeaderNames, ",", '\n');
  }

  /** Joining non-blank lines without line feeds and reading the result
      back line by line gives the same lines. */
  lemma LinesOfJoin(parts: seq<string>)
    requires parts != []
    requires forall i :: 0 <= i < |parts| ==> '\n' !in parts[i] && NonBlank(parts[i])
    ensures Lines(JoinWith(parts, "\n")) == parts
  {
    SplitJoin(parts, '\n');
    FilterKeepsAll(parts, NonBlank);
  }

  lemma ExportParts(header: string, books: seq<BookData>)
    requires '\n' !in header && header != [] && !IsSpace(header[0])
    requires forall i :: 0 <= i < |books| ==> Exportable(books[i])
    ensures forall i :: 0 <= i < |[header] + Rows(books)| ==>
      '\n' !in ([header] + Rows(books))[i] && NonBlank(([header] + Rows(books))[i])
  {
    var parts := [header] + Rows(books);
    RowsKeepOut(books);
    forall i | 0 <= i < |parts|
      ensures '\n' !in parts[i] && NonBlank(parts[i])
    {
      TrimEmptyIffBlank(parts[i]);
      if i > 0 {
        assert parts[i] == Rows(books)[i - 1];
      }
      assert !IsSpace(parts[i][0]);
    }
  }

  lemma {:induction false} JoinKeepsOut(parts: seq<string>, sep: string, c: char)
    requires c !in sep
    requires forall i :: 0 <= i < |parts| ==> c !in parts[i]
    ensures c !in JoinWith(parts, sep)
  {
    if |parts| > 1 {
      JoinKeepsOut(parts[1..], sep, c);
    }
  }

  lemma CsvBooksOfLines(text: string, header: string, rows: seq<string>)
    requires rows != []
    requires Lines(text) == [header] + rows
    requires Headers(header) == ExpectedColumns
    ensures CsvBooks(text) == Ok(RowBooks(ExpectedColumns, rows))
  {
    NothingMissing();
    CsvBooksSpec(text);
    assert ([header] + rows)[1..] == rows;
  }

  /** Exporting at least one book in the documented format and importing the
      file gives back the same books in the same order. */
  lemma ImportExport(books: seq<BookData>)
    requires books != []
    requires forall i :: 0 <= i < |books| ==> Exportable(books[i])
    ensures CsvBooks(Export(books)) == Ok(books)
  {
    var header := HeaderLine();
    HeaderLineKeepsOut();
    HeaderLineHeaders();
    ExportParts(header, books);
    LinesOfJoin([header] + Rows(books));
    CsvBooksOfLines(Export(books), header, Rows(books));
    RowsRoundTrip(books);
  }

  /** A file holding only the header line is rejected as too short. */
  lemma ExportNothing()
    ensures CsvBooks(Export([])) == Err(TooFewLines)
  {
    var header := HeaderLine();
    HeaderLineKeepsOut();
    ExportParts(header, []);
    assert [header] + Rows([]) == [header];
    LinesOfJoin([header]);
    CsvBooksSpec(Export([]));
  }
}
