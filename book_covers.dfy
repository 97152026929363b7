/** Cover resolution (src/libs/bookCovers.ts): a book keeps its own cover;
    otherwise a title table is consulted; otherwise one of six bundled images
    is chosen by list position. */
module BookCovers {

  import opened Interfaces
  import opened Text

  /** The title table, keyed by lower-cased title. */
  const CoverMap: map<string, string> := map[
    "atomic habits" := "/covers/modern-classics.jpg",
    "deep work" := "/covers/cyber-theory.jpg",
    "design patterns" := "/covers/design-forward.jpg",
    "introduction to algorithms" := "/covers/cyber-theory.jpg",
    "the psychology of money" := "/covers/mindfulness.jpg",
    "zero to one" := "/covers/urban-travel.jpg",
    "sapiens" := "/covers/cafe-tales.jpg"]

  /** The bundled images, used in rotation. */
  const FallbackCovers: seq<string> := [
    "/covers/modern-classics.jpg",
    "/covers/design-forward.jpg",
    "/covers/cafe-tales.jpg",
    "/covers/mindfulness.jpg",
    "/covers/urban-travel.jpg",
    "/covers/cyber-theory.jpg"]

  /** The title table's own entry for a book, if any (an empty title is not
      looked up). */
  function TableCover(title: string): (r: Option<string>)
    ensures r.Some? <==> title != "" && Lower(title) in CoverMap
    ensures r.Some? ==> r.value == CoverMap[Lower(title)]
  {
    var key := Lower(title);
    if key != "" && key in CoverMap then Some(CoverMap[key]) else None
  }

  /** `attachBookCover(book, index)`, reading only the table's own entries. */
  function AttachCover(b: Book, index: nat): (r: Book)
    ensures r == b.(coverPicture := r.coverPicture)
    ensures r.coverPicture != ""
    ensures b.coverPicture != "" ==> r.coverPicture == b.coverPicture
    ensures b.coverPicture == "" && TableCover(b.title).Some? ==> r.coverPicture == TableCover(b.title).value
    ensures b.coverPicture == "" && TableCover(b.title).None? ==> r.coverPicture == FallbackCovers[index % 6]
  {
    var cover :=
      if b.coverPicture != "" then b.coverPicture
      else match TableCover(b.title)
        case Some(c) => c
        case None => FallbackCovers[index % |FallbackCovers|];
    b.(coverPicture := cover)
  }

  /** A book without a cover of its own always gets one of the bundled images. */
  lemma CoverIsBundled(b: Book, index: nat)
    requires b.coverPicture == ""
    ensures AttachCover(b, index).coverPicture in FallbackCovers
  {
    var key := Lower(b.title);
    if key in CoverMap {
      assert CoverMap[key] in CoverMap.Values;
      assert forall v :: v in CoverMap.Values ==> v in FallbackCovers;
    }
  }

  /** Resolving a cover twice, at any positions, is resolving it once. */
  lemma AttachCoverIdempotent(b: Book, i: nat, j: nat)
    ensures AttachCover(AttachCover(b, i), j) == AttachCover(b, i)
  {
  }

  /** The title table ignores letter case. */
  lemma TableIgnoresCase(b: Book, title: string, index: nat)
    requires Lower(title) == Lower(b.title)
    ensures AttachCover(b.(title := title), index).coverPicture == AttachCover(b, index).coverPicture
  {
  }

  /** `attachBookCovers`: every book resolved at its own position. */
  function AttachCovers(books: seq<Book>): (r: seq<Book>)
    ensures |r| == |books|
    ensures forall i :: 0 <= i < |books| ==> r[i] == AttachCover(books[i], i)
  {
    seq(|books|, i requires 0 <= i < |books| => AttachCover(books[i], i))
  }

  /** Two uncovered, untabled books next to each other get different images. */
  lemma NeighboursDiffer(books: seq<Book>, i: nat)
    requires i + 1 < |books|
    requires books[i].coverPicture == "" && TableCover(books[i].title).None?
    requires books[i + 1].coverPicture == "" && TableCover(books[i + 1].title).None?
    ensures AttachCovers(books)[i].coverPicture != AttachCovers(books)[i + 1].coverPicture
  {
    var r := AttachCovers(books);
    assert r[i].coverPicture == FallbackCovers[i % 6];
    assert r[i + 1].coverPicture == FallbackCovers[(i + 1) % 6];
    assert i % 6 != (i + 1) % 6;
  }

  // ------------------------------------------------- the source as written

  /** Every member an object literal inherits from `Object.prototype`. */
  const InheritedMembers: set<string> := {
    "constructor", "__proto__", "hasOwnProperty", "isPrototypeOf",
    "propertyIsEnumerable", "toString", "toLocaleString", "valueOf",
    "__defineGetter__", "__defineSetter__", "__lookupGetter__", "__lookupSetter__"}

  /** What a cover can be in the source: a string, or an inherited member
      (a function or an object) read out of the title table. */
  datatype CoverValue = Path(path: string) | InheritedMember(name: string)

  /** `coverMap[key]` as JavaScript evaluates it: the table's own entry, else an
      inherited member of that name, else `undefined`. */
  function LookupAsWritten(key: string): Option<CoverValue> {
    if key in CoverMap then Some(Path(CoverMap[key]))
    else if key in InheritedMembers then Some(InheritedMember(key))
    else None
  }

  /** The cover the source's `||` chain computes. */
  function CoverAsWritten(b: Book, index: nat): CoverValue {
    var key := Lower(b.title);
    if b.coverPicture != "" then Path(b.coverPicture)
    else match (if key != "" then LookupAsWritten(key) else None)
      case Some(v) => v
      case None => Path(FallbackCovers[index % |FallbackCovers|])
  }

  /** A coverless book titled "Constructor" gets the `Object` constructor
      function as its cover instead of an image path. */
  lemma ConstructorTitleGetsFunction()
    ensures CoverAsWritten(Book("b1", "Constructor", "A", "1", "P", 1, "", None, None), 0)
      == InheritedMember("constructor")
  {
    assert Lower("Constructor") == "constructor";
  }

  /** Only two inherited member names are written in lower case. */
  lemma LowerCaseInherited(key: string)
    requires HasNoUpper(key) && key in InheritedMembers
    ensures key == "constructor" || key == "__proto__"
  {
    assert 'A' <= "hasOwnProperty"[3] <= 'Z';
    assert 'A' <= "isPrototypeOf"[2] <= 'Z';
    assert 'A' <= "propertyIsEnumerable"[8] <= 'Z';
    assert 'A' <= "toString"[2] <= 'Z';
    assert 'A' <= "toLocaleString"[2] <= 'Z';
    assert 'A' <= "valueOf"[5] <= 'Z';
    assert 'A' <= "__defineGetter__"[8] <= 'Z';
    assert 'A' <= "__defineSetter__"[8] <= 'Z';
    assert 'A' <= "__lookupGetter__"[8] <= 'Z';
    assert 'A' <= "__lookupSetter__"[8] <= 'Z';
  }

  /** Outside the two all-lower-case inherited names, the source and
      `AttachCover` agree. */
  lemma AsWrittenAgrees(b: Book, index: nat)
    requires Lower(b.title) != "constructor" && Lower(b.title) != "__proto__"
    ensures CoverAsWritten(b, index) == Path(AttachCover(b, index).coverPicture)
  {
    var key := Lower(b.title);
    LowerIsLower(b.title);
    if key in InheritedMembers {
      LowerCaseInherited(key);
    }
  }
}
