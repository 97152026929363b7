/** The two reservation pages (src/app/member/reservations/page.tsx and
    src/app/admin/reservations/page.tsx): who may see them, where everyone
    else is sent, and how the fetched lists are prepared. Fetching is not
    modelled: the lists the backend returned are parameters. */
module ReservationPages {

  import opened Interfaces
  import opened Text
  import opened BookCovers

  /** A server page either redirects or renders a view. */
  datatype Page<T> = Redirect(url: string) | Render(view: T)

  const MemberLogin: string := "/login?callbackUrl=/member/reservations"
  const AdminLogin: string := "/login?callbackUrl=/admin/reservations"
  const MemberHome: string := "/member/reservations"
  const AdminHome: string := "/admin/reservations"

  /** `session?.user?.token`, `""` when any part is missing. */
  function TokenOf(session: Option<Session>): string {
    if session.Some? && session.value.user.Some? then session.value.user.value.token else ""
  }

  function RoleText(session: Option<Session>): string {
    if session.Some? && session.value.user.Some? then session.value.user.value.role else ""
  }

  /** Every reservation with its book's cover resolved at the reservation's
      position; a reservation whose book is gone keeps no book. */
  function WithCovers(rs: seq<Reservation>): (r: seq<Reservation>)
    ensures |r| == |rs|
    ensures forall i :: 0 <= i < |rs| ==> r[i] == rs[i].(book := r[i].book)
    ensures forall i :: 0 <= i < |rs| ==> (r[i].book.None? <==> rs[i].book.None?)
    ensures forall i :: 0 <= i < |rs| && rs[i].book.Some? ==> r[i].book == Some(AttachCover(rs[i].book.value, i))
  {
    seq(|rs|, i requires 0 <= i < |rs| =>
      rs[i].(book := match rs[i].book case Some(b) => Some(AttachCover(b, i)) case None => None))
  }

  /** After preparation every present book has a cover. */
  lemma CoversEverywhere(rs: seq<Reservation>, i: int)
    requires 0 <= i < |rs| && rs[i].book.Some?
    ensures WithCovers(rs)[i].book.value.coverPicture != ""
  {
  }

  /** Preparing an already prepared list changes nothing. */
  lemma WithCoversIdempotent(rs: seq<Reservation>)
    ensures WithCovers(WithCovers(rs)) == WithCovers(rs)
  {
    var once := WithCovers(rs);
    forall i | 0 <= i < |rs|
      ensures WithCovers(once)[i] == once[i]
    {
      if rs[i].book.Some? {
        AttachCoverIdempotent(rs[i].book.value, i, i);
      }
    }
  }

  // ------------------------------------------------------------- member

  /** The heading of the member's list: the number of reservations out of
      the limit of three. */
  function MemberTitle(count: nat): string {
    "My reservations (" + DecimalString(count) + "/3)"
  }

  /** The count can be read back from the heading. */
  lemma MemberTitleCount(count: nat)
    ensures |MemberTitle(count)| > 17
    ensures MemberTitle(count)[..17] == "My reservations ("
    ensures ParseInt(MemberTitle(count)[17..]) == Some(count)
  {
    var t := MemberTitle(count);
    assert t[17..] == DecimalString(count) + "/3)";
    ParseIntPrefix(count, "/3)");
  }

  datatype MemberView = MemberView(books: seq<Book>, reservations: seq<Reservation>, title: string)

  /** The member page: sign-in first, then members only; the book list and
      the reservation list get their covers. */
  function MemberPage(session: Option<Session>, reservations: seq<Reservation>, books: seq<Book>): (p: Page<MemberView>)
    ensures TokenOf(session) == "" ==> p == Redirect(MemberLogin)
    ensures TokenOf(session) != "" && RoleText(session) != "member" ==> p == Redirect(AdminHome)
    ensures p.Render? <==> TokenOf(session) != "" && RoleText(session) == "member"
    ensures p.Render? ==>
      (p.view.books == AttachCovers(books)
       && p.view.reservations == WithCovers(reservations)
       && p.view.title == MemberTitle(|reservations|))
  {
    if TokenOf(session) == "" then Redirect(MemberLogin)
    else if RoleText(session) != "member" then Redirect(AdminHome)
    else Render(MemberView(AttachCovers(books), WithCovers(reservations), MemberTitle(|reservations|)))
  }

  /** The member page's reservation mapping as written: it resolves the cover
      of every reservation's book without checking that there is one, so a
      reservation whose book was deleted makes the page throw. */
  function MemberReservationsAsWritten(rs: seq<Reservation>): (r: Result<seq<Reservation>>)
    ensures r.Ok? <==> forall i :: 0 <= i < |rs| ==> rs[i].book.Some?
  {
    if exists i | 0 <= i < |rs| :: rs[i].book.None? then Err("TypeError: book is null")
    else Ok(WithCovers(rs))
  }

  /** One reservation of a deleted book is enough to break the page. */
  lemma DeletedBookBreaksMemberPage(r: Reservation)
    requires r.book.None?
    ensures MemberReservationsAsWritten([r]).Err?
  {
    assert [r][0].book.None?;
  }

  /** Whenever the source's mapping succeeds it agrees with `WithCovers`. */
  lemma AsWrittenAgreesWhenBooksPresent(rs: seq<Reservation>)
    requires forall i :: 0 <= i < |rs| ==> rs[i].book.Some?
    ensures MemberReservationsAsWritten(rs) == Ok(WithCovers(rs))
  {
  }

  // -------------------------------------------------------------- admin

  /** The admin page: sign-in first, then admins only; the reservation list
      gets its covers. */
  function AdminPage(session: Option<Session>, reservations: seq<Reservation>): (p: Page<seq<Reservation>>)
    ensures TokenOf(session) == "" ==> p == Redirect(AdminLogin)
    ensures TokenOf(session) != "" && RoleText(session) != "admin" ==> p == Redirect(MemberHome)
    ensures p.Render? <==> TokenOf(session) != "" && RoleText(session) == "admin"
    ensures p.Render? ==> p.view == WithCovers(reservations)
  {
    if TokenOf(session) == "" then Redirect(AdminLogin)
    else if RoleText(session) != "admin" then Redirect(MemberHome)
    else Render(WithCovers(reservations))
  }

  /** Each signed-in user is sent to the reservation page of their own role,
      which renders for them. */
  lemma RolesMeet(session: Option<Session>, rs: seq<Reservation>, books: seq<Book>)
    requires TokenOf(session) != ""
    ensures RoleText(session) == "member" ==> AdminPage(session, rs) == Redirect(MemberHome) && MemberPage(session, rs, books).Render?
    ensures RoleText(session) == "admin" ==> MemberPage(session, rs, books) == Redirect(AdminHome) && AdminPage(session, rs).Render?
  {
  }
}
