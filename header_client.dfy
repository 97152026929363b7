/** The navigation header (src/component/HeaderClient.tsx): which links a
    visitor sees, which one is highlighted, and the user menu's open state. */
module HeaderClient {

  import opened Interfaces
  import opened Text

  datatype NavLink = NavLink(href: string, caption: string)

  const DemoLink: NavLink := NavLink("/demo", "Product Demo")
  const SharedLinks: seq<NavLink> := [DemoLink]
  const GuestLinks: seq<NavLink> := []
  const MemberLinks: seq<NavLink> :=
    [NavLink("/member/books", "Books"), NavLink("/member/reservations", "My reservations")] + SharedLinks
  const AdminLinks: seq<NavLink> :=
    [NavLink("/admin/books", "Manage books"), NavLink("/admin/reservations", "All reservations")] + SharedLinks

  /** Anyone signed in who is not explicitly an admin is treated as a member. */
  function RoleOf(session: Option<Session>): (role: Role)
    ensures role == Admin <==>
      session.Some? && session.value.user.Some? && session.value.user.value.role == "admin"
  {
    if session.Some? && session.value.user.Some? && session.value.user.value.role == "admin" then Admin
    else Member
  }

  /** The links shown: none without a session, otherwise the role's links. */
  function LinksFor(session: Option<Session>): (links: seq<NavLink>)
    ensures session.None? <==> links == []
    ensures session.Some? ==> |links| == 3 && links[2] == DemoLink
    ensures session.Some? && RoleOf(session) == Admin ==>
      forall i :: 0 <= i < 2 ==> StartsWith(links[i].href, "/admin/")
    ensures session.Some? && RoleOf(session) == Member ==>
      forall i :: 0 <= i < 2 ==> StartsWith(links[i].href, "/member/")
  {
    if session.None? then GuestLinks
    else if RoleOf(session) == Admin then AdminLinks
    else MemberLinks
  }

  /** A link is highlighted when the current path starts with its address. */
  predicate IsActive(pathname: string, link: NavLink) {
    StartsWith(pathname, link.href)
  }

  /** Two addresses that differ at some position cannot both prefix one path. */
  lemma PrefixesClash(pathname: string, a: string, b: string, k: nat)
    requires k < |a| && k < |b| && a[k] != b[k]
    ensures !(StartsWith(pathname, a) && StartsWith(pathname, b))
  {
    if StartsWith(pathname, a) {
      assert pathname[k] == a[k];
    }
  }

  /** No path highlights two of the visible links at once. */
  lemma AtMostOneActive(session: Option<Session>, pathname: string, i: int, j: int)
    requires 0 <= i < j < |LinksFor(session)|
    ensures !(IsActive(pathname, LinksFor(session)[i]) && IsActive(pathname, LinksFor(session)[j]))
  {
    var links := LinksFor(session);
    var k := if j == 2 then 1 else if RoleOf(session) == Admin then 7 else 8;
    PrefixesClash(pathname, links[i].href, links[j].href, k);
  }

  /** The user menu's open flag. */
  class Menu {
    var open: bool

    constructor()
      ensures !open
    {
      open := false;
    }

    /** The account button flips the menu. */
    method Toggle()
      modifies this
      ensures open == !old(open)
    {
      open := !open;
    }

    /** Following either menu link closes it. */
    method Close()
      modifies this
      ensures !open
    {
      open := false;
    }
  }
}
