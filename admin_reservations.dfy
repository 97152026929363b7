/** The admin's reservation screen (src/component/AdminReservationsManagement.tsx):
    the derived status of a reservation, the filtered and sorted view the
    table shows, the counters above it, and the inline edit row. */
module AdminReservations {

  import opened Interfaces
  import opened Text
  import opened Seqs
  import opened ReservationRules
  import opened Endpoints

  // ------------------------------------------------------------- status

  datatype Status = Past | Active | Upcoming

  /** Pastness is decided first: a pickup day before today is past whatever the
      borrow day; otherwise a borrow day that has arrived is active. */
  function StatusOf(r: Reservation, today: int): (s: Status)
    ensures s == Past <==> r.pickupDate.day < today
    ensures s == Active <==> today <= r.pickupDate.day && r.borrowDate.day <= today
    ensures s == Upcoming <==> today <= r.pickupDate.day && today < r.borrowDate.day
  {
    if r.pickupDate.day < today then Past
    else if r.borrowDate.day <= today then Active
    else Upcoming
  }

  // ------------------------------------------------------------- filter

  datatype StatusFilter = AllStatuses | OnlyStatus(status: Status)

  datatype SortField = ByBorrowDate | ByPickupDate | ByCreatedAt | ByUser | ByBook

  datatype SortOrder = Ascending | Descending

  /** The screen's controls. */
  datatype Criteria = Criteria(query: string, statusFilter: StatusFilter, field: SortField, order: SortOrder)

  /** What the screen starts with: no search, every status, newest borrow date first. */
  const InitialCriteria := Criteria("", AllStatuses, ByBorrowDate, Descending)

  predicate MatchesStatus(r: Reservation, f: StatusFilter, today: int) {
    f.AllStatuses? || StatusOf(r, today) == f.status
  }

  /** Case-insensitive substring search over the book's title and author and the
      user's name and email; a deleted book matches on neither of its fields. */
  predicate MatchesQuery(r: Reservation, query: string) {
    query == "" ||
    var q := Lower(query);
    (r.book.Some? && (Contains(Lower(r.book.value.title), q) || Contains(Lower(r.book.value.author), q)))
    || Contains(Lower(r.user.name), q)
    || Contains(Lower(r.user.email), q)
  }

  function Keep(c: Criteria, today: int): Reservation -> bool {
    r => MatchesStatus(r, c.statusFilter, today) && MatchesQuery(r, c.query)
  }

  // --------------------------------------------------------------- sort

  /** The value a reservation is sorted on: a timestamp or a lowercased text. */
  datatype SortKey = Instant(t: int) | Words(w: string)

  function KeyOf(r: Reservation, field: SortField): SortKey {
    match field
    case ByBorrowDate => Instant(r.borrowDate.instant)
    case ByPickupDate => Instant(r.pickupDate.instant)
    case ByCreatedAt => Instant(if r.createdAt.Some? then r.createdAt.value.instant else r.borrowDate.instant)
    case ByUser => Words(Lower(r.user.name))
    case ByBook => Words(if r.book.Some? then Lower(r.book.value.title) else "")
  }

  predicate KeyLe(a: SortKey, b: SortKey) {
    match (a, b)
    case (Instant(x), Instant(y)) => x <= y
    case (Words(x), Words(y)) => StrLe(x, y)
    case (Instant(_), Words(_)) => true
    case (Words(_), Instant(_)) => false
  }

  /** `a` may stand before `b`: the comparator returns a non-positive number.
      Descending swaps the operands. */
  predicate Precedes(a: Reservation, b: Reservation, field: SortField, order: SortOrder) {
    if order == Ascending then KeyLe(KeyOf(a, field), KeyOf(b, field))
    else KeyLe(KeyOf(b, field), KeyOf(a, field))
  }

  lemma KeyLeTotal(a: SortKey, b: SortKey)
    ensures KeyLe(a, b) || KeyLe(b, a)
  {
    if a.Words? && b.Words? {
      StrLeTotal(a.w, b.w);
    }
  }

  lemma KeyLeTransitive(a: SortKey, b: SortKey, c: SortKey)
    requires KeyLe(a, b) && KeyLe(b, c)
    ensures KeyLe(a, c)
  {
    if a.Words? && b.Words? && c.Words? {
      StrLeTransitive(a.w, b.w, c.w);
    }
  }

  lemma PrecedesTotal(a: Reservation, b: Reservation, field: SortField, order: SortOrder)
    ensures Precedes(a, b, field, order) || Precedes(b, a, field, order)
  {
    KeyLeTotal(KeyOf(a, field), KeyOf(b, field));
  }

  lemma PrecedesTransitive(a: Reservation, b: Reservation, c: Reservation, field: SortField, order: SortOrder)
    requires Precedes(a, b, field, order) && Precedes(b, c, field, order)
    ensures Precedes(a, c, field, order)
  {
    if order == Ascending {
      KeyLeTransitive(KeyOf(a, field), KeyOf(b, field), KeyOf(c, field));
    } else {
      KeyLeTransitive(KeyOf(c, field), KeyOf(b, field), KeyOf(a, field));
    }
  }

  predicate SortedBy(s: seq<Reservation>, field: SortField, order: SortOrder) {
    forall i, j :: 0 <= i < j < |s| ==> Precedes(s[i], s[j], field, order)
  }

  lemma SortedCons(y: Reservation, t: seq<Reservation>, field: SortField, order: SortOrder)
    requires SortedBy(t, field, order)
    requires forall j | 0 <= j < |t| :: Precedes(y, t[j], field, order)
    ensures SortedBy([y] + t, field, order)
  {
    var r := [y] + t;
    forall i, j | 0 <= i < j < |r|
      ensures Precedes(r[i], r[j], field, order)
    {
      assert r[j] == t[j - 1];
      if i > 0 {
        assert r[i] == t[i - 1];
      }
    }
  }

  /** Places `x` before the first element it may precede. */
  function Insert(x: Reservation, s: seq<Reservation>, field: SortField, order: SortOrder): (r: seq<Reservation>)
    requires SortedBy(s, field, order)
    ensures multiset(r) == multiset(s) + multiset{x}
    ensures SortedBy(r, field, order)
  {
    if s == [] then [x]
    else if Precedes(x, s[0], field, order) then
      forall j | 0 <= j < |s| ensures Precedes(x, s[j], field, order) {
        if j > 0 { PrecedesTransitive(x, s[0], s[j], field, order); }
      }
      SortedCons(x, s, field, order);
      [x] + s
    else
      PrecedesTotal(x, s[0], field, order);
      var t := Insert(x, s[1..], field, order);
      assert s == [s[0]] + s[1..];
      forall j | 0 <= j < |t| ensures Precedes(s[0], t[j], field, order) {
        assert t[j] in multiset(t);
        if t[j] != x {
          assert t[j] in multiset(s[1..]);
          var k :| 1 <= k < |s| && s[k] == t[j];
        }
      }
      SortedCons(s[0], t, field, order);
      assert multiset([s[0]] + t) == multiset{s[0]} + multiset(t);
      [s[0]] + t
  }

  /** The stable sort `Array.prototype.sort` performs with the screen's comparator:
      an element keeps its place ahead of later elements it ties with. */
  function SortReservations(s: seq<Reservation>, field: SortField, order: SortOrder): (r: seq<Reservation>)
    ensures multiset(r) == multiset(s)
    ensures SortedBy(r, field, order)
  {
    if s == [] then []
    else
      assert s == [s[0]] + s[1..];
      Insert(s[0], SortReservations(s[1..], field, order), field, order)
  }

  /** The table's rows: the reservations kept by the status filter and the
      search, in the selected order. The component filters a copy, so the
      list it was given is not reordered. */
  function View(rs: seq<Reservation>, c: Criteria, today: int): seq<Reservation> {
    SortReservations(Filter(rs, Keep(c, today)), c.field, c.order)
  }

  /** The view is a permutation of exactly the reservations that pass both
      filters, ordered by the selected key. */
  lemma ViewSpec(rs: seq<Reservation>, c: Criteria, today: int)
    ensures multiset(View(rs, c, today)) == multiset(Filter(rs, Keep(c, today)))
    ensures multiset(View(rs, c, today)) <= multiset(rs)
    ensures forall r :: r in View(rs, c, today) <==>
      r in rs && MatchesStatus(r, c.statusFilter, today) && MatchesQuery(r, c.query)
    ensures SortedBy(View(rs, c, today), c.field, c.order)
  {
    var f := Filter(rs, Keep(c, today));
    FilterSubMultiset(rs, Keep(c, today));
    FilterSpec(rs, Keep(c, today));
    assert multiset(View(rs, c, today)) == multiset(f);
    forall r
      ensures r in View(rs, c, today) <==> r in rs && MatchesStatus(r, c.statusFilter, today) && MatchesQuery(r, c.query)
    {
      assert r in View(rs, c, today) <==> r in multiset(f);
      if r in rs && Keep(c, today)(r) {
        var i :| 0 <= i < |rs| && rs[i] == r;
      }
      if r in f {
        var i :| 0 <= i < |f| && f[i] == r;
      }
    }
  }

  /** With every status and an empty search, the view holds every reservation. */
  lemma UnfilteredViewIsPermutation(rs: seq<Reservation>, field: SortField, order: SortOrder, today: int)
    ensures multiset(View(rs, Criteria("", AllStatuses, field, order), today)) == multiset(rs)
  {
    var c := Criteria("", AllStatuses, field, order);
    FilterKeepsAll(rs, Keep(c, today));
  }

  // -------------------------------------------------------------- stats

  datatype Stats = Stats(total: nat, upcoming: nat, active: nat, past: nat)

  function CountStatus(rs: seq<Reservation>, s: Status, today: int): (n: nat)
    ensures n <= |rs|
  {
    if rs == [] then 0
    else (if StatusOf(rs[0], today) == s then 1 else 0) + CountStatus(rs[1..], s, today)
  }

  function StatsOf(rs: seq<Reservation>, today: int): Stats {
    Stats(|rs|, CountStatus(rs, Upcoming, today), CountStatus(rs, Active, today), CountStatus(rs, Past, today))
  }

  /** Every reservation is counted under exactly one status. */
  lemma {:induction false} StatsPartition(rs: seq<Reservation>, today: int)
    ensures StatsOf(rs, today).upcoming + StatsOf(rs, today).active + StatsOf(rs, today).past
            == StatsOf(rs, today).total
  {
    if rs != [] {
      StatsPartition(rs[1..], today);
    }
  }

  /** A status counter equals the number of rows the matching status filter shows. */
  lemma {:induction false} CountIsFilteredLength(rs: seq<Reservation>, s: Status, today: int)
    ensures CountStatus(rs, s, today) == |Filter(rs, Keep(Criteria("", OnlyStatus(s), ByBorrowDate, Descending), today))|
  {
    if rs != [] {
      var keep := Keep(Criteria("", OnlyStatus(s), ByBorrowDate, Descending), today);
      assert keep(rs[0]) <==> StatusOf(rs[0], today) == s;
      CountIsFilteredLength(rs[1..], s, today);
    }
  }

  // ---------------------------------------------------------- edit row

  /** `!editingId` holds for both `null` and the empty id. */
  predicate Editing(id: Option<string>) {
    id.Some? && id.value != ""
  }

  /** The edit row's state. */
  class Editor {
    var editingId: Option<string>
    var draftBorrow: string
    var draftPickup: string
    var error: Option<string>

    constructor ()
      ensures editingId == None && draftBorrow == "" && draftPickup == "" && error == None
    {
      editingId := None;
      draftBorrow := "";
      draftPickup := "";
      error := None;
    }

    /** Opens the row on `r` with the date part (before "T") of each date, and
        clears any error. */
    method StartEdit(r: Reservation)
      modifies this
      ensures editingId == Some(r.id)
      ensures draftBorrow == BeforeFirst(r.borrowDate.text, 'T')
      ensures draftPickup == BeforeFirst(r.pickupDate.text, 'T')
      ensures error == None
    {
      editingId := Some(r.id);
      draftBorrow := BeforeFirst(r.borrowDate.text, 'T');
      draftPickup := BeforeFirst(r.pickupDate.text, 'T');
      error := None;
    }

    method CancelEdit()
      modifies this
      ensures editingId == None && draftBorrow == "" && draftPickup == "" && error == None
    {
      editingId := None;
      draftBorrow := "";
      draftPickup := "";
      error := None;
    }

    /** The date inputs' change handlers. */
    method SetDraftBorrow(value: string)
      modifies this`draftBorrow
      ensures draftBorrow == value
    {
      draftBorrow := value;
    }

    method SetDraftPickup(value: string)
      modifies this`draftPickup
      ensures draftPickup == value
    {
      draftPickup := value;
    }

    /** Save: nothing happens without an open row; a failed date rule sets its
        message and sends nothing; otherwise the error is cleared and the drafts
        are sent verbatim. `dayOf` is what the date library reads from a draft. */
    method SubmitEdit(today: int, dayOf: string -> Option<int>) returns (sent: Option<Request>)
      modifies this`error
      ensures !Editing(editingId) ==> sent == None && error == old(error)
      ensures Editing(editingId) ==>
        error == DateError(dayOf(draftBorrow), dayOf(draftPickup), today)
      ensures Editing(editingId) ==>
        (sent.Some? <==> DatesAcceptable(dayOf(draftBorrow), dayOf(draftPickup), today))
      ensures sent.Some? ==> sent == Some(UpdateReservation(editingId.value, draftBorrow, draftPickup))
    {
      if !Editing(editingId) {
        return None;
      }
      var borrow := dayOf(draftBorrow);
      var pickup := dayOf(draftPickup);
      if Before(borrow, Some(today)) {
        error := Some(BorrowInPast);
        return None;
      }
      if Before(pickup, borrow) {
        error := Some(PickupBeforeBorrow);
        return None;
      }
      error := None;
      sent := Some(UpdateReservation(editingId.value, draftBorrow, draftPickup));
    }

    /** The update's completion: success closes the row, failure shows the message. */
    method SettleEdit(outcome: Outcome)
      modifies this
      ensures outcome.Succeeded? ==>
        editingId == None && draftBorrow == "" && draftPickup == "" && error == None
      ensures outcome.Failed? ==>
        error == Some(outcome.message) && editingId == old(editingId)
        && draftBorrow == old(draftBorrow) && draftPickup == old(draftPickup)
    {
      if outcome.Succeeded? {
        CancelEdit();
      } else {
        error := Some(outcome.message);
      }
    }

    /** Delete, after the browser's confirmation dialog: a declined dialog does
        nothing; otherwise the error is cleared and the delete is sent. */
    method StartDelete(id: string, confirmed: bool) returns (sent: Option<Request>)
      modifies this`error
      ensures !confirmed ==> sent == None && error == old(error)
      ensures confirmed ==> sent == Some(DeleteReservation(id)) && error == None
    {
      if !confirmed {
        return None;
      }
      error := None;
      sent := Some(DeleteReservation(id));
    }

    method SettleDelete(outcome: Outcome)
      modifies this`error
      ensures error == if outcome.Failed? then Some(outcome.message) else old(error)
    {
      if outcome.Failed? {
        error := Some(outcome.message);
      }
    }
  }
}
