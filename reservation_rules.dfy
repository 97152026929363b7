/** The reservation date rules, written once. The create form
    (src/component/ReservationForm.tsx), the member's edit row
    (src/component/ReservationList.tsx) and the admin's edit row
    (src/component/AdminReservationsManagement.tsx) each repeat them inline;
    their models call `DateError` and `FormError` below.

    A date is a day number; `None` is a string the date library cannot read
    (an "Invalid Date"). Its `isBefore` is false whenever either side is
    invalid, which `Before` reproduces. */
module ReservationRules {

  import opened Interfaces

  const BorrowInPast := "Borrow date cannot be earlier than today"
  const PickupBeforeBorrow := "Pick-up date cannot be earlier than borrow date"
  const MissingDates := "Please select both borrow and pickup dates"

  /** `a.isBefore(b)` at day granularity. */
  predicate Before(a: Option<int>, b: Option<int>) {
    a.Some? && b.Some? && a.value < b.value
  }

  /** The two date rules hold. For readable dates: today <= borrow <= pickup,
      so same-day values pass. */
  predicate DatesAcceptable(borrow: Option<int>, pickup: Option<int>, today: int)
    ensures borrow.Some? && pickup.Some? ==>
      (DatesAcceptable(borrow, pickup, today) <==> today <= borrow.value <= pickup.value)
  {
    !Before(borrow, Some(today)) && !Before(pickup, borrow)
  }

  /** The message the edit rows show, checking "borrow before today" first and
      "pickup before borrow" second; `None` when the dates are accepted. */
  function DateError(borrow: Option<int>, pickup: Option<int>, today: int): (e: Option<string>)
    ensures e == None <==> DatesAcceptable(borrow, pickup, today)
    ensures e == Some(BorrowInPast) <==> Before(borrow, Some(today))
    ensures e == Some(PickupBeforeBorrow) <==> !Before(borrow, Some(today)) && Before(pickup, borrow)
  {
    if Before(borrow, Some(today)) then Some(BorrowInPast)
    else if Before(pickup, borrow) then Some(PickupBeforeBorrow)
    else None
  }

  /** The create form's checks: first that both date fields are filled in, then
      the two date rules on what the date library reads from them. */
  function FormError(borrowText: string, pickupText: string, dayOf: string -> Option<int>, today: int): (e: Option<string>)
    ensures e == Some(MissingDates) <==> borrowText == "" || pickupText == ""
    ensures e == None <==>
      borrowText != "" && pickupText != "" && DatesAcceptable(dayOf(borrowText), dayOf(pickupText), today)
    ensures borrowText != "" && pickupText != "" ==> e == DateError(dayOf(borrowText), dayOf(pickupText), today)
  {
    if borrowText == "" || pickupText == "" then Some(MissingDates)
    else DateError(dayOf(borrowText), dayOf(pickupText), today)
  }

  /** The create form accepts readable dates exactly when today <= borrow <= pickup. */
  lemma FormAcceptsExactly(borrowText: string, pickupText: string, dayOf: string -> Option<int>, today: int)
    requires borrowText != "" && pickupText != ""
    requires dayOf(borrowText).Some? && dayOf(pickupText).Some?
    ensures FormError(borrowText, pickupText, dayOf, today) == None <==>
      today <= dayOf(borrowText).value <= dayOf(pickupText).value
  {
  }

  /** The edit rows have no presence check: a draft the date library cannot
      read (such as a cleared date field) never fails a rule. */
  lemma EditAcceptsUnreadableDrafts(pickup: Option<int>, today: int)
    ensures DateError(None, pickup, today) == None
  {
  }
}
