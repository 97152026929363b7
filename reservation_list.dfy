/** The member's reservation list (src/component/ReservationList.tsx): its
    inline edit row and delete button. Unlike the admin screen, opening and
    closing the row leave the error message alone, and delete asks for no
    confirmation. */
module ReservationList {

  import opened Interfaces
  import opened Text
  import opened ReservationRules
  import opened Endpoints
  import AdminReservations

  class EditRow {
    var editingId: Option<string>
    var draftBorrow: string
    var draftPickup: string
    var error: Option<string>

    constructor ()
      ensures editingId == None && draftBorrow == "" && draftPickup == "" && error == None
    {
      editingId := None;
      draftBorrow := "";
      draftPickup := "";
      error := None;
    }

    /** Opens the row on `r` with the date part (before "T") of each date; an
        earlier error stays on screen. */
    method StartEdit(r: Reservation)
      modifies this`editingId, this`draftBorrow, this`draftPickup
      ensures editingId == Some(r.id)
      ensures draftBorrow == BeforeFirst(r.borrowDate.text, 'T')
      ensures draftPickup == BeforeFirst(r.pickupDate.text, 'T')
    {
      editingId := Some(r.id);
      draftBorrow := BeforeFirst(r.borrowDate.text, 'T');
      draftPickup := BeforeFirst(r.pickupDate.text, 'T');
    }

    method CancelEdit()
      modifies this`editingId, this`draftBorrow, this`draftPickup
      ensures editingId == None && draftBorrow == "" && draftPickup == ""
    {
      editingId := None;
      draftBorrow := "";
      draftPickup := "";
    }

    method SetDraftBorrow(value: string)
      modifies this`draftBorrow
      ensures draftBorrow == value
    {
      draftBorrow := value;
    }

    method SetDraftPickup(value: string)
      modifies this`draftPickup
      ensures draftPickup == value
    {
      draftPickup := value;
    }

    /** Save: the same two ordered rules and messages as the admin row, with no
        presence check; on success of the rules the error is cleared and the
        drafts are sent verbatim. */
    method SubmitEdit(today: int, dayOf: string -> Option<int>) returns (sent: Option<Request>)
      modifies this`error
      ensures !AdminReservations.Editing(editingId) ==> sent == None && error == old(error)
      ensures AdminReservations.Editing(editingId) ==>
        error == DateError(dayOf(draftBorrow), dayOf(draftPickup), today)
      ensures AdminReservations.Editing(editingId) ==>
        (sent.Some? <==> DatesAcceptable(dayOf(draftBorrow), dayOf(draftPickup), today))
      ensures sent.Some? ==> sent == Some(UpdateReservation(editingId.value, draftBorrow, draftPickup))
    {
      if !AdminReservations.Editing(editingId) {
        return None;
      }
      var borrow := dayOf(draftBorrow);
      var pickup := dayOf(draftPickup);
      if Before(borrow, Some(today)) {
        error := Some(BorrowInPast);
        return None;
      }
      if Before(pickup, borrow) {
        error := Some(PickupBeforeBorrow);
        return None;
      }
      error := None;
      sent := Some(UpdateReservation(editingId.value, draftBorrow, draftPickup));
    }

    /** The update's completion: success closes the row, failure shows the message. */
    method SettleEdit(outcome: Outcome)
      modifies this
      ensures outcome.Succeeded? ==>
        editingId == None && draftBorrow == "" && draftPickup == "" && error == old(error)
      ensures outcome.Failed? ==>
        error == Some(outcome.message) && editingId == old(editingId)
        && draftBorrow == old(draftBorrow) && draftPickup == old(draftPickup)
    {
      if outcome.Succeeded? {
        CancelEdit();
      } else {
        error := Some(outcome.message);
      }
    }

    /** Delete: clears the error and sends the delete straight away. */
    method StartDelete(id: string) returns (sent: Request)
      modifies this`error
      ensures sent == DeleteReservation(id) && error == None
    {
      error := None;
      sent := DeleteReservation(id);
    }

    method SettleDelete(outcome: Outcome)
      modifies this`error
      ensures error == if outcome.Failed? then Some(outcome.message) else old(error)
    {
      if outcome.Failed? {
        error := Some(outcome.message);
      }
    }
  }
}
