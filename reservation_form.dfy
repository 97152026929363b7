/** The member's create-reservation form (src/component/ReservationForm.tsx). */
module ReservationForm {

  import opened Interfaces
  import opened ReservationRules
  import opened Endpoints

  /** The form's fields: the selected book's id and the two date strings. */
  datatype FormState = FormState(book: string, borrowDate: string, pickupDate: string)

  /** The first book is preselected; with no books the selection is empty. */
  function InitialForm(books: seq<Book>): (f: FormState)
    ensures f.borrowDate == "" && f.pickupDate == ""
    ensures books != [] ==> f.book == books[0].id
    ensures books == [] ==> f.book == ""
  {
    FormState(if books == [] then "" else books[0].id, "", "")
  }

  /** The submit button is disabled while a request runs or when there is no book. */
  predicate SubmitDisabled(isPending: bool, books: seq<Book>) {
    isPending || |books| == 0
  }

  class Form {
    var form: FormState
    var error: Option<string>

    constructor (books: seq<Book>)
      ensures form == InitialForm(books) && error == None
    {
      form := InitialForm(books);
      error := None;
    }

    method SelectBook(id: string)
      modifies this`form
      ensures form == old(form).(book := id)
    {
      form := form.(book := id);
    }

    method SetBorrowDate(value: string)
      modifies this`form
      ensures form == old(form).(borrowDate := value)
    {
      form := form.(borrowDate := value);
    }

    method SetPickupDate(value: string)
      modifies this`form
      ensures form == old(form).(pickupDate := value)
    {
      form := form.(pickupDate := value);
    }

    /** Submit: clears the error, then checks presence, borrow-not-before-today
        and pickup-not-before-borrow in that order; the first failure is shown
        and nothing is sent. When all pass, the whole form is sent. */
    method Submit(today: int, dayOf: string -> Option<int>) returns (sent: Option<Request>)
      modifies this`error
      ensures error == FormError(form.borrowDate, form.pickupDate, dayOf, today)
      ensures sent.Some? <==> error == None
      ensures sent.Some? ==> sent == Some(CreateReservation(form.book, form.borrowDate, form.pickupDate))
    {
      error := None;
      if form.borrowDate == "" || form.pickupDate == "" {
        error := Some(MissingDates);
        return None;
      }
      var borrow := dayOf(form.borrowDate);
      var pickup := dayOf(form.pickupDate);
      if Before(borrow, Some(today)) {
        error := Some(BorrowInPast);
        return None;
      }
      if Before(pickup, borrow) {
        error := Some(PickupBeforeBorrow);
        return None;
      }
      sent := Some(CreateReservation(form.book, form.borrowDate, form.pickupDate));
    }

    /** The create's completion. `submitted` is the form as it stood when the
        request was sent: the handler resets from that captured copy, so
        success restores its book (even if another was selected meanwhile)
        and empties both dates; failure shows the message. */
    method SettleCreate(submitted: FormState, outcome: Outcome)
      modifies this
      ensures outcome.Succeeded? ==>
        form == FormState(submitted.book, "", "") && error == old(error)
      ensures outcome.Failed? ==> form == old(form) && error == Some(outcome.message)
    {
      if outcome.Succeeded? {
        form := submitted.(borrowDate := "", pickupDate := "");
      } else {
        error := Some(outcome.message);
      }
    }
  }
}
