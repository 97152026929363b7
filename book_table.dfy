/** The stock buttons and delete button of the admin's book tables
    (src/component/BookManagementTable.tsx and the identical handlers of
    src/component/BookManagementTableClient.tsx). */
module BookTable {

  import opened Interfaces
  import opened Endpoints

  datatype Direction = Increase | Decrease {
    function Delta(): int {
      if this == Increase then 1 else -1
    }
  }

  /** The stock a button asks for: one step from the shown count, never below zero. */
  function NextStock(current: int, d: Direction): (n: int)
    ensures n >= 0
    ensures n >= current + d.Delta()
    ensures n == 0 || n == current + d.Delta()
  {
    if current + d.Delta() < 0 then 0 else current + d.Delta()
  }

  /** A decrement at zero stays at zero; an increment of a non-negative count adds one. */
  lemma NextStockSteps(current: int)
    ensures NextStock(0, Decrease) == 0
    ensures current >= 0 ==> NextStock(current, Increase) == current + 1
    ensures current >= 1 ==> NextStock(current, Decrease) == current - 1
  {
  }

  /** The row whose request is running and the last request's error. */
  class Table {
    var pendingId: Option<string>
    var error: Option<string>

    constructor ()
      ensures pendingId == None && error == None
    {
      pendingId := None;
      error := None;
    }

    /** A stock button: marks the row pending, clears the error and sends the
        clamped absolute count (not a delta). */
    method StartStock(id: string, current: int, d: Direction) returns (sent: Request)
      modifies this
      ensures pendingId == Some(id) && error == None
      ensures sent == UpdateStock(id, NextStock(current, d))
      ensures sent.availableAmount >= 0
      ensures DeleteDisabled(true, id)
    {
      var nextValue := NextStock(current, d);
      pendingId := Some(id);
      error := None;
      sent := UpdateStock(id, nextValue);
    }

    /** The delete button: marks the row pending, clears the error and sends the delete. */
    method StartDelete(id: string) returns (sent: Request)
      modifies this
      ensures pendingId == Some(id) && error == None
      ensures sent == DeleteBook(id)
      ensures DeleteDisabled(true, id)
    {
      pendingId := Some(id);
      error := None;
      sent := DeleteBook(id);
    }

    /** Either request's completion: a failure's message is shown, and in both
        cases (the `finally` block) no row is pending any more. */
    method Settle(outcome: Outcome)
      modifies this
      ensures pendingId == None
      ensures forall busy: bool, row: string :: !DeleteDisabled(busy, row)
      ensures error == if outcome.Failed? then Some(outcome.message) else old(error)
    {
      if outcome.Failed? {
        error := Some(outcome.message);
      }
      pendingId := None;
    }

    /** A row's delete button is disabled only while a request runs for that row. */
    predicate DeleteDisabled(isPending: bool, rowId: string)
      reads this
    {
      isPending && pendingId == Some(rowId)
    }
  }
}
