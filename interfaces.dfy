/** The records the front end receives from the library API (the shapes of
    src/interfaces.ts), plus the option and result wrappers used throughout. */
module Interfaces {

  /** A value that may be absent (`undefined` or `null` in the source). */
  datatype Option<T> = None | Some(value: T)

  /** An operation that either yields a value or throws an `Error` with a message. */
  datatype Result<T> = Ok(value: T) | Err(message: string)

  datatype Role = Member | Admin

  /** A catalogue entry. `coverPicture` is `""` when the backend sends none. */
  datatype Book = Book(
    id: string,
    title: string,
    author: string,
    isbn: string,
    publisher: string,
    availableAmount: int,
    coverPicture: string,
    createdAt: Option<string>,
    updatedAt: Option<string>)

  /** A book as staged by the CSV import and sent to the create endpoint. */
  datatype BookData = BookData(
    title: string,
    author: string,
    isbn: string,
    publisher: string,
    availableAmount: int,
    coverPicture: string)

  /** The owner of a reservation, as denormalised into it by the backend. */
  datatype ReservationUser = ReservationUser(id: string, name: string, email: string, role: Role)

  /** A date string sent by the backend together with what the date library
      reads from it: `day` is its start-of-day day number and `instant` its
      millisecond timestamp. */
  datatype Stamp = Stamp(text: string, day: int, instant: int)

  /** A reservation; `book` is `None` once the reserved book has been deleted. */
  datatype Reservation = Reservation(
    id: string,
    borrowDate: Stamp,
    pickupDate: Stamp,
    createdAt: Option<Stamp>,
    user: ReservationUser,
    book: Option<Book>)

  /** The signed-in principal of a session; `token` and `role` are `""` when missing. */
  datatype SessionUser = SessionUser(name: string, token: string, role: string)

  datatype Session = Session(user: Option<SessionUser>)

  /** How a request to the backend ended: the thrown `Error`'s message on failure. */
  datatype Outcome = Succeeded | Failed(message: string)
}
