/** The requests the components send through the thin endpoint wrappers
    (src/libs/books.ts, src/libs/reservations.ts, src/libs/auth.ts). Each
    wrapper is one call to the API client; the network itself is not modelled,
    so a request is a value and its result an `Outcome` supplied from outside. */
module Endpoints {

  import opened Interfaces
  import opened Text

  datatype RegisterPayload = RegisterPayload(name: string, email: string, tel: string, password: string, role: string)

  datatype Request =
    | CreateReservation(book: string, borrowDate: string, pickupDate: string)
    | UpdateReservation(reservationId: string, borrowDate: string, pickupDate: string)
    | DeleteReservation(reservationId: string)
    | CreateBook(data: BookData)
    | UpdateStock(bookId: string, availableAmount: int)
    | DeleteBook(bookId: string)
    | RegisterUser(payload: RegisterPayload)

  datatype Verb = Get | Post | Put | Delete

  datatype Route = Route(verb: Verb, path: string)

  /** The HTTP method and path each wrapper uses. Every path is absolute, so the
      API client appends it to the base URL without inserting a separator. */
  function RouteOf(r: Request): (route: Route)
    ensures StartsWith(route.path, "/")
    ensures route.verb == Delete <==> r.DeleteReservation? || r.DeleteBook?
    ensures route.verb == Post <==> r.CreateReservation? || r.CreateBook? || r.RegisterUser?
  {
    match r
    case CreateReservation(_, _, _) => Route(Post, "/reservations")
    case UpdateReservation(id, _, _) => Route(Put, "/reservations/" + id)
    case DeleteReservation(id) => Route(Delete, "/reservations/" + id)
    case CreateBook(_) => Route(Post, "/books")
    case UpdateStock(id, _) => Route(Put, "/books/" + id + "/stock")
    case DeleteBook(id) => Route(Delete, "/books/" + id)
    case RegisterUser(_) => Route(Post, "/auth/register")
  }

  /** Registration is the only one of these sent with `skipAuth`. */
  predicate SkipsAuth(r: Request) {
    r.RegisterUser?
  }
}
