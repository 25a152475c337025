/** What the handlers exchange with the REST client: request shapes and call outcomes. */
module Api {
  import opened Users

  /** The outcome of a call whose response body the handler uses (list, create). */
  datatype Reply<+T> = Ok(data: T) | Error

  /** The outcome of a call whose response body the handler ignores (update, delete). */
  datatype Ack = Acked | Rejected

  /** An update request: `PUT /users/{id}` with `body`. */
  datatype UpdateRequest = UpdateRequest(id: Id, body: Fields)
}
