/** Values shared by every route handler: optional values, HTTP outcomes
    and the authenticated caller. */
module Common {

  datatype Option<T> = None | Some(value: T) {
    function GetOr(default: T): T {
      match this
      case Some(v) => v
      case None => default
    }
  }

  /** A database document id (a Mongo ObjectId, kept opaque). */
  type Id = nat

  /** A reference to a user document. */
  type UserId = nat

  /** What a route handler answers: a success status with a body, or an
      error status with the `error` (or `message`) text of the JSON reply. */
  datatype Response<T> = Ok(status: nat, body: T) | Fail(status: nat, error: string)

  /** The session user as the session provider hands it to the handlers. */
  datatype Session = Session(id: UserId, role: string)

  predicate IsAdmin(session: Option<Session>) {
    session.Some? && session.value.role == "admin"
  }
}
