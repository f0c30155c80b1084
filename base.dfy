/** Vocabulary shared by the route handlers and the client views: optional
    values, identifiers, and the HTTP status codes the handlers answer with. */
module Base {

  datatype Option<+T> = None | Some(value: T)

  /** Folder, file and user identifiers are the strings the document store hands out. */
  type Id = string

  const Ok: nat := 200
  const Created: nat := 201
  const BadRequest: nat := 400
  const Unauthorized: nat := 401
  const NotFound: nat := 404
  const MethodNotAllowed: nat := 405
  const Conflict: nat := 409
  const InternalError: nat := 500

  /** JavaScript truthiness of an optional id: absent, null and "" are all falsy. */
  predicate Present(id: Option<Id>) {
    id.Some? && id.value != ""
  }

  /** `id || null`: a falsy id is stored as null. */
  function OrNull(id: Option<Id>): Option<Id> {
    if Present(id) then id else None
  }
}
