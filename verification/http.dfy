/** The parts of an HTTP exchange the route handlers decide: status and JSON body. */
module Http {
  import opened Optional
  import opened Rows

  const Ok: nat := 200
  const BadRequest: nat := 400
  const Forbidden: nat := 403
  const NotFound: nat := 404
  const InternalError: nat := 500

  datatype Body =
    | ErrorBody(error: string)
    | AvatarUploaded(avatarUrl: string)
    | ProfileUpdated(data: Row)

  datatype Response = Response(status: nat, body: Body)

  function Reject(status: nat, message: string): Response {
    Response(status, ErrorBody(message))
  }

  /** A request field that JavaScript treats as truthy: present and not the empty string. */
  predicate Present(field: Option<string>) {
    field.Some? && field.value != ""
  }
}
