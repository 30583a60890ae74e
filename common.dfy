/** Values shared by the two controllers: optional request fields and the
    shape of an HTTP reply. */
module Common {

  datatype Option<+T> = None | Some(value: T)

  /** What an Express handler does with its response object:
      - Json(body): `res.json(body)` with status 200;
      - Fail(status, error): `res.status(status).json({ error })`;
      - NoReply: the async handler threw before answering. Without an
        error handler installed for async handlers, the rejected promise is
        caught by nothing and the client gets no response. */
  datatype Reply<+T> = Json(body: T) | Fail(status: int, error: string) | NoReply

  type UserId = string

  /** Timestamps, as produced by `new Date()`. */
  type Time = nat

  /** A request field that Yup's `string().required()` accepts, which is also
      a truthy string in JavaScript: present, not null and not empty. */
  predicate Provided(field: Option<string>) {
    field.Some? && field.value != ""
  }
}
