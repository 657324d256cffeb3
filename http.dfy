/** What a handler learns from an upstream HTTP request, with the network abstracted:
    either no reply at all (the request was rejected) or a status code and a body. */
module Http {
  import opened Wrappers

  datatype Reply = Reply(status: int, body: string)

  /** `response.ok`. */
  predicate IsOk(r: Reply) {
    200 <= r.status <= 299
  }

  /** A thrown error: `statusCode` when the code attached one. */
  datatype Failure = Failure(status: Option<int>)

  /** The status a handler answers with for a thrown error: `error.statusCode || 500`. */
  function ErrorStatus(f: Failure): (code: int)
    ensures f.status.Some? && f.status.value != 0 ==> code == f.status.value
    ensures f.status.None? ==> code == 500
  {
    match f.status
    case Some(c) => if c != 0 then c else 500
    case None => 500
  }
}
