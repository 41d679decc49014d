/**
 * The one property of an HTTP response both clients read: the Fetch
 * standard's `ok` flag, which is derived from the status.
 */
module Http {

  /** `response.ok`: the status lies in the range 200-299, the 2xx class. */
  predicate OkStatus(status: int)
    ensures OkStatus(status) <==> status / 100 == 2
  {
    200 <= status <= 299
  }
}
