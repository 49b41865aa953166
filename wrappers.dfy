/** Small result types shared by every page of the front end. */
module Wrappers {

  /** A value that may be absent (a JavaScript `null`/`undefined`, a Python `None`). */
  datatype Option<+T> = None | Some(value: T)

  /**
   * How one `fetch(...)` followed by `res.json()` ends, as the page handlers see it:
   * with a parsed body, with a response whose `res.ok` is false (the handler then
   * throws an `Error` with its own fixed text), or with an exception carrying
   * `e.message` (network failure, unparsable body).
   */
  datatype Reply<+T> = Ok(body: T) | NotOk | Thrown(message: string)

  /**
   * The text a handler shows for a failed reply when it writes
   * `if (!res.ok) throw new Error(notOkText)` and `e.message || fallback`.
   */
  function FailureText<T>(reply: Reply<T>, notOkText: string, fallback: string): (text: string)
    requires !reply.Ok?
    ensures reply.NotOk? && notOkText != [] ==> text == notOkText
    ensures reply.Thrown? && reply.message != [] ==> text == reply.message
    ensures reply.Thrown? && reply.message == [] ==> text == fallback
    ensures reply.NotOk? && notOkText == [] ==> text == fallback
    ensures notOkText != [] && fallback != [] ==> text != []
  {
    var message := if reply.NotOk? then notOkText else reply.message;
    if message == [] then fallback else message
  }
}
