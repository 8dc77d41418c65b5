/** Wrappers shared by every component: an optional value (JavaScript's
    `undefined`/`null`/`NaN` stand-ins) and the abstract outcome of one
    HTTP request. */
module Common {

  datatype Option<+T> = None | Some(value: T)

  /** The outcome of one request as a component sees it: a 2xx reply with its
      parsed body, a non-2xx reply, or an exception thrown by `fetch` or by
      parsing the body. */
  datatype Response<+T> = Ok(data: T) | NotOk | Threw

  /** How an awaited call ended: it returned, or it threw. */
  datatype Outcome = Returned | Raised
}
