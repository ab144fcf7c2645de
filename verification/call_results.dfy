/** Result shapes shared by the order book and its collaborators.

    `Outcome` is what an awaited collaborator call (subscribe, snapshot fetch)
    hands back; `CallResult` is the exchange library's own result record, a
    data slot plus a nullable error, which is what the order book returns to
    its caller and what the wait-for-first-book call returns to it.
 */
module CallResults {

  /** A C# nullable value or reference: `None` stands for null. */
  datatype Option<+T> = None | Some(value: T) {

    /** C#'s `x ?? fallback`: the value when it is not null. */
    function GetOr(fallback: T): T {
      match this
      case Some(v) => v
      case None => fallback
    }
  }

  /** An error reported by a REST or socket call; its contents are opaque here. */
  datatype Error = Error(code: int, message: string)

  /** How an awaited subscribe or snapshot call came back: with its data, or
      with the error it reported instead. */
  datatype Outcome<+T> = Ok(value: T) | Fail(error: Error)

  /** A call result: data together with an error that is absent on success. */
  datatype CallResult<+T> = CallResult(data: T, error: Option<Error>) {

    /** The result converts to `true` exactly when it carries no error. */
    predicate Success() {
      error.None?
    }
  }
}
