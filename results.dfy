/** Failure-carrying values: the exceptions that the template compiler raises become data. */
module Results {

  datatype Option<+T> = None | Some(value: T)

  /** Why tokenizing or parsing a template stops. */
  datatype Error =
    | MissingTypeWord(token: string)   // `is_stmt(token, type_)`: the token has no second word (IndexError)
    | EmptyStatement(token: string)    // a statement marker whose interior has no word at all (IndexError)
    | MarkerNotFound(marker: string)   // `list.index` found no token equal to `marker` (ValueError)
    | EndlessLoop(token: string)       // an `if` whose `endif` scan returned -1: the source then loops forever

  datatype Result<+T> = Ok(value: T) | Err(error: Error) {
    predicate IsFailure() { Err? }

    function PropagateFailure<U>(): Result<U>
      requires Err?
    {
      Err(error)
    }

    function Extract(): T
      requires Ok?
    {
      value
    }
  }
}
