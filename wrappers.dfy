/** Java's nullable references and thrown exceptions, as values. */
module Wrappers {

  /** A nullable Java value: `None` is `null`. */
  datatype Option<T> = None | Some(value: T) {
    /** `if (x == null) x = fallback`. */
    function GetOr(fallback: T): T { if Some? then value else fallback }
  }

  /** Why an IllegalArgumentException was thrown. */
  datatype Reason =
    | NullOrZeroId            // idValidation: "id cannot be 0 or null"
    | NoSuchId                // idValidation: "does not exist with this id"
    | NewIdZero               // create guard of the services that refuse id 0
    | NewIdNotZero            // StoreService.create: "New store id can only 0 or null"
    | NullIdLookup            // Spring Data refuses findById(null)
    | WrongUnit(text: string) // spreadsheet unit cell that names no Unit
    | NotOwnedData            // spreadsheet cell beyond the entity's columns
    | BadDirection            // Sort.Direction.fromString on a token that is neither asc nor desc
    | AtCell(cause: Reason, row: int, column: int) // cause, with ". Cell address" appended

  /** The exceptions the modelled code throws or lets escape. */
  datatype Error =
    | IllegalArgument(reason: Reason)
    | NotFound
    | BadRequest
    | NullPointer
    | IndexOutOfBounds
    | NoSuchElement
    | IllegalState
    | IncorrectResultSize     // a single-result repository query that matched several rows

  /** A Java call that returns a `T` or throws. */
  datatype Result<T> = Ok(value: T) | Err(error: Error) {
    predicate IsFailure() { Err? }
    function PropagateFailure<U>(): Result<U> requires Err? { Err(error) }
    function Extract(): T requires Ok? { value }
  }

  /** A Java `void` call that returns normally or throws. */
  datatype Outcome = Pass | Fail(error: Error) {
    predicate IsFailure() { Fail? }
    function PropagateFailure<U>(): Result<U> requires Fail? { Err(error) }
  }
}
