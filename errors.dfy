/** The crate's single error type and its `Result` alias (src/errors.rs).
    The source carries a formatted message; the model carries which error
    it is and the data the message names. */
module Errors {

  datatype Option<+T> = None | Some(value: T)

  datatype Error =
    /** "line N: Expected `)`, found EOF." */
    | MissingParen(line: nat)
    /** "Key `k` must be a single string." */
    | NotSingleString(key: string)
    /** "`raw` is not a valid C standard. Valid standards are: ..." */
    | InvalidStandard(raw: string)
    /** "Each flag must be an identifier." */
    | FlagNotIdent
    /** "Key `flags` must be an array." */
    | FlagsNotArray
    /** "`raw` is not a valid project type. ..." */
    | InvalidType(raw: string)
    /** "Failed to summon command: `program args`: ..." */
    | LaunchFailed(program: string, args: seq<string>)
    /** "Aborting at first failed command." */
    | CommandFailed

  datatype Result<+T> = Ok(value: T) | Err(error: Error) {

    predicate IsFailure() {
      Err?
    }

    function PropagateFailure<U>(): Result<U>
      requires Err?
    {
      Err(error)
    }

    function Extract(): T
      requires Ok?
    {
      value
    }
  }
}
