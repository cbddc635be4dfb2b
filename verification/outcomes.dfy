/** Optional values, the error kinds the system raises, and a result type carrying either. */
module Outcomes {

  datatype Option<+T> = None | Some(value: T)

  /** The exception classes the core raises. The first five are subclasses of the
      repository's `DynamoMCPError`; `OsFailure` is Python's builtin `OSError` (of which
      the builtin name `EnvironmentError` is an alias), `TypeFailure` the builtin
      `TypeError`, `Validation` pydantic's `ValidationError` and `Integrity` the
      `sqlite3.IntegrityError` a violated table constraint raises. */
  datatype ErrorKind =
    | TemplateNotFound
    | TemplateExists
    | Environment
    | ProjectGeneration
    | InterfaceGeneration
    | OsFailure
    | TypeFailure
    | Validation
    | Integrity

  /** An exception: its class and the text `str(e)` gives. */
  datatype Error = Error(kind: ErrorKind, message: string)
  {
    /** True for the repository's own exception classes (subclasses of `DynamoMCPError`). */
    predicate IsDynamoError() { kind !in {OsFailure, TypeFailure, Validation, Integrity} }
  }

  datatype Result<+T> = Ok(value: T) | Err(error: Error)

  /** The outcome of spawning an external program: it ran and exited with a status and
      captured (decoded) output, or starting it raised an `OSError`: a
      `FileNotFoundError` when `missing` (no such program), another subclass such as
      `PermissionError` otherwise. */
  datatype Proc = Exited(code: int, stdout: string, stderr: string) | SpawnFailed(missing: bool, reason: string)

  /** The outside world's answer to running a command line. */
  type Runner = seq<string> -> Proc
}
