/**
 * The exceptions that can reach the top-level handler of the program, their
 * place in Python's class hierarchy, and the text `str(e)` renders for each.
 */
module Errors {

  datatype Exception =
      /** RuntimeError raised when the first choice's text is empty after stripping. */
    | EmptyResponse
      /** RuntimeError wrapping a `requests` RequestException, whose own text is `cause`. */
    | CallFailed(cause: string)
      /** ValueError raised when the comparison verdict names neither version. */
    | UnexpectedVerdict(verdict: string)
      /** Reading input that is not valid UTF-8; UnicodeDecodeError is a ValueError. */
    | UnicodeDecodeError(detail: string)
      /** Opening a path that does not exist. */
    | FileNotFoundError(detail: string)
      /** Any other failure to open a file (permission denied, a directory, ...). */
    | OSError(detail: string)
      /** IndexError from `[][0]`: a present but empty `choices` array. */
    | IndexOutOfRange
      /** TypeError from `None[0]`: a `choices` member that is `null`. */
    | NoneNotSubscriptable
      /** AttributeError from `None.strip()`: a `text` member that is `null`. */
    | NoneHasNoStrip

  /** The exception classes named by the `except` clauses of the driver. */
  datatype Class = FileNotFoundErrorClass | RuntimeErrorClass | ValueErrorClass | ExceptionClass

  /** `isinstance(e, cls)`, following Python's built-in class hierarchy. */
  predicate IsInstance(e: Exception, cls: Class) {
    match cls
    case FileNotFoundErrorClass => e.FileNotFoundError?
    case RuntimeErrorClass => e.EmptyResponse? || e.CallFailed?
    case ValueErrorClass => e.UnexpectedVerdict? || e.UnicodeDecodeError?
    case ExceptionClass => true
  }

  /** `str(e)`. The built-in exceptions render CPython's own wording. */
  function Str(e: Exception): string {
    match e
    case EmptyResponse => "API returned an empty response."
    case CallFailed(cause) => "API call failed: " + cause
    case UnexpectedVerdict(verdict) => "Unexpected output from API during comparison: " + verdict
    case UnicodeDecodeError(detail) => detail
    case FileNotFoundError(detail) => detail
    case OSError(detail) => detail
    case IndexOutOfRange => "list index out of range"
    case NoneNotSubscriptable => "'NoneType' object is not subscriptable"
    case NoneHasNoStrip => "'NoneType' object has no attribute 'strip'"
  }
}
