/**
 * Optional values (Java's nullable references) and results (a value or the
 * exception a service method throws).
 */
module Wrappers {

  datatype Option<T> = None | Some(value: T)
  {
    /** Java's `x != null ? x : d`. */
    function GetOr(d: T): (r: T)
      ensures Some? ==> r == value
      ensures None? ==> r == d
    {
      match this
      case None => d
      case Some(v) => v
    }
  }

  datatype Result<T, E> = Success(value: T) | Failure(error: E)

  /**
   * The exceptions the modelled services throw, by class. Messages that are
   * constant in the source are kept; messages that embed a uuid or a
   * username are not.
   */
  datatype ServiceError =
    | UsernameNotFound                  // UsernameNotFoundException
    | ResourceNotFound                  // ResourceNotFoundException
    | AccessDenied(message: string)     // AccessDeniedException
    | IllegalArgument(message: string)  // IllegalArgumentException
    | IllegalState(message: string)     // IllegalStateException
    | UploadFailed                      // RuntimeException wrapping an IOException
    | NullPointer                       // NullPointerException
    | IncorrectResultSize               // a single-result query that matched two rows
    | IndexOutOfBounds                  // StringIndexOutOfBoundsException
    | MessagingFailure                  // MessagingException
    | IOFailure                         // IOException from the media API
}
