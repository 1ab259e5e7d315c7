/**
  What every form handler of the views does before it calls the server:
  either it shows an error message and stops, or it sends a payload. File
  pickers add a size limit in bytes, checked as `file.size > limit`, so a
  file of exactly the limit passes.
*/
module Forms {
  import opened Base

  /** The outcome of a submit handler: the error toast it shows, or the payload it sends. */
  datatype Submit<T> = Invalid(message: string) | Send(payload: T)

  /** `n * 1024 * 1024`. */
  function MiB(n: nat): nat {
    n * 1024 * 1024
  }

  /** A file picker: nothing picked, a file over the limit, or a file to upload. */
  datatype FileCheck = NoFile | TooLarge(message: string) | Upload(size: nat)

  function CheckFile(size: Option<nat>, limit: nat, message: string): (r: FileCheck)
    ensures r.NoFile? <==> size.None?
    ensures r.TooLarge? <==> size.Some? && size.value > limit
    ensures r.TooLarge? ==> r.message == message
    ensures r.Upload? ==> size == Some(r.size) && r.size <= limit
  {
    match size
    case None => NoFile
    case Some(n) => if n > limit then TooLarge(message) else Upload(n)
  }

  /** The limit itself is accepted and one byte more is not. */
  lemma LimitIsInclusive(limit: nat, message: string)
    ensures CheckFile(Some(limit), limit, message) == Upload(limit)
    ensures CheckFile(Some(limit + 1), limit, message) == TooLarge(message)
  {
  }
}
