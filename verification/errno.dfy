/**
  Error numbers the two programs test for, and the classification the UDP echo
  program applies to a failed send.

  The numbers are those of Zephyr's minimal C library (the same values newlib
  uses). Nothing below depends on the particular values, only on their being
  distinct.
 */
module Errno {

  const EIO := 5
  const EAGAIN := 11
  const EACCES := 13
  const ENOBUFS := 105
  const ENETUNREACH := 114
  const EHOSTUNREACH := 118
  const EADDRNOTAVAIL := 125

  /** The categories a failed send is reported under. */
  datatype SendFailure =
    | NetworkUnreachable
    | HostUnreachable
    | AddressUnavailable
    | OutOfBuffers
    | PermissionDenied
    | IoError
    | Unspecified

  /** The errno a named category stands for; `Unspecified` stands for none. */
  function CodeOf(c: SendFailure): (e: int)
    requires c != Unspecified
    ensures e > 0
  {
    match c
    case NetworkUnreachable => ENETUNREACH
    case HostUnreachable => EHOSTUNREACH
    case AddressUnavailable => EADDRNOTAVAIL
    case OutOfBuffers => ENOBUFS
    case PermissionDenied => EACCES
    case IoError => EIO
  }

  /** The errno values that have a category of their own. */
  predicate Listed(errno: int) {
    errno in {ENETUNREACH, EHOSTUNREACH, EADDRNOTAVAIL, ENOBUFS, EACCES, EIO}
  }

  /**
    The switch on errno after a failed `sendto`: every listed errno gets its
    own category, every other value falls to `Unspecified`.
   */
  function Classify(errno: int): (c: SendFailure)
    ensures c == Unspecified <==> !Listed(errno)
    ensures c != Unspecified ==> CodeOf(c) == errno
  {
    if errno == ENETUNREACH then NetworkUnreachable
    else if errno == EHOSTUNREACH then HostUnreachable
    else if errno == EADDRNOTAVAIL then AddressUnavailable
    else if errno == ENOBUFS then OutOfBuffers
    else if errno == EACCES then PermissionDenied
    else if errno == EIO then IoError
    else Unspecified
  }

  /** Each named category is reached from its own errno, so `Classify` and `CodeOf` are inverse. */
  lemma ClassifyCodeOf(c: SendFailure)
    requires c != Unspecified
    ensures Classify(CodeOf(c)) == c
  {
  }

  /** Two errno values share a named category only if they are equal. */
  lemma ClassifyInjective(a: int, b: int)
    requires Classify(a) == Classify(b) != Unspecified
    ensures a == b
  {
  }
}
