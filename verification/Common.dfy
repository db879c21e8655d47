/** Small shared result types. */
module Common {
  datatype Option<+T> = None | Some(value: T)

  datatype ErrorKind =
    | NotFound | NotConnected | BrokenPipe | ConnectionReset | ConnectionRefused
    | TimedOut | AddrInUse | AddrNotAvailable | WouldBlock | FamilyNotSupported

  /** A poll: `Pending`, a value, or an I/O error. */
  datatype Poll<+T> = Pending | Ready(value: T) | Failed(error: ErrorKind)

  function Min(a: int, b: int): int {
    if a <= b then a else b
  }

  /** `usize::saturating_sub`. */
  function SaturatingSub(a: nat, b: nat): nat {
    if a <= b then 0 else a - b
  }
}
