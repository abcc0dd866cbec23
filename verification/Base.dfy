/** Integer widths, error codes and results shared by every component. */
module Base {
  type u8 = x: int | 0 <= x < 0x100
  type u16 = x: int | 0 <= x < 0x1_0000
  type u32 = x: int | 0 <= x < 0x1_0000_0000
  type u64 = x: int | 0 <= x < 0x1_0000_0000_0000_0000
  type i32 = x: int | -0x8000_0000 <= x < 0x8000_0000

  type bytes = seq<u8>

  const U32_MAX: u32 := 0xFFFF_FFFF
  const U64_MAX: u64 := 0xFFFF_FFFF_FFFF_FFFF

  datatype CoreError =
    | InvalidArgument
    | VersionMismatch
    | BadMagic
    | Malformed
    | TokenMismatch
    | SequenceError
    | InvalidState
    | LimitExceeded
    | WindowExhausted
    | Duplicate
    | NotFound
    | Unsupported
    | Internal

  datatype Option<+T> = None | Some(value: T)

  /** The outcome of an operation that may be refused. */
  datatype Result<+T> = Ok(value: T) | Err(error: CoreError) {
    predicate IsFailure() {
      Err?
    }

    function PropagateFailure<U>(): Result<U>
      requires Err?
    {
      Err(error)
    }

    function Extract(): T
      requires Ok?
    {
      value
    }
  }

  function Min(a: int, b: int): int {
    if a <= b then a else b
  }

  /** A buffer of n zero bytes. */
  function Zeros(n: nat): (s: bytes)
    ensures |s| == n
    ensures forall i :: 0 <= i < n ==> s[i] == 0
  {
    seq(n, _ => 0)
  }

  predicate AllZero(s: bytes) {
    forall i :: 0 <= i < |s| ==> s[i] == 0
  }

  lemma AllZeroIsZeros(s: bytes)
    requires AllZero(s)
    ensures s == Zeros(|s|)
  {
  }

  /** Splitting a concatenation at the seam gives back the two parts. */
  lemma Seam(a: bytes, b: bytes)
    ensures (a + b)[..|a|] == a
    ensures (a + b)[|a|..] == b
  {
  }

  /** A prefix is a shorter prefix and the slice after it. */
  lemma Cut(s: bytes, i: nat, j: nat)
    requires i <= j <= |s|
    ensures s[..j] == s[..i] + s[i..j]
  {
  }
}
