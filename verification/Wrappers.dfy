/** Values that may be absent, and the little integer arithmetic several modules share. */
module Wrappers {

  datatype Option<+T> = None | Some(value: T) {
    function GetOr(default: T): T {
      match this
      case Some(v) => v
      case None => default
    }
  }

  datatype Result<+T, +E> = Ok(value: T) | Err(error: E)

  const U64_LIMIT: nat := 0x1_0000_0000_0000_0000

  /** An unsigned 64-bit counter, which wraps when it is added to. */
  type u64 = n: nat | n < U64_LIMIT

  function Min(a: nat, b: nat): nat { if a <= b then a else b }

  function Max(a: nat, b: nat): nat { if a <= b then b else a }

  function SaturatingSub(a: nat, b: nat): nat { if b <= a then a - b else 0 }

  /** `n` times `d`, one at a time. */
  function Times(n: nat, d: nat): nat { if n == 0 then 0 else d + Times(n - 1, d) }

  lemma {:induction false} TimesIs(n: nat, d: nat)
    ensures Times(n, d) == n * d
  {
    if n > 0 {
      TimesIs(n - 1, d);
    }
  }
}
