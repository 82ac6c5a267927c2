// Rust and `windows` crate vocabulary shared by every module of the model:
// Option, the crate's Result (whose error is always a windows::core::Error),
// fixed-width integers and HRESULT status codes.
module Core {

  newtype i32 = x: int | -0x8000_0000 <= x < 0x8000_0000
  newtype u32 = x: int | 0 <= x < 0x1_0000_0000
  newtype i64 = x: int | -0x8000_0000_0000_0000 <= x < 0x8000_0000_0000_0000
  type byte = bv8

  const TWO_TO_THE_32: int := 0x1_0000_0000

  datatype Option<+T> = None | Some(value: T) {
    function GetOr(default: T): (r: T)
      ensures Some? ==> r == value
      ensures None? ==> r == default
    {
      match this
      case Some(v) => v
      case None => default
    }
  }

  /** An HRESULT is a signed 32-bit status; it reports an error exactly when it is negative. */
  type HResult = i32

  /** The `windows` crate's error, reduced to the HRESULT it carries (its message is not modelled). */
  datatype Error = Error(code: HResult)

  /** windows::core::Result<T>. */
  datatype Result<+T> = Ok(value: T) | Err(error: Error)

  /** Reinterprets the 32 bits of an unsigned hexadecimal constant as an HRESULT. */
  function HResultOf(bits: u32): (h: HResult)
    ensures h as int % TWO_TO_THE_32 == bits as int
  {
    if bits < 0x8000_0000 then bits as int as i32 else (bits as int - TWO_TO_THE_32) as i32
  }

  /** E_INVALIDARG, 0x80070057. */
  const E_INVALIDARG: HResult := HResultOf(0x8007_0057)

  /** HRESULT::is_err */
  predicate IsErr(h: HResult) {
    h < 0
  }

  /** HRESULT::ok: Ok when the status is a success code, otherwise the error carrying that status. */
  function StatusResult(h: HResult): (r: Result<()>)
    ensures r.Ok? <==> !IsErr(h)
    ensures r.Err? ==> r.error.code == h
  {
    if h < 0 then Err(Error(h)) else Ok(())
  }

  // Sequence facts shared by the proofs.

  /** A non-empty sequence is its front followed by its last element. */
  lemma LastSplit<T>(s: seq<T>)
    requires s != []
    ensures s == s[..|s| - 1] + [s[|s| - 1]]
  {
  }

  /** The last element of a + b, and what comes before it, when b is non-empty. */
  lemma AppendLast<T>(a: seq<T>, b: seq<T>)
    ensures b == [] ==> a + b == a
    ensures b != [] ==> (a + b)[..|a + b| - 1] == a + b[..|b| - 1] && (a + b)[|a + b| - 1] == b[|b| - 1]
  {
  }

  lemma AppendAssoc<T>(a: seq<T>, b: seq<T>, c: seq<T>)
    ensures a + (b + c) == (a + b) + c
  {
  }
}
