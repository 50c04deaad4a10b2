/** The basic values shared by the other modules. */
module Bytes {
  /** The values of `uint8_t`. */
  type Byte = b: int | 0 <= b < 256

  /** The values of `int64_t`. */
  type Int64 = i: int | -0x8000_0000_0000_0000 <= i < 0x8000_0000_0000_0000

  datatype Option<T> = None | Some(value: T)

  /** What a buffer of n bytes keeps of a C string, with `snprintf` or with `strncpy` into zeroed bytes. */
  function Fit(s: string, n: nat): (r: string)
    requires n > 0
    ensures r <= s && |r| == if |s| < n then |s| else n - 1
    ensures |s| < n ==> r == s
  {
    if |s| < n then s else s[..n - 1]
  }

  function Pow2(n: nat): (p: nat)
    ensures p > 0
  {
    if n == 0 then 1 else 2 * Pow2(n - 1)
  }
}
