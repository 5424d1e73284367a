/** What several modules share: bytes, optional values, runs of numbers and runs of zeros. */
module Common {

  type byte = x: int | 0 <= x < 256

  datatype Option<+T> = None | Some(value: T)

  function Zeros(n: nat): (z: seq<byte>)
    ensures |z| == n
  {
    seq(n, k requires k >= 0 => 0)
  }

  /** `n` numbers from `start` on. */
  function Range(start: nat, n: nat): (r: seq<nat>)
    ensures |r| == n && forall k :: 0 <= k < n ==> r[k] == start + k
  {
    seq(n, k requires k >= 0 => start + k)
  }
}
