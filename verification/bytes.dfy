// Octets, shared by every component that moves bytes.
module Bytes {

  type Byte = b: int | 0 <= b < 256

  /** How a read call ends. */
  datatype ReadStatus = Good | Eof | Fault

  function Min(a: int, b: int): int { if a <= b then a else b }

  /** The first `n` octets of `s`, or all of it when it is shorter. */
  function Take(s: seq<Byte>, n: nat): (t: seq<Byte>)
    ensures t <= s
  {
    s[..Min(n, |s|)]
  }

  function Zeros(n: nat): (z: seq<Byte>)
    ensures |z| == n
  {
    seq(n, _ => 0)
  }
}
