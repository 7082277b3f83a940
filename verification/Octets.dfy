/** The bytes that travel on the wire and end in files. */
module Octets {
  type Octet = n: int | 0 <= n < 256

  function Zeros(n: nat): (r: seq<Octet>)
    ensures |r| == n
  {
    seq(n, _ => 0)
  }
}
