/** Bytes as bit vectors. */
module Octets {

  lemma RoundTrip(a: int)
    requires 0 <= a < 256
    ensures (a as bv8) as int == a
  {
  }
}
