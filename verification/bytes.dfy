/** Bytes, and their values as numbers. */
module Bytes {
  type Byte = bv8

  function FromByte(b: Byte): (n: nat)
    ensures n < 256
  {
    b as int
  }

  /** The byte with a given value. */
  function ToByte(n: nat): (b: Byte)
    requires n < 256
    ensures FromByte(b) == n
  {
    if n == 0 then 0 else
      var b := ToByte(n - 1);
      NextByte(b);
      b + 1
  }

  lemma NextByte(b: Byte)
    ensures b != 255 <==> b as int < 255
    ensures b != 255 ==> (b + 1) as int == b as int + 1
  {
  }
}
