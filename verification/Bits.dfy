/** Fixed-width unsigned words as bit sequences, least significant bit first. */
module Bits {
  type Byte = b: int | 0 <= b < 256

  function Pow2(k: nat): (p: nat)
    ensures p > 0
  {
    if k == 0 then 1 else 2 * Pow2(k - 1)
  }

  function ToBits(n: nat, k: nat): (bits: seq<bool>)
    ensures |bits| == k
    decreases k, n
  {
    if k == 0 then [] else [n % 2 == 1] + ToBits(n / 2, k - 1)
  }

  function FromBits(bits: seq<bool>): (n: nat)
    ensures n < Pow2(|bits|)
  {
    if bits == [] then 0 else (if bits[0] then 1 else 0) + 2 * FromBits(bits[1..])
  }

  lemma {:induction false} FromTo(n: nat, k: nat)
    requires n < Pow2(k)
    ensures FromBits(ToBits(n, k)) == n
    decreases k
  {
    if k > 0 {
      FromTo(n / 2, k - 1);
      assert ToBits(n, k)[1..] == ToBits(n / 2, k - 1);
    }
  }

  lemma {:induction false} ToFrom(bits: seq<bool>)
    ensures ToBits(FromBits(bits), |bits|) == bits
  {
    if bits != [] {
      ToFrom(bits[1..]);
      assert bits == [bits[0]] + bits[1..];
    }
  }

  lemma FromInjective(x: seq<bool>, y: seq<bool>)
    requires |x| == |y| && FromBits(x) == FromBits(y)
    ensures x == y
  {
    ToFrom(x);
    ToFrom(y);
  }

  lemma ToInjective(m: nat, n: nat, k: nat)
    requires m < Pow2(k) && n < Pow2(k) && ToBits(m, k) == ToBits(n, k)
    ensures m == n
  {
    FromTo(m, k);
    FromTo(n, k);
  }

  lemma PowersUsed()
    ensures Pow2(8) == 256 && Pow2(16) == 0x1_0000 && Pow2(32) == 0x1_0000_0000
  {
    assert Pow2(4) == 16;
    assert Pow2(12) == 4096;
    assert Pow2(20) == 0x10_0000;
    assert Pow2(28) == 0x1000_0000;
  }

  /** Bits above the value are zero. */
  lemma {:induction false} HighBitsZero(n: nat, j: nat, k: nat)
    requires n < Pow2(j) && j <= k
    ensures forall i :: j <= i < k ==> !ToBits(n, k)[i]
    decreases k
  {
    if j == 0 && k > 0 {
      HighBitsZero(0, 0, k - 1);
      assert forall i :: 1 <= i < k ==> ToBits(n, k)[i] == ToBits(n / 2, k - 1)[i - 1];
    } else if k > 0 {
      HighBitsZero(n / 2, j - 1, k - 1);
      assert forall i :: 1 <= i < k ==> ToBits(n, k)[i] == ToBits(n / 2, k - 1)[i - 1];
    }
  }

  /** The top bit of a `k`-bit value is set iff the value reaches 2^(k-1). */
  lemma {:induction false} TopBit(n: nat, k: nat)
    requires 0 < k && n < Pow2(k)
    ensures ToBits(n, k)[k - 1] <==> n >= Pow2(k - 1)
    decreases k
  {
    if k > 1 {
      TopBit(n / 2, k - 1);
      assert ToBits(n, k)[k - 1] == ToBits(n / 2, k - 1)[k - 2];
    }
  }

  function Xor(x: seq<bool>, y: seq<bool>): (r: seq<bool>)
    requires |x| == |y|
    ensures |r| == |x| && forall i :: 0 <= i < |x| ==> r[i] == (x[i] != y[i])
  {
    seq(|x|, i requires 0 <= i < |x| => x[i] != y[i])
  }

  function Zeros(k: nat): (r: seq<bool>)
    ensures |r| == k && forall i :: 0 <= i < k ==> !r[i]
  {
    seq(k, _ => false)
  }

  function Ones(k: nat): (r: seq<bool>)
    ensures |r| == k && forall i :: 0 <= i < k ==> r[i]
  {
    seq(k, _ => true)
  }

  /** A byte, as the bits `packet[i] & (1 << j)` tests. */
  function ByteBits(b: Byte): (bits: seq<bool>)
    ensures |bits| == 8
  {
    ToBits(b, 8)
  }

  function BitsByte(bits: seq<bool>): (b: Byte)
    requires |bits| == 8
  {
    PowersUsed();
    FromBits(bits)
  }

  lemma ByteRoundTrip(b: Byte)
    ensures BitsByte(ByteBits(b)) == b
  {
    PowersUsed();
    FromTo(b, 8);
  }
}
