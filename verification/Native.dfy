/** Fixed-size integers, and how the machine lays them out in memory. */
module Native {
  const TWO_31: int := 0x8000_0000
  const TWO_32: int := 0x1_0000_0000
  const TWO_64: int := 0x1_0000_0000_0000_0000

  type uint16 = x: int | 0 <= x < 0x1_0000
  type uint32 = x: int | 0 <= x < 0x1_0000_0000
  type int32 = x: int | -0x8000_0000 <= x < 0x8000_0000

  /** A char of a ByteArray. */
  type byte = char

  function Pow256(k: nat): nat {
    if k == 0 then 1 else 256 * Pow256(k - 1)
  }

  function Digit(n: nat, i: nat): byte {
    if i == 0 then (n % 256) as byte else Digit(n / 256, i - 1)
  }

  /** A number of k bytes, least significant byte first. */
  function Layout(n: nat, k: nat): (b: seq<byte>)
    ensures |b| == k
  {
    seq(k, i requires 0 <= i => Digit(n, i))
  }

  function Number(b: seq<byte>): nat {
    if b == [] then 0 else b[0] as int + 256 * Number(b[1..])
  }

  lemma {:induction false} NumberOfLayout(n: nat, k: nat)
    requires n < Pow256(k)
    ensures Number(Layout(n, k)) == n
  {
    if k > 0 {
      assert Layout(n, k)[1..] == Layout(n / 256, k - 1);
      NumberOfLayout(n / 256, k - 1);
    }
  }

  /** A signed number in k bytes, in two's complement. */
  function SignedLayout(x: int, k: nat): (b: seq<byte>)
    requires 0 <= x + Pow256(k)
    ensures |b| == k
  {
    Layout(if x < 0 then x + Pow256(k) else x, k)
  }

  function SignedNumber(b: seq<byte>): int {
    var n, m := Number(b), Pow256(|b|);
    if 2 * n < m then n else n - m
  }

  lemma SignedNumberOfLayout(x: int, k: nat)
    requires 0 <= 2 * x + Pow256(k) && 2 * x < Pow256(k)
    ensures SignedNumber(SignedLayout(x, k)) == x
  {
    NumberOfLayout(if x < 0 then x + Pow256(k) else x, k);
  }

  /** An int. */
  function Bytes(x: int32): (b: seq<byte>)
    ensures |b| == 4
  {
    Int32Fits();
    SignedLayout(x, 4)
  }

  function Value(b: seq<byte>): int {
    SignedNumber(b)
  }

  lemma Int32Fits()
    ensures Pow256(4) == TWO_32
  {
    assert Pow256(1) == 256 && Pow256(2) == 0x1_0000 && Pow256(3) == 0x100_0000;
  }

  lemma ValueOfBytes(x: int32)
    ensures Value(Bytes(x)) == x
  {
    Int32Fits();
    SignedNumberOfLayout(x, 4);
  }
}
