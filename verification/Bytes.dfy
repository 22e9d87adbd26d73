/** Bytes and big-endian integers. */
module Bytes {

  type byte = x: int | 0 <= x <= 0xff
  type u16 = x: nat | x <= 0xffff
  type u32 = x: nat | x <= 0xffff_ffff
  type u64 = x: nat | x <= 0xffff_ffff_ffff_ffff

  function Pow256(k: nat): (r: nat)
    ensures r > 0
  {
    if k == 0 then 1 else 256 * Pow256(k - 1)
  }

  /** The low `k` bytes of `n`, most significant first. */
  function ToBe(n: nat, k: nat): (s: seq<byte>)
    ensures |s| == k
  {
    if k == 0 then [] else ToBe(n / 256, k - 1) + [n % 256]
  }

  function FromBe(s: seq<byte>): (n: nat)
    ensures n < Pow256(|s|)
  {
    if s == [] then 0 else 256 * FromBe(s[..|s| - 1]) + s[|s| - 1]
  }

  lemma {:induction false} FromBeToBe(n: nat, k: nat)
    requires n < Pow256(k)
    ensures FromBe(ToBe(n, k)) == n
  {
    if k > 0 {
      FromBeToBe(n / 256, k - 1);
      assert ToBe(n, k)[..k - 1] == ToBe(n / 256, k - 1);
    }
  }

  lemma {:induction false} ToBeFromBe(s: seq<byte>)
    ensures ToBe(FromBe(s), |s|) == s
  {
    if s != [] {
      var init := s[..|s| - 1];
      ToBeFromBe(init);
      assert FromBe(s) / 256 == FromBe(init) && FromBe(s) % 256 == s[|s| - 1];
      assert s == init + [s[|s| - 1]];
    }
  }

  lemma PowersOf256()
    ensures Pow256(1) == 0x100 && Pow256(2) == 0x1_0000 && Pow256(4) == 0x1_0000_0000
    ensures Pow256(8) == 0x1_0000_0000_0000_0000
  {
    assert Pow256(2) == 256 * Pow256(1);
    assert Pow256(4) == 256 * Pow256(3) && Pow256(3) == 256 * Pow256(2);
    assert Pow256(5) == 256 * Pow256(4) && Pow256(6) == 256 * Pow256(5);
    assert Pow256(7) == 256 * Pow256(6) && Pow256(8) == 256 * Pow256(7);
  }

  function U32(s: seq<byte>): u32
    requires |s| == 4
  {
    PowersOf256(); FromBe(s)
  }

  function U64(s: seq<byte>): u64
    requires |s| == 8
  {
    PowersOf256(); FromBe(s)
  }

  lemma RoundTrip32(n: u32)
    ensures U32(ToBe(n, 4)) == n
  {
    PowersOf256();
    FromBeToBe(n, 4);
  }

  lemma RoundTrip64(n: u64)
    ensures U64(ToBe(n, 8)) == n
  {
    PowersOf256();
    FromBeToBe(n, 8);
  }
}
