// The number model of 32-byte strings, byte by byte: the mask of a derived field element and the
// halves of a pubkey.
module FieldBytes {
  import opened Prelude
  import opened Bytes
  import opened Crypto

  lemma MaskStep(n: nat, m: nat)
    requires m > 0
    ensures n % (256 * m) / 256 == n / 256 % m && n % (256 * m) % 256 == n % 256
  {
    var q, r := n / 256 / m, n / 256 % m;
    assert n / 256 == q * m + r;
    var low := 256 * r + n % 256;
    assert n == q * (256 * m) + low by {
      assert 256 * (q * m) == q * (256 * m);
    }
    ModUnique(n, q, low, 256 * m);
  }

  /** `x` with its first byte cleared and the top nibble of its second. */
  function Masked(x: bytes): bytes
    requires |x| >= 2
  {
    [0, x[1] % 16] + x[2..]
  }

  lemma MaskedAppend(n: nat, r: nat, k: nat)
    requires k > 0 && r % 256 == n % 256 && BytesBE(r / 256, k + 1) == Masked(BytesBE(n / 256, k + 1))
    ensures BytesBE(r, k + 2) == Masked(BytesBE(n, k + 2))
  {
    var t := BytesBE(n / 256, k + 1);
    assert BytesBE(n, k + 2) == t + [n % 256];
    assert (t + [n % 256])[2..] == t[2..] + [n % 256];
  }

  lemma TwoBytes(n: nat)
    ensures BytesBE(n, 2) == [n / 256 % 256, n % 256]
  {
    assert BytesBE(n / 256, 1) == BytesBE(n / 256 / 256, 0) + [n / 256 % 256];
  }

  lemma LowNibble(n: nat)
    ensures n % 256 % 16 == n % 16
  {
    var q, low := n / 256, n % 256;
    var h, l := low / 16, low % 16;
    assert n == (q * 16 + h) * 16 + l;
    ModUnique(n, q * 16 + h, l, 16);
  }

  lemma NibbleBytes(r: nat)
    requires r < 16
    ensures BytesBE(r, 2) == [0, r]
  {
    TwoBytes(r);
  }

  lemma MaskedTwo(n: nat)
    ensures BytesBE(n % 16, 2) == Masked(BytesBE(n, 2))
  {
    TwoBytes(n);
    LowNibble(n);
    NibbleBytes(n % 16);
  }

  /** The remainder by 16 times a power of 256 masks the two bytes above that power. */
  lemma {:induction false} MaskedBytes(n: nat, k: nat, m: nat)
    requires m == 16 * Pow256(k)
    ensures BytesBE(n % m, k + 2) == Masked(BytesBE(n, k + 2))
  {
    if k == 0 {
      MaskedTwo(n);
    } else {
      var m' := 16 * Pow256(k - 1);
      MaskStep(n, m');
      MaskedBytes(n / 256, k - 1, m');
      MaskedAppend(n, n % m, k);
    }
  }

  /** A derived nonce or blinding factor is the hash with byte 0 and the top nibble of byte 1 cleared. */
  lemma DerivedBytes(hs: Hashes, tag: DeriveTag, id: uint64, role: uint8)
    ensures
      var h := BytesBE(hs.deriveSha(tag, id, role), 32);
      BytesBE(Derive(hs, tag, id, role), 32) == [0, h[1] % 16] + h[2..]
  {
    Pow256At32();
    Pow256Add(16, 8);
    Pow256Add(24, 4);
    Pow256Add(28, 2);
    assert Pow256(1) == 256 && Pow256(2) == 0x1_0000;
    Pow256Add(2, 2);
    assert 16 * Pow256(30) == TWO_244;
    MaskedBytes(hs.deriveSha(tag, id, role), 30, TWO_244);
  }

  lemma {:induction false} ValueSplits(a: bytes, b: bytes)
    ensures ValueBE(a + b) == ValueBE(a) * Pow256(|b|) + ValueBE(b)
  {
    if b == [] {
      assert a + b == a;
    } else {
      var t := b[..|b| - 1];
      ValueSplits(a, t);
      assert (a + b)[..|a + b| - 1] == a + t;
      assert ValueBE(a) * Pow256(|t|) * 256 == ValueBE(a) * Pow256(|b|);
    }
  }

  /** A pubkey enters the hash as its last 16 bytes and its first 16 bytes. */
  lemma MintHalves(key: bytes)
    requires |key| == 32
    ensures ValueBE(key) < Pow256(32) && Pow256(32) == TWO_128 * TWO_128
    ensures MintLow(ValueBE(key)) == ValueBE(key[16..]) && MintHigh(ValueBE(key)) == ValueBE(key[..16])
  {
    var high, low := key[..16], key[16..];
    Pow256At32();
    ValueBound(key);
    ValueBound(low);
    ValueSplits(high, low);
    assert key == high + low;
    ModUnique(ValueBE(key), ValueBE(high), ValueBE(low), TWO_128);
  }
}
