// Byte strings and the numbers they encode.
module Bytes {
  import opened Prelude

  type bytes = seq<uint8>

  function Pow256(n: nat): (r: nat)
    ensures r >= 1
  {
    if n == 0 then 1 else 256 * Pow256(n - 1)
  }

  /** Big-endian value. */
  function ValueBE(b: bytes): nat {
    if b == [] then 0 else ValueBE(b[..|b| - 1]) * 256 + b[|b| - 1]
  }

  /** The low `len` bytes of `n`, big-endian. */
  function BytesBE(n: nat, len: nat): (b: bytes)
    ensures |b| == len
  {
    if len == 0 then [] else BytesBE(n / 256, len - 1) + [n % 256]
  }

  /** Little-endian value. */
  function ValueLE(b: bytes): nat {
    if b == [] then 0 else b[0] + 256 * ValueLE(b[1..])
  }

  function BytesLE(n: nat, len: nat): (b: bytes)
    ensures |b| == len
  {
    if len == 0 then [] else [n % 256] + BytesLE(n / 256, len - 1)
  }

  lemma {:induction false} ValueBound(b: bytes)
    ensures ValueBE(b) < Pow256(|b|)
  {
    if b != [] {
      ValueBound(b[..|b| - 1]);
    }
  }

  /** Decoding an encoded number gives it back if it fits. */
  lemma {:induction false} ValueOfBytes(n: nat, len: nat)
    requires n < Pow256(len)
    ensures ValueBE(BytesBE(n, len)) == n
  {
    if len > 0 {
      ValueOfBytes(n / 256, len - 1);
      var b := BytesBE(n, len);
      assert b[..|b| - 1] == BytesBE(n / 256, len - 1);
    }
  }

  /** Encoding a decoded string gives it back. */
  lemma {:induction false} BytesOfValue(b: bytes)
    ensures BytesBE(ValueBE(b), |b|) == b
  {
    if b != [] {
      var t := b[..|b| - 1];
      BytesOfValue(t);
      assert ValueBE(b) / 256 == ValueBE(t) && ValueBE(b) % 256 == b[|b| - 1];
      assert b == t + [b[|b| - 1]];
    }
  }

  lemma {:induction false} ValueOfBytesLE(n: nat, len: nat)
    requires n < Pow256(len)
    ensures ValueLE(BytesLE(n, len)) == n
  {
    if len > 0 {
      ValueOfBytesLE(n / 256, len - 1);
      assert BytesLE(n, len)[1..] == BytesLE(n / 256, len - 1);
    }
  }

  predicate AllZero(b: bytes) {
    forall i :: 0 <= i < |b| ==> b[i] == 0
  }

  lemma {:induction false} ZeroValue(b: bytes)
    ensures ValueBE(b) == 0 <==> AllZero(b)
  {
    if b != [] {
      ZeroValue(b[..|b| - 1]);
    }
  }

  lemma {:induction false} Pow256Add(a: nat, b: nat)
    ensures Pow256(a + b) == Pow256(a) * Pow256(b)
  {
    if b > 0 {
      Pow256Add(a, b - 1);
    }
  }

  lemma Pow256At32()
    ensures Pow256(32) == 0x1_0000_0000_0000_0000_0000_0000_0000_0000_0000_0000_0000_0000_0000_0000_0000_0000
    ensures Pow256(16) == 0x1_0000_0000_0000_0000_0000_0000_0000_0000
    ensures Pow256(8) == 0x1_0000_0000_0000_0000
  {
    assert Pow256(1) == 256;
    Pow256Add(1, 1);
    Pow256Add(2, 2);
    Pow256Add(4, 4);
    Pow256Add(8, 8);
    Pow256Add(16, 16);
  }

  // ---------- division ----------

  lemma {:induction false} MulStep(a: nat, b: nat, w: nat)
    requires a > b
    ensures a * w >= b * w + w
  {
    assert a * w == (a - 1) * w + w;
    if a - 1 > b {
      MulStep(a - 1, b, w);
    }
  }

  /** Quotient and remainder are unique. */
  lemma ModUnique(a: nat, q: nat, r: nat, w: nat)
    requires w > 0 && a == q * w + r && r < w
    ensures a / w == q && a % w == r
  {
    var q', r' := a / w, a % w;
    assert a == q' * w + r';
    if q' > q {
      MulStep(q', q, w);
    } else if q > q' {
      MulStep(q, q', w);
    }
  }
}
