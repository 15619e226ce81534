// The NIST SP 800-185 framing both key-derivation implementations feed to SHAKE256.
module Kmac {
  import opened Prelude
  import opened Bytes

  // ---------- minimal big-endian numbers ----------

  /** The base-256 digits of `x` without leading zeros; none for zero. */
  function Digits(x: nat): bytes {
    if x == 0 then [] else Digits(x / 256) + [x % 256]
  }

  lemma {:induction false} DigitsValue(x: nat)
    ensures ValueBE(Digits(x)) == x
  {
    if x > 0 {
      DigitsValue(x / 256);
      assert Digits(x)[..|Digits(x)| - 1] == Digits(x / 256);
    }
  }

  lemma {:induction false} DigitsLength(x: nat, n: nat)
    requires x < Pow256(n)
    ensures |Digits(x)| <= n
  {
    if x > 0 && n > 0 {
      DigitsLength(x / 256, n - 1);
    }
  }

  /** Dropping the leading zeros of a fixed-width encoding leaves the minimal one. */
  lemma {:induction false} TrimmedIsDigits(x: nat, n: nat, z: nat)
    requires x < Pow256(n) && z <= n && AllZero(BytesBE(x, n)[..z]) && (z < n ==> BytesBE(x, n)[z] != 0)
    ensures BytesBE(x, n)[z..] == Digits(x)
  {
    if n > 0 {
      var b := BytesBE(x, n);
      var t := BytesBE(x / 256, n - 1);
      assert b == t + [x % 256];
      if z == n {
        ZeroValue(b);
        ValueOfBytes(x, n);
        assert b[..z] == b && b[z..] == [];
      } else if z == n - 1 {
        assert t[..z] == b[..z];
        TrimmedIsDigits(x / 256, n - 1, z);
        assert b[z..] == t[z..] + [x % 256];
      } else {
        assert t[..z] == b[..z] && t[z] == b[z];
        TrimmedIsDigits(x / 256, n - 1, z);
        assert b[z..] == t[z..] + [x % 256];
        ZeroValue(b);
        ValueOfBytes(x, n);
        assert b[z] != 0;
      }
    }
  }

  /** `left_encode`: the byte count, then the digits; zero takes one digit. */
  function LeftEncode(x: nat): bytes {
    if x == 0 then [1, 0] else if |Digits(x)| < 256 then [|Digits(x)|] + Digits(x) else []
  }

  /** `right_encode`: the digits, then their count. */
  function RightEncode(x: nat): bytes {
    if x == 0 then [0, 1] else if |Digits(x)| < 256 then Digits(x) + [|Digits(x)|] else []
  }

  /** `encode_string`: the length in bits, then the string. */
  function EncodeString(s: bytes): bytes {
    LeftEncode(8 * |s|) + s
  }

  /** How far `n` is below the next multiple of `w`. */
  function PadCount(n: nat, w: nat): nat
    requires w > 0
  {
    if n % w == 0 then 0 else w - n % w
  }

  function Zeros(n: nat): bytes {
    seq(n, _ => 0)
  }

  /** `bytepad`: the width, the input, and zeros up to a multiple of the width. */
  function BytePad(x: bytes, w: nat): bytes
    requires w > 0
  {
    LeftEncode(w) + x + Zeros(PadCount(|LeftEncode(w) + x|, w))
  }

  const RATE: nat := 136

  function AbsorbedAs(name: bytes, key: bytes, custom: bytes, data: bytes, outLen: nat): bytes {
    BytePad(EncodeString(name) + EncodeString(custom), RATE) + BytePad(EncodeString(key), RATE) + data + RightEncode(8 * outLen)
  }

  /** The four letters KMAC. */
  const KMAC_NAME: bytes := [0x4B, 0x4D, 0x41, 0x43]

  /** The string absorbed by `kmac256`. */
  function Absorbed(key: bytes, custom: bytes, data: bytes, outLen: nat): bytes {
    AbsorbedAs(KMAC_NAME, key, custom, data, outLen)
  }

  // ---------- the framing of one derivation, byte by byte ----------

  lemma SmallNumbers()
    ensures LeftEncode(32) == [1, 32] && LeftEncode(136) == [1, 136] && LeftEncode(512) == [2, 2, 0]
    ensures RightEncode(512) == [2, 0, 2]
    ensures forall n :: 0 <= n < 256 ==> LeftEncode(n) == [1, n]
  {
    forall n | 0 <= n < 256 ensures LeftEncode(n) == [1, n] {
      if n > 0 {
        assert Digits(n) == Digits(n / 256) + [n % 256];
      }
    }
    assert Digits(2) == Digits(0) + [2];
    assert Digits(512) == Digits(2) + [0];
  }

  /** What is absorbed for a 64-byte seed, a customization string of under 32 bytes and 64 bytes of
      output: two blocks of 136 bytes, the data, and the output length in bits. */
  lemma SeedFraming(seed: bytes, custom: bytes, data: bytes)
    requires |seed| == 64 && |custom| < 32
    ensures Absorbed(seed, custom, data, 64) ==
      ([1, 136] + ([1, 32, 0x4B, 0x4D, 0x41, 0x43] + ([1, 8 * |custom|] + custom)) + seq(126 - |custom|, _ => 0))
      + ([1, 136] + ([2, 2, 0] + seed) + seq(67, _ => 0)) + data + [2, 0, 2]
  {
    SmallNumbers();
    var header := EncodeString(KMAC_NAME) + EncodeString(custom);
    assert EncodeString(KMAC_NAME) == [1, 32, 0x4B, 0x4D, 0x41, 0x43];
    assert EncodeString(custom) == [1, 8 * |custom|] + custom;
    assert EncodeString(seed) == [2, 2, 0] + seed;
    assert BytePad(header, RATE) == [1, 136] + header + seq(126 - |custom|, _ => 0);
    assert BytePad(EncodeString(seed), RATE) == [1, 136] + EncodeString(seed) + seq(67, _ => 0);
  }

  // ---------- self-delimiting encodings ----------

  predicate FitsU64(x: nat) {
    x < 0x1_0000_0000_0000_0000
  }

  lemma LeftEncodeShape(x: nat)
    requires FitsU64(x)
    ensures |LeftEncode(x)| >= 2 && LeftEncode(x)[0] == |LeftEncode(x)| - 1
    ensures ValueBE(LeftEncode(x)[1..]) == x
  {
    Pow256At32();
    DigitsLength(x, 8);
    DigitsValue(x);
    if x > 0 {
      assert LeftEncode(x)[1..] == Digits(x);
    } else {
      assert ValueBE([0]) == 0;
    }
  }

  lemma PartsEqual(a: bytes, b: bytes, r: bytes, s: bytes)
    requires a + r == b + s && |a| == |b|
    ensures a == b && r == s
  {
    assert a == (a + r)[..|a|] && b == (b + s)[..|b|];
    assert r == (a + r)[|a|..] && s == (b + s)[|b|..];
  }

  /** `left_encode` needs no terminator: its first byte says where it ends. */
  lemma LeftEncodeSelfDelimiting(x: nat, y: nat, r: bytes, s: bytes)
    requires FitsU64(x) && FitsU64(y) && LeftEncode(x) + r == LeftEncode(y) + s
    ensures x == y && r == s
  {
    LeftEncodeShape(x);
    LeftEncodeShape(y);
    var a, b := LeftEncode(x), LeftEncode(y);
    assert (a + r)[0] == a[0] && (b + s)[0] == b[0];
    PartsEqual(a, b, r, s);
  }

  lemma EncodedThen(a: bytes, r: bytes)
    ensures EncodeString(a) + r == LeftEncode(8 * |a|) + (a + r)
  {
    Reassociate(LeftEncode(8 * |a|), a, r);
  }

  lemma Reassociate(a: bytes, b: bytes, c: bytes)
    ensures (a + b) + c == a + (b + c)
  {
  }

  /** A concatenation of encoded strings parses in one way only. */
  lemma EncodeStringSelfDelimiting(a: bytes, b: bytes, r: bytes, s: bytes)
    requires FitsU64(8 * |a|) && FitsU64(8 * |b|) && EncodeString(a) + r == EncodeString(b) + s
    ensures a == b && r == s
  {
    EncodedThen(a, r);
    EncodedThen(b, s);
    LeftEncodeSelfDelimiting(8 * |a|, 8 * |b|, a + r, b + s);
    PartsEqual(a, b, r, s);
  }

  /** `bytepad` returns a multiple of `w`, and the shortest that holds its input. */
  lemma BytePadShortest(x: bytes, w: nat)
    requires w > 0
    ensures |BytePad(x, w)| % w == 0
    ensures |LeftEncode(w) + x| <= |BytePad(x, w)| < |LeftEncode(w) + x| + w
    ensures LeftEncode(w) + x <= BytePad(x, w) && AllZero(BytePad(x, w)[|LeftEncode(w) + x|..])
  {
    PadLength(|LeftEncode(w) + x|, w);
  }

  lemma PadLength(n: nat, w: nat)
    requires w > 0
    ensures (n + PadCount(n, w)) % w == 0 && PadCount(n, w) < w
  {
    var q, m := n / w, n % w;
    assert n == q * w + m;
    if m > 0 {
      assert n + (w - m) == (q + 1) * w + 0;
      ModUnique(n + (w - m), q + 1, 0, w);
    }
  }

  // ---------- injectivity of the framing ----------

  /** Equal padded strings, with whatever follows, hold equal inputs up to the padding. */
  lemma PadStrips(x: bytes, x': bytes, w: nat, r: bytes, r': bytes)
    requires w > 0 && FitsU64(w) && BytePad(x, w) + r == BytePad(x', w) + r'
    ensures x + (Zeros(PadCount(|LeftEncode(w) + x|, w)) + r) == x' + (Zeros(PadCount(|LeftEncode(w) + x'|, w)) + r')
  {
    var h := LeftEncode(w);
    var z, z' := Zeros(PadCount(|h + x|, w)), Zeros(PadCount(|h + x'|, w));
    assert BytePad(x, w) + r == h + (x + (z + r));
    assert BytePad(x', w) + r' == h + (x' + (z' + r'));
    LeftEncodeSelfDelimiting(w, w, x + (z + r), x' + (z' + r'));
  }

  lemma TailsEqual(z: bytes, r: bytes, r': bytes)
    requires z + r == z + r'
    ensures r == r'
  {
    assert r == (z + r)[|z|..] && r' == (z + r')[|z|..];
  }

  lemma KeyPartInjective(key: bytes, key': bytes, r: bytes, r': bytes)
    requires FitsU64(8 * |key|) && FitsU64(8 * |key'|)
    requires BytePad(EncodeString(key), RATE) + r == BytePad(EncodeString(key'), RATE) + r'
    ensures key == key' && r == r'
  {
    var z, z' := Zeros(PadCount(|LeftEncode(RATE) + EncodeString(key)|, RATE)), Zeros(PadCount(|LeftEncode(RATE) + EncodeString(key')|, RATE));
    PadStrips(EncodeString(key), EncodeString(key'), RATE, r, r');
    EncodeStringSelfDelimiting(key, key', z + r, z' + r');
    TailsEqual(z, r, r');
  }

  lemma HeaderInjective(name: bytes, custom: bytes, custom': bytes, r: bytes, r': bytes)
    requires FitsU64(8 * |name|) && FitsU64(8 * |custom|) && FitsU64(8 * |custom'|)
    requires BytePad(EncodeString(name) + EncodeString(custom), RATE) + r == BytePad(EncodeString(name) + EncodeString(custom'), RATE) + r'
    ensures custom == custom' && r == r'
  {
    var n, x, x' := EncodeString(name), EncodeString(name) + EncodeString(custom), EncodeString(name) + EncodeString(custom');
    var z, z' := Zeros(PadCount(|LeftEncode(RATE) + x|, RATE)), Zeros(PadCount(|LeftEncode(RATE) + x'|, RATE));
    PadStrips(x, x', RATE, r, r');
    Reassociate(n, EncodeString(custom), z + r);
    Reassociate(n, EncodeString(custom'), z' + r');
    TailsEqual(n, EncodeString(custom) + (z + r), EncodeString(custom') + (z' + r'));
    EncodeStringSelfDelimiting(custom, custom', z + r, z' + r');
    TailsEqual(z, r, r');
  }

  lemma FramingInjectiveAs(name: bytes, key: bytes, custom: bytes, data: bytes, key': bytes, custom': bytes, data': bytes, outLen: nat)
    requires FitsU64(8 * |key|) && FitsU64(8 * |key'|) && FitsU64(8 * |custom|) && FitsU64(8 * |custom'|) && FitsU64(8 * |name|)
    requires AbsorbedAs(name, key, custom, data, outLen) == AbsorbedAs(name, key', custom', data', outLen)
    ensures key == key' && custom == custom' && data == data'
  {
    var e := RightEncode(8 * outLen);
    var k, k' := BytePad(EncodeString(key), RATE), BytePad(EncodeString(key'), RATE);
    var c, c' := BytePad(EncodeString(name) + EncodeString(custom), RATE), BytePad(EncodeString(name) + EncodeString(custom'), RATE);
    Reassociate(c + k, data, e);
    Reassociate(c, k, data + e);
    Reassociate(c' + k', data', e);
    Reassociate(c', k', data' + e);
    HeaderInjective(name, custom, custom', k + (data + e), k' + (data' + e));
    KeyPartInjective(key, key', data + e, data' + e);
    HeadsEqual(data, data', e);
  }

  lemma HeadsEqual(a: bytes, b: bytes, e: bytes)
    requires a + e == b + e
    ensures a == b
  {
    assert |a + e| == |b + e|;
    assert a == (a + e)[..|a|] && b == (b + e)[..|b|];
  }

  /** At a fixed output length, different (key, custom, data) absorb different strings. */
  lemma FramingInjective(key: bytes, custom: bytes, data: bytes, key': bytes, custom': bytes, data': bytes, outLen: nat)
    requires FitsU64(8 * |key|) && FitsU64(8 * |key'|) && FitsU64(8 * |custom|) && FitsU64(8 * |custom'|)
    requires Absorbed(key, custom, data, outLen) == Absorbed(key', custom', data', outLen)
    ensures key == key' && custom == custom' && data == data'
  {
    FramingInjectiveAs(KMAC_NAME, key, custom, data, key', custom', data', outLen);
  }

  // ---------- the two implementations ----------

  lemma TrimmedAtEight(x: uint64, n: nat, z: nat)
    requires x > 0 && n == 8 && z <= n && AllZero(BytesBE(x, n)[..z]) && (z < n ==> BytesBE(x, n)[z] != 0)
    ensures BytesBE(x, n)[z..] == Digits(x) && 1 <= |Digits(x)| <= 8
  {
    Pow256At32();
    TrimmedIsDigits(x, n, z);
    DigitsLength(x, n);
  }

  /** Rust: the eight big-endian bytes with leading zeros trimmed. */
  method TrimmedBytes(x: uint64) returns (b: bytes)
    requires x > 0
    ensures b == Digits(x) && 1 <= |b| <= 8
  {
    var all := BytesBE(x, 8);
    var z := 0;
    while z < |all| && all[z] == 0
      invariant z <= |all| && AllZero(all[..z])
    {
      z := z + 1;
    }
    b := all[z..];
    TrimmedAtEight(x, 8, z);
  }

  /** TypeScript: low bytes pushed to the front while something is left. */
  method UnshiftedBytes(x: nat) returns (b: bytes)
    ensures b == Digits(x)
  {
    b := [];
    var y := x;
    while y > 0
      invariant Digits(y) + b == Digits(x)
    {
      assert Digits(y) + b == Digits(y / 256) + ([y % 256] + b);
      b := [y % 256] + b;
      y := y / 256;
    }
    assert [] + b == b;
  }

  /** `left_encode` of the Rust crate. */
  method LeftEncodeRust(x: uint64) returns (r: bytes)
    ensures r == LeftEncode(x)
  {
    if x == 0 {
      return [1, 0];
    }
    var trimmed := TrimmedBytes(x);
    return [|trimmed|] + trimmed;
  }

  /** `leftEncode` of the SDK. */
  method LeftEncodeSdk(x: uint64) returns (r: bytes)
    ensures r == LeftEncode(x)
  {
    if x == 0 {
      return [1, 0];
    }
    var digits := UnshiftedBytes(x);
    Pow256At32();
    DigitsLength(x, 8);
    return [|digits|] + digits;
  }

  method RightEncodeRust(x: uint64) returns (r: bytes)
    ensures r == RightEncode(x)
  {
    if x == 0 {
      return [0, 1];
    }
    var trimmed := TrimmedBytes(x);
    return trimmed + [|trimmed|];
  }

  method RightEncodeSdk(x: uint64) returns (r: bytes)
    ensures r == RightEncode(x)
  {
    if x == 0 {
      return [0, 1];
    }
    var digits := UnshiftedBytes(x);
    Pow256At32();
    DigitsLength(x, 8);
    return digits + [|digits|];
  }

  /** `bytepad` of both implementations: zero bytes one at a time. */
  method BytePadLoop(x: bytes, w: nat) returns (v: bytes)
    requires 0 < w < 0x1_0000_0000_0000_0000
    ensures v == BytePad(x, w)
  {
    v := LeftEncode(w) + x;
    ghost var full := BytePad(x, w);
    BytePadShortest(x, w);
    while |v| % w != 0
      invariant |v| <= |full| && v == full[..|v|]
      decreases |full| - |v|
    {
      assert full[..|v| + 1] == full[..|v|] + [full[|v|]];
      assert full[|v|] == 0 by {
        assert |v| >= |LeftEncode(w) + x|;
      }
      v := v + [0];
    }
    OneMultiple(|LeftEncode(w) + x|, |v|, |full|, w);
  }

  /** At most one multiple of `w` lies in a window of length `w`. */
  lemma OneMultiple(n: nat, a: nat, b: nat, w: nat)
    requires w > 0 && n <= a <= b < n + w && a % w == 0 && b % w == 0
    ensures a == b
  {
    var i, j := a / w, b / w;
    assert a == i * w && b == j * w;
    if i < j {
      MulStep(j, i, w);
    } else if j < i {
      MulStep(i, j, w);
    }
  }
}
