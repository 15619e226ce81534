// Number codecs at the edges of the system: decimal strings to field bytes, negation of a curve
// point, and token amounts to and from human-readable strings.
module Codecs {
  import opened Prelude
  import opened Bytes

  // ---------- decimal digits ----------

  predicate IsDigit(c: char) {
    '0' <= c <= '9'
  }

  predicate AllDigits(s: string) {
    forall i :: 0 <= i < |s| ==> IsDigit(s[i])
  }

  predicate DecimalDigits(d: seq<nat>) {
    forall i :: 0 <= i < |d| ==> d[i] <= 9
  }

  /** Value of a list of decimal digits. */
  function DecValue(d: seq<nat>): nat {
    if d == [] then 0 else DecValue(d[..|d| - 1]) * 10 + d[|d| - 1]
  }

  function DigitsOf(s: string): (d: seq<nat>)
    requires AllDigits(s)
    ensures |d| == |s| && DecimalDigits(d)
    ensures forall i :: 0 <= i < |s| ==> d[i] == (s[i] as int) - ('0' as int)
  {
    seq(|s|, i requires 0 <= i < |s| => (s[i] as int) - ('0' as int))
  }

  // ---------- decToBe32 ----------

  /** One pass of long division by 256: every quotient digit stays a decimal digit. */
  method DivideBy256(digits: seq<nat>) returns (next: seq<nat>, rem: nat)
    requires DecimalDigits(digits)
    ensures rem < 256 && DecimalDigits(next)
    ensures DecValue(digits) == DecValue(next) * 256 + rem
  {
    rem := 0;
    next := [];
    for i := 0 to |digits|
      invariant rem < 256 && DecimalDigits(next)
      invariant DecValue(digits[..i]) == DecValue(next) * 256 + rem
    {
      assert digits[..i + 1][..i] == digits[..i];
      var cur := rem * 10 + digits[i];
      var q := cur / 256;
      rem := cur % 256;
      ghost var before := next;
      if !(|next| == 0 && q == 0) {
        next := next + [q];
        assert next[..|next| - 1] == before;
      }
      assert DecValue(next) == DecValue(before) * 10 + q;
    }
    assert digits[..|digits|] == digits;
  }

  lemma {:induction false} ZeroBytes(len: nat)
    ensures AllZero(BytesBE(0, len))
  {
    if len > 0 {
      ZeroBytes(len - 1);
    }
  }

  /** `decToBe32`: the low 32 bytes of the decimal value, big-endian; anything but digits is refused. */
  method DecToBe32(s: string) returns (r: Option<bytes>)
    ensures r.None? <==> s == "" || !AllDigits(s)
    ensures r.Some? ==> r.value == BytesBE(DecValue(DigitsOf(s)), 32)
  {
    if s == "" || !AllDigits(s) {
      return None;
    }
    var digits := DigitsOf(s);
    ghost var n := DecValue(digits);
    var out := new uint8[32](_ => 0);
    var byteIdx := 32;
    assert out[32..] == [];
    while |digits| > 0 && byteIdx > 0
      invariant 0 <= byteIdx <= 32 && DecimalDigits(digits)
      invariant BytesBE(n, 32) == BytesBE(DecValue(digits), byteIdx) + out[byteIdx..]
      invariant forall i :: 0 <= i < byteIdx ==> out[i] == 0
      decreases byteIdx
    {
      ghost var v, tail := DecValue(digits), out[byteIdx..];
      var next, rem := DivideBy256(digits);
      byteIdx := byteIdx - 1;
      out[byteIdx] := rem;
      digits := next;
      assert v / 256 == DecValue(next) && v % 256 == rem;
      assert out[byteIdx..] == [rem] + tail;
      assert BytesBE(v, byteIdx + 1) + tail == BytesBE(v / 256, byteIdx) + ([rem] + tail);
    }
    if byteIdx > 0 {
      ZeroBytes(byteIdx);
      assert out[..byteIdx] == BytesBE(0, byteIdx);
      assert out[..] == out[..byteIdx] + out[byteIdx..];
    } else {
      assert out[..] == out[0..] && BytesBE(DecValue(digits), 0) == [];
    }
    return Some(out[..]);
  }

  // ---------- subBe and negateG1 ----------

  lemma {:induction false} ValuePrepend(x: uint8, s: bytes)
    ensures ValueBE([x] + s) == x * Pow256(|s|) + ValueBE(s)
  {
    if s == [] {
      assert [x] + s == [x] && [x][..0] == [];
    } else {
      var t := s[..|s| - 1];
      ValuePrepend(x, t);
      assert ([x] + s)[..|s|] == [x] + t;
      assert x * Pow256(|s|) == x * Pow256(|t|) * 256;
    }
  }

  const TWO_256: int := 0x1_0000_0000_0000_0000_0000_0000_0000_0000_0000_0000_0000_0000_0000_0000_0000_0000

  lemma Wraps(x: int)
    requires -TWO_256 <= x < TWO_256
    ensures x % TWO_256 == if x < 0 then x + TWO_256 else x
  {
  }

  lemma BorrowStep(a: int, b: int, o: int, borrowed: int, borrow: int, w: int)
    requires o == a - b - borrowed + 256 * borrow
    ensures a * w - b * w - borrowed * w == o * w - borrow * (256 * w)
  {
  }

  /** `out` and `borrow` are the difference of two equally long strings. */
  ghost predicate Difference(a: bytes, b: bytes, out: bytes, borrow: int) {
    && |a| == |b| == |out| && 0 <= borrow <= 1
    && ValueBE(a) - ValueBE(b) == ValueBE(out) - borrow * Pow256(|out|)
  }

  lemma DifferenceGrows(x: uint8, a: bytes, y: uint8, b: bytes, o: uint8, out: bytes, borrowed: int, borrow: int)
    requires Difference(a, b, out, borrowed) && 0 <= borrow <= 1
    requires o == x - y - borrowed + 256 * borrow
    ensures Difference([x] + a, [y] + b, [o] + out, borrow)
  {
    ValuePrepend(x, a);
    ValuePrepend(y, b);
    ValuePrepend(o, out);
    BorrowStep(x, y, o, borrowed, borrow, Pow256(|out|));
  }

  lemma DifferenceWraps(d: int, out: bytes, borrow: int)
    requires Pow256(|out|) == TWO_256 && 0 <= borrow <= 1
    requires d == ValueBE(out) - borrow * Pow256(|out|)
    ensures out == BytesBE(d % TWO_256, |out|)
  {
    ValueBound(out);
    Wraps(d);
    BytesOfValue(out);
  }

  /** The loop of `subBe`: from the last byte to the first, with a borrow. */
  method SubtractBytes(a: bytes, b: bytes) returns (r: bytes, borrow: int)
    requires |a| == |b|
    ensures Difference(a, b, r, borrow)
  {
    var out := new uint8[|a|](_ => 0);
    var carried: int := 0;
    var i := |a|;
    assert a[i..] == [] && b[i..] == [] && out[i..] == [];
    while i > 0
      invariant 0 <= i <= |a| == out.Length && Difference(a[i..], b[i..], out[i..], carried)
    {
      ghost var tailA, tailB, tail, borrowed := a[i..], b[i..], out[i..], carried;
      i := i - 1;
      var diff := (a[i] as int) - b[i] - carried;
      if diff < 0 {
        out[i] := diff + 256;
        carried := 1;
      } else {
        out[i] := diff;
        carried := 0;
      }
      assert a[i..] == [a[i]] + tailA && b[i..] == [b[i]] + tailB && out[i..] == [out[i]] + tail;
      DifferenceGrows(a[i], tailA, b[i], tailB, out[i], tail, borrowed, carried);
    }
    assert a[0..] == a && b[0..] == b && out[0..] == out[..];
    return out[..], carried;
  }

  lemma PowOfWord(n: nat)
    requires n == 32
    ensures Pow256(n) == TWO_256
  {
    Pow256At32();
  }

  /** `subBe` refuses operands that are not 32 bytes; otherwise the difference modulo 2^256. */
  method SubBe(a: bytes, b: bytes) returns (r: Option<bytes>)
    ensures r.None? <==> |a| != 32 || |b| != 32
    ensures r.Some? ==> r.value == BytesBE((ValueBE(a) - ValueBE(b)) % TWO_256, 32)
  {
    if |a| != 32 || |b| != 32 {
      return None;
    }
    var out, borrow := SubtractBytes(a, b);
    PowOfWord(|out|);
    DifferenceWraps(ValueBE(a) - ValueBE(b), out, borrow);
    return Some(out);
  }

  /** The base-field modulus of BN254. */
  const BN254_P: int := 0x30644e72e131a029b85045b68181585d97816a916871ca8d3c208c16d87cfd47

  /** `negateG1` keeps x and replaces y by `P - y` modulo 2^256. */
  function NegateG1(point: bytes): (r: bytes)
    requires |point| == 64
    ensures |r| == 64
  {
    point[..32] + BytesBE((BN254_P - ValueBE(point[32..])) % TWO_256, 32)
  }

  method NegateG1Bytes(point: bytes) returns (r: Option<bytes>)
    ensures r.None? <==> |point| != 64
    ensures r.Some? ==> r.value == NegateG1(point)
  {
    if |point| != 64 {
      return None;
    }
    var p := BytesBE(BN254_P, 32);
    Pow256At32();
    ValueOfBytes(BN254_P, 32);
    var yNeg := SubBe(p, point[32..]);
    return Some(point[..32] + yNeg.value);
  }

  lemma ValueOfWord(v: nat, len: nat)
    requires len == 32 && v < TWO_256
    ensures ValueBE(BytesBE(v, len)) == v
  {
    Pow256At32();
    ValueOfBytes(v, len);
  }

  lemma SecondPart(s: bytes, t: bytes)
    ensures (s + t)[|s|..] == t
  {
  }

  lemma YOfNegation(point: bytes)
    requires |point| == 64
    ensures ValueBE(NegateG1(point)[32..]) == (BN254_P - ValueBE(point[32..])) % TWO_256
  {
    var v := (BN254_P - ValueBE(point[32..])) % TWO_256;
    SecondPart(point[..32], BytesBE(v, 32));
    ValueOfWord(v, 32);
  }

  lemma YBound(point: bytes)
    requires |point| == 64
    ensures ValueBE(point[32..]) < TWO_256
  {
    Pow256At32();
    ValueBound(point[32..]);
  }

  lemma NegatedTwice(y: int)
    requires 0 <= y < TWO_256
    ensures (BN254_P - (BN254_P - y) % TWO_256) % TWO_256 == y
  {
    Wraps(BN254_P - y);
    Wraps(BN254_P - (BN254_P - y) % TWO_256);
  }

  /** Negating twice gives every 64-byte string back. */
  lemma NegateInvolution(point: bytes)
    requires |point| == 64
    ensures NegateG1(NegateG1(point)) == point
  {
    YOfNegation(point);
    YBound(point);
    NegatedTwice(ValueBE(point[32..]));
    BytesOfValue(point[32..]);
    assert NegateG1(point)[..32] == point[..32];
  }

  lemma WrapIsFieldNegation(y: int)
    requires 0 <= y < TWO_256
    ensures (BN254_P - y) % TWO_256 == (BN254_P - y % BN254_P) % BN254_P <==> 1 <= y <= BN254_P
  {
    Wraps(BN254_P - y);
    if y > BN254_P {
      assert (BN254_P - y) % TWO_256 > BN254_P;
    }
  }

  /** It is the field negation, as documented, exactly when y is between 1 and the modulus: zero is
      sent to the modulus itself and larger values wrap around 2^256. */
  lemma NegatesInFieldIff(point: bytes)
    requires |point| == 64
    ensures ValueBE(NegateG1(point)[32..]) == (BN254_P - ValueBE(point[32..]) % BN254_P) % BN254_P
       <==> 1 <= ValueBE(point[32..]) <= BN254_P
  {
    YOfNegation(point);
    YBound(point);
    WrapIsFieldNegation(ValueBE(point[32..]));
  }

  // ---------- toAtoms and fromAtoms ----------

  function DigitChar(n: nat): (c: char)
    requires n <= 9
    ensures IsDigit(c) && (c as int) - ('0' as int) == n
  {
    ('0' as int + n) as char
  }

  /** `BigInt.toString` of a non-negative number. */
  function Dec(n: nat): (s: string)
    ensures |s| > 0 && AllDigits(s)
  {
    if n < 10 then [DigitChar(n)] else Dec(n / 10) + [DigitChar(n % 10)]
  }

  /** `BigInt` of a digit string. */
  function StringValue(s: string): nat
    requires AllDigits(s)
  {
    if s == "" then 0 else StringValue(s[..|s| - 1]) * 10 + ((s[|s| - 1] as int) - ('0' as int))
  }

  function Repeat(c: char, n: nat): (s: string)
    ensures |s| == n && forall i :: 0 <= i < n ==> s[i] == c
  {
    seq(n, _ => c)
  }

  function PadStart(s: string, n: nat): string {
    if |s| >= n then s else Repeat('0', n - |s|) + s
  }

  function PadEnd(s: string, n: nat): string {
    if |s| >= n then s else s + Repeat('0', n - |s|)
  }

  /** Drops trailing zeros. */
  function StripZeros(s: string): string {
    if s != "" && s[|s| - 1] == '0' then StripZeros(s[..|s| - 1]) else s
  }

  lemma {:induction false} StripFacts(s: string)
    ensures |StripZeros(s)| <= |s| && StripZeros(s) == s[..|StripZeros(s)|]
    ensures forall i :: |StripZeros(s)| <= i < |s| ==> s[i] == '0'
  {
    if s != "" && s[|s| - 1] == '0' {
      StripFacts(s[..|s| - 1]);
    }
  }

  function Numeral(intPart: string, fracPart: string): string {
    if fracPart != "" then intPart + "." + fracPart else intPart
  }

  function Signed(neg: bool, body: string): (s: string)
    ensures body != "" ==> s != "" && s[|s| - 1] == body[|body| - 1]
    ensures body != "" ==> s[0] == if neg then '-' else body[0]
  {
    if neg then "-" + body else body
  }

  datatype Amount = Amount(negative: bool, intPart: string, fracPart: string)

  /** The integer and fraction digits `fromAtoms` prints. */
  function Split(v: int, decimals: nat): Amount {
    var digits := if v < 0 then Dec(-v) else Dec(v);
    if decimals == 0 then Amount(v < 0, digits, "")
    else
      var s := PadStart(digits, decimals + 1);
      var cut := if |s| >= decimals then |s| - decimals else 0;
      Amount(v < 0, s[..cut], StripZeros(s[cut..]))
  }

  /** `fromAtoms` of an integer. */
  function FromAtoms(v: int, decimals: nat): string {
    var a := Split(v, decimals);
    Signed(a.negative, Numeral(a.intPart, a.fracPart))
  }

  predicate IsSpace(c: char) {
    c == ' ' || c == '\t' || c == '\n' || c == '\r'
  }

  function TrimStart(s: string): string {
    if s != "" && IsSpace(s[0]) then TrimStart(s[1..]) else s
  }

  function TrimEnd(s: string): string {
    if s != "" && IsSpace(s[|s| - 1]) then TrimEnd(s[..|s| - 1]) else s
  }

  /** Position of the first dot, or the length. */
  function Dot(s: string): (k: nat)
    ensures k <= |s| && forall i :: 0 <= i < k ==> s[i] != '.'
    ensures k < |s| ==> s[k] == '.'
  {
    if s == "" || s[0] == '.' then 0 else 1 + Dot(s[1..])
  }

  /** The pattern: optional minus, digits, and optionally a dot followed by digits. */
  function ParseAmount(raw: string): Option<Amount> {
    var neg := raw != "" && raw[0] == '-';
    var body := if neg then raw[1..] else raw;
    var k := Dot(body);
    if k == 0 || !AllDigits(body[..k]) then None
    else if k == |body| then Some(Amount(neg, body, ""))
    else if k + 1 == |body| || !AllDigits(body[k + 1..]) then None
    else Some(Amount(neg, body[..k], body[k + 1..]))
  }

  /** The number a parsed amount stands for; `None` if it has more digits than the mint. */
  function AmountValue(a: Amount, decimals: nat): Option<int> {
    var all := a.intPart + PadEnd(a.fracPart, decimals);
    if |a.fracPart| > decimals || !AllDigits(all) then None
    else Some(if a.negative then -(StringValue(all) as int) else StringValue(all))
  }

  /** `toAtoms` of a string; `None` is an exception: bad syntax, or more digits than the mint has. */
  function ToAtoms(human: string, decimals: nat): Option<int> {
    var raw := TrimEnd(TrimStart(human));
    if raw == "" then Some(0)
    else
      match ParseAmount(raw)
      case None => None
      case Some(a) => AmountValue(a, decimals)
  }

  lemma {:induction false} DecRoundTrip(n: nat)
    ensures StringValue(Dec(n)) == n
  {
    if n >= 10 {
      DecRoundTrip(n / 10);
      assert Dec(n)[..|Dec(n)| - 1] == Dec(n / 10);
    } else {
      assert Dec(n)[..0] == "";
    }
  }

  lemma {:induction false} LeadingZeros(k: nat, s: string)
    requires AllDigits(s)
    ensures AllDigits(Repeat('0', k) + s) && StringValue(Repeat('0', k) + s) == StringValue(s)
    decreases k + |s|
  {
    if s != "" {
      var t := s[..|s| - 1];
      LeadingZeros(k, t);
      assert (Repeat('0', k) + s)[..k + |s| - 1] == Repeat('0', k) + t;
    } else if k > 0 {
      LeadingZeros(k - 1, "");
      assert (Repeat('0', k) + s)[..k - 1] == Repeat('0', k - 1) + "";
    }
  }

  lemma StripPadRestores(s: string)
    ensures PadEnd(StripZeros(s), |s|) == s
  {
    StripFacts(s);
  }

  lemma {:induction false} DotAfterDigits(s: string, t: string)
    requires AllDigits(s)
    ensures Dot(s) == |s| && Dot(s + "." + t) == |s|
  {
    if s != "" {
      DotAfterDigits(s[1..], t);
      assert (s + "." + t)[1..] == s[1..] + "." + t && IsDigit(s[0]);
    }
  }

  lemma NumeralParses(intPart: string, fracPart: string)
    requires intPart != "" && AllDigits(intPart) && AllDigits(fracPart)
    ensures var body := Numeral(intPart, fracPart);
      && body != "" && IsDigit(body[0]) && IsDigit(body[|body| - 1])
      && ParseAmount(body) == Some(Amount(false, intPart, fracPart))
      && ParseAmount("-" + body) == Some(Amount(true, intPart, fracPart))
  {
    var body := Numeral(intPart, fracPart);
    assert body[0] == intPart[0] && IsDigit(body[0]);
    DotAfterDigits(intPart, fracPart);
    assert ("-" + body)[1..] == body;
    assert body[..|intPart|] == intPart;
    if fracPart != "" {
      assert body[|intPart| + 1..] == fracPart;
    }
  }

  /** Digits, and optionally a dot and digits. */
  function Unsigned(a: Amount): string {
    if a.fracPart == "" then a.intPart else a.intPart + "." + a.fracPart
  }

  lemma SplitAt(s: string, k: nat)
    requires k < |s| && s[k] == '.'
    ensures s == s[..k] + "." + s[k + 1..]
  {
  }

  lemma MinusSplit(raw: string)
    requires raw != "" && raw[0] == '-'
    ensures raw == "-" + raw[1..]
  {
  }

  lemma ParsedParts(raw: string, body: string, k: nat, a: Amount)
    requires ParseAmount(raw) == Some(a)
    requires body == (if raw != "" && raw[0] == '-' then raw[1..] else raw) && k == Dot(body)
    ensures a.negative == (raw != "" && raw[0] == '-')
    ensures 0 < k <= |body| && a.intPart == body[..k] && AllDigits(a.intPart)
    ensures if k == |body| then a.fracPart == "" else a.fracPart != "" && a.fracPart == body[k + 1..]
    ensures AllDigits(a.fracPart)
  {
  }

  /** A string parses exactly if it is an optional minus, digits, and optionally a dot and digits; and
      then into those digits. */
  lemma ParsesExactly(raw: string, a: Amount)
    ensures ParseAmount(raw) == Some(a) <==>
      && a.intPart != "" && AllDigits(a.intPart) && AllDigits(a.fracPart)
      && raw == if a.negative then "-" + Unsigned(a) else Unsigned(a)
  {
    var body := if raw != "" && raw[0] == '-' then raw[1..] else raw;
    var k := Dot(body);
    if ParseAmount(raw) == Some(a) {
      ParsedParts(raw, body, k, a);
      if k < |body| {
        SplitAt(body, k);
      }
      if a.negative {
        MinusSplit(raw);
      }
    } else if a.intPart != "" && AllDigits(a.intPart) && AllDigits(a.fracPart) {
      SignedParses(a.negative, a.intPart, a.fracPart);
    }
  }

  lemma NothingToTrim(raw: string)
    requires raw != "" && !IsSpace(raw[0]) && !IsSpace(raw[|raw| - 1])
    ensures TrimEnd(TrimStart(raw)) == raw
  {
  }

  lemma SignedParses(neg: bool, intPart: string, fracPart: string)
    requires intPart != "" && AllDigits(intPart) && AllDigits(fracPart)
    ensures ParseAmount(Signed(neg, Numeral(intPart, fracPart))) == Some(Amount(neg, intPart, fracPart))
  {
    NumeralParses(intPart, fracPart);
  }

  lemma SignedNeedsNoTrim(neg: bool, intPart: string, fracPart: string)
    requires intPart != "" && AllDigits(intPart) && AllDigits(fracPart)
    ensures var raw := Signed(neg, Numeral(intPart, fracPart)); raw != "" && TrimEnd(TrimStart(raw)) == raw
  {
    NumeralParses(intPart, fracPart);
    NothingToTrim(Signed(neg, Numeral(intPart, fracPart)));
  }

  /** A sign and a numeral read back as the number they spell. */
  lemma NumeralReadsBack(raw: string, a: Amount, decimals: nat)
    requires a.intPart != "" && AllDigits(a.intPart) && AllDigits(a.fracPart)
    requires raw == Signed(a.negative, Numeral(a.intPart, a.fracPart))
    ensures ToAtoms(raw, decimals) == AmountValue(a, decimals)
  {
    SignedParses(a.negative, a.intPart, a.fracPart);
    SignedNeedsNoTrim(a.negative, a.intPart, a.fracPart);
  }

  lemma PaddedValue(abs: nat, decimals: nat)
    ensures var s := PadStart(Dec(abs), decimals + 1);
      AllDigits(s) && StringValue(s) == abs && |s| > decimals
  {
    DecRoundTrip(abs);
    if |Dec(abs)| < decimals + 1 {
      LeadingZeros(decimals + 1 - |Dec(abs)|, Dec(abs));
    }
  }

  lemma CutPadded(s: string, decimals: nat)
    requires AllDigits(s) && |s| > decimals
    ensures var frac := StripZeros(s[|s| - decimals..]);
      && |frac| <= decimals && AllDigits(frac)
      && s[..|s| - decimals] + PadEnd(frac, decimals) == s
  {
    var rest := s[|s| - decimals..];
    assert |rest| == decimals;
    StripFacts(rest);
    StripPadRestores(rest);
    assert s == s[..|s| - decimals] + rest;
  }

  lemma WholeValue(v: int)
    ensures var a := Split(v, 0);
      && a.negative == (v < 0) && a.intPart != "" && AllDigits(a.intPart) && a.fracPart == ""
      && AmountValue(a, 0) == Some(v)
  {
    var abs := if v < 0 then -v else v;
    DecRoundTrip(abs);
    assert Dec(abs) + PadEnd("", 0) == Dec(abs);
  }

  lemma ValueOfParts(a: Amount, decimals: nat, s: string)
    requires a.intPart + PadEnd(a.fracPart, decimals) == s && |a.fracPart| <= decimals && AllDigits(s)
    ensures AmountValue(a, decimals) == Some(if a.negative then -(StringValue(s) as int) else StringValue(s))
  {
  }

  lemma PadStartLength(s: string, n: nat)
    ensures |PadStart(s, n)| >= n
  {
  }

  lemma SplitPadded(v: int, decimals: nat)
    requires decimals > 0
    ensures
      var s := PadStart(Dec(if v < 0 then -v else v), decimals + 1);
      && |s| > decimals
      && Split(v, decimals) == Amount(v < 0, s[..|s| - decimals], StripZeros(s[|s| - decimals..]))
  {
    var digits := Dec(if v < 0 then -v else v);
    PadStartLength(digits, decimals + 1);
    assert digits == if v < 0 then Dec(-v) else Dec(v);
  }

  lemma PaddedSplitValue(v: int, decimals: nat)
    requires decimals > 0
    ensures var a := Split(v, decimals);
      && a.negative == (v < 0) && a.intPart != "" && AllDigits(a.intPart) && AllDigits(a.fracPart)
      && AmountValue(a, decimals) == Some(v)
  {
    var abs := if v < 0 then -v else v;
    SplitPadded(v, decimals);
    PaddedValue(abs, decimals);
    CutPadded(PadStart(Dec(abs), decimals + 1), decimals);
    ValueOfParts(Split(v, decimals), decimals, PadStart(Dec(abs), decimals + 1));
  }

  /** The printed parts spell the amount. */
  lemma SplitValue(v: int, decimals: nat)
    ensures var a := Split(v, decimals);
      && a.negative == (v < 0) && a.intPart != "" && AllDigits(a.intPart) && AllDigits(a.fracPart)
      && AmountValue(a, decimals) == Some(v)
  {
    if decimals == 0 {
      WholeValue(v);
    } else {
      PaddedSplitValue(v, decimals);
    }
  }

  /** Formatting and parsing back is the identity, for every amount and every number of decimals. */
  lemma AtomsRoundTrip(v: int, decimals: nat)
    ensures ToAtoms(FromAtoms(v, decimals), decimals) == Some(v)
  {
    SplitValue(v, decimals);
    NumeralReadsBack(FromAtoms(v, decimals), Split(v, decimals), decimals);
  }

  lemma OneMoreDigit(a: Amount, decimals: nat)
    requires AmountValue(a, decimals).Some?
    ensures AmountValue(a, decimals + 1) == Some(10 * AmountValue(a, decimals).value)
  {
    var padded, more := PadEnd(a.fracPart, decimals), PadEnd(a.fracPart, decimals + 1);
    assert more == padded + "0";
    assert a.intPart + more == (a.intPart + padded) + "0";
    ZeroAppended(a.intPart + padded);
  }

  lemma ZeroAppended(s: string)
    requires AllDigits(s)
    ensures AllDigits(s + "0") && StringValue(s + "0") == 10 * StringValue(s)
  {
    assert (s + "0")[..|s|] == s;
  }

  /** A mint with one more decimal makes of the same string ten times as many atoms. */
  lemma OneMoreDecimal(human: string, decimals: nat)
    requires ToAtoms(human, decimals).Some?
    ensures ToAtoms(human, decimals + 1) == Some(10 * ToAtoms(human, decimals).value)
  {
    var raw := TrimEnd(TrimStart(human));
    if raw != "" {
      OneMoreDigit(ParseAmount(raw).value, decimals);
    }
  }

  // ---------- surrounding whitespace ----------

  predicate AllSpace(s: string) {
    forall i :: 0 <= i < |s| ==> IsSpace(s[i])
  }

  lemma {:induction false} LeadingSpace(a: string, s: string)
    requires AllSpace(a)
    ensures TrimStart(a + s) == TrimStart(s)
  {
    if a == "" {
      assert a + s == s;
    } else {
      LeadingSpace(a[1..], s);
      assert (a + s)[1..] == a[1..] + s && (a + s)[0] == a[0];
    }
  }

  lemma {:induction false} TrailingSpace(s: string, b: string)
    requires AllSpace(b)
    ensures TrimEnd(s + b) == TrimEnd(s)
  {
    if b == "" {
      assert s + b == s;
    } else {
      var t := b[..|b| - 1];
      TrailingSpace(s, t);
      assert (s + b)[..|s + b| - 1] == s + t && (s + b)[|s + b| - 1] == b[|b| - 1];
    }
  }

  lemma {:induction false} TrimStartKeepsEnd(s: string, b: string)
    requires AllSpace(b)
    ensures TrimStart(s + b) == TrimStart(s) + b || (TrimStart(s + b) == "" && TrimStart(s) == "")
  {
    if s == "" {
      assert s + b == b + "";
      LeadingSpace(b, "");
    } else if IsSpace(s[0]) {
      TrimStartKeepsEnd(s[1..], b);
      assert (s + b)[1..] == s[1..] + b && (s + b)[0] == s[0];
    } else {
      assert (s + b)[0] == s[0];
    }
  }

  /** Whitespace around an amount does not change what it means. */
  lemma SpaceIgnored(a: string, s: string, b: string)
    requires AllSpace(a) && AllSpace(b)
    ensures forall decimals :: ToAtoms(a + s + b, decimals) == ToAtoms(s, decimals)
  {
    assert a + s + b == a + (s + b);
    LeadingSpace(a, s + b);
    TrimStartKeepsEnd(s, b);
    TrailingSpace(TrimStart(s), b);
  }
}
