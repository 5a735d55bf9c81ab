// The integers of a JSON Web Key as text: Base64urlUInt, section 2 of RFC 7518,
// over base64url, section 5 of RFC 4648.
module Jwks {
  import opened Options

  // ----- Integers and octets -----

  predicate IsOctets(b: seq<int>)
  {
    forall i :: 0 <= i < |b| ==> 0 <= b[i] < 256
  }

  function BitLength(n: nat): nat
  {
    if n == 0 then 0 else 1 + BitLength(n / 2)
  }

  /** `int.to_bytes(length, "big")`; the length has to suffice. */
  function ToBytes(n: nat, length: nat): (b: Option<seq<int>>)
    ensures b.Some? ==> IsOctets(b.value) && |b.value| == length
  {
    if length == 0 then (if n == 0 then Some([]) else None)
    else
      var high := ToBytes(n / 256, length - 1);
      if high.None? then None else Some(high.value + [n % 256])
  }

  function FromBytes(b: seq<int>): int
  {
    if b == [] then 0 else FromBytes(b[..|b| - 1]) * 256 + b[|b| - 1]
  }

  // ----- base64url -----

  function Letter(i: int): char
    requires 0 <= i < 64
  {
    if i < 26 then ('A' as int + i) as char
    else if i < 52 then ('a' as int + i - 26) as char
    else if i < 62 then ('0' as int + i - 52) as char
    else if i == 62 then '-' else '_'
  }

  function Sextet(c: char): Option<int>
  {
    if 'A' <= c <= 'Z' then Some(c as int - 'A' as int)
    else if 'a' <= c <= 'z' then Some(c as int - 'a' as int + 26)
    else if '0' <= c <= '9' then Some(c as int - '0' as int + 52)
    else if c == '-' then Some(62)
    else if c == '_' then Some(63)
    else None
  }

  predicate AreSextets(v: seq<int>)
  {
    forall i :: 0 <= i < |v| ==> 0 <= v[i] < 64
  }

  predicate AllLetters(s: string)
  {
    forall i :: 0 <= i < |s| ==> Sextet(s[i]).Some?
  }

  function Letters(v: seq<int>): string
    requires AreSextets(v)
  {
    seq(|v|, i requires 0 <= i < |v| => Letter(v[i]))
  }

  function Values(s: string): seq<int>
    requires AllLetters(s)
  {
    seq(|s|, i requires 0 <= i < |s| => Sextet(s[i]).value)
  }

  /** Octets regrouped by six bits, a last short group filled up with zero bits. */
  function Split(b: seq<int>): seq<int>
  {
    if |b| == 0 then []
    else if |b| == 1 then [b[0] / 4, b[0] % 4 * 16]
    else if |b| == 2 then [b[0] / 4, b[0] % 4 * 16 + b[1] / 16, b[1] % 16 * 4]
    else Quad(b[0], b[1], b[2]) + Split(b[3..])
  }

  function Quad(x: int, y: int, z: int): seq<int>
  {
    [x / 4, x % 4 * 16 + y / 16, y % 16 * 4 + z / 64, z % 64]
  }

  /** The inverse; an impossible length or a filling bit that is set gives None. */
  function Join(v: seq<int>): Option<seq<int>>
  {
    if |v| == 0 then Some([])
    else if |v| == 1 then None
    else if |v| == 2 then if v[1] % 16 == 0 then Some([v[0] * 4 + v[1] / 16]) else None
    else if |v| == 3 then
      if v[2] % 4 == 0 then Some([v[0] * 4 + v[1] / 16, v[1] % 16 * 16 + v[2] / 4]) else None
    else
      var rest := Join(v[4..]);
      if rest.None? then None else Some(Triple(v[0], v[1], v[2], v[3]) + rest.value)
  }

  function Triple(a: int, b: int, c: int, d: int): seq<int>
  {
    [a * 4 + b / 16, b % 16 * 16 + c / 4, c % 4 * 64 + d]
  }

  function Padding(n: nat): string
  {
    if n % 3 == 0 then "" else if n % 3 == 1 then "==" else "="
  }

  /** Base64url with padding to a multiple of four characters. */
  function UrlsafeB64Encode(b: seq<int>): string
    requires IsOctets(b)
  {
    SplitSextets(b);
    Letters(Split(b)) + Padding(|b|)
  }

  lemma {:induction false} SplitSextets(b: seq<int>)
    requires IsOctets(b)
    ensures AreSextets(Split(b)) && |Split(b)| == (4 * |b| + 2) / 3
  {
    if |b| >= 3 {
      SplitSextets(b[3..]);
      assert AreSextets(Quad(b[0], b[1], b[2]));
    }
  }

  function RStrip(s: string): string
  {
    if s != "" && s[|s| - 1] == '=' then RStrip(s[..|s| - 1]) else s
  }

  datatype Failure = OverflowError

  /** `_int_to_base64url`; a negative integer does not convert to unsigned octets. */
  function IntToBase64Url(value: int): (text: Result<string, Failure>)
  {
    if value < 0 then Err(OverflowError)
    else
      var octets := ToBytes(value, (BitLength(value) + 7) / 8);
      if octets.None? then Err(OverflowError)
      else Ok(RStrip(UrlsafeB64Encode(octets.value)))
  }

  /** Decoding of unpadded base64url; refuses foreign characters, impossible lengths and filling bits that are set. */
  function Decode(s: string): Option<seq<int>>
  {
    if AllLetters(s) then Join(Values(s)) else None
  }

  // ----- Minimal octets -----

  /** The bit length grows by eight when an octet is put behind. */
  lemma BitLengthShift(n: nat)
    requires n >= 256
    ensures BitLength(n) == BitLength(n / 256) + 8
  {
    var a := n / 2;
    var b := a / 2;
    var c := b / 2;
    var d := c / 2;
    var e := d / 2;
    var f := e / 2;
    var g := f / 2;
    var h := g / 2;
    assert h == n / 256 && g >= 1;
    assert BitLength(n) == 1 + BitLength(a) && BitLength(a) == 1 + BitLength(b);
    assert BitLength(b) == 1 + BitLength(c) && BitLength(c) == 1 + BitLength(d);
    assert BitLength(d) == 1 + BitLength(e) && BitLength(e) == 1 + BitLength(f);
    assert BitLength(f) == 1 + BitLength(g) && BitLength(g) == 1 + BitLength(h);
  }

  lemma {:induction false} BitLengthOfOctet(n: nat, k: nat)
    requires 1 <= n < Pow2(k)
    ensures 1 <= BitLength(n) <= k
  {
    if n >= 2 { BitLengthOfOctet(n / 2, k - 1); } else { assert BitLength(1) == 1 + BitLength(0); }
  }

  function Pow2(k: nat): nat
  {
    if k == 0 then 1 else 2 * Pow2(k - 1)
  }

  function ByteLength(n: nat): nat
  {
    (BitLength(n) + 7) / 8
  }

  lemma ByteLengthStep(n: nat)
    requires n > 0
    ensures ByteLength(n) == 1 + ByteLength(n / 256)
  {
    if n < 256 {
      assert Pow2(8) == 256 by {
        assert Pow2(4) == 16;
        assert Pow2(8) == 2 * (2 * (2 * (2 * Pow2(4))));
      }
      BitLengthOfOctet(n, 8);
    } else {
      BitLengthShift(n);
    }
  }

  /** The octets of a positive integer are as few as possible and give the integer back. */
  lemma {:induction false} OctetsAreMinimal(n: nat)
    ensures var b := ToBytes(n, ByteLength(n));
            && b.Some? && |b.value| == ByteLength(n) && IsOctets(b.value) && FromBytes(b.value) == n
            && (n > 0 ==> b.value != [] && b.value[0] > 0)
  {
    if n > 0 {
      ByteLengthStep(n);
      OctetsAreMinimal(n / 256);
      var high := ToBytes(n / 256, ByteLength(n / 256)).value;
      var b := ToBytes(n, ByteLength(n)).value;
      assert b == high + [n % 256];
      FromBytesOneMore(high, n % 256);
    }
  }

  lemma FromBytesOneMore(high: seq<int>, last: int)
    ensures FromBytes(high + [last]) == FromBytes(high) * 256 + last
  {
    assert (high + [last])[..|high|] == high;
  }

  /** Octets without a leading zero are the minimal octets of their integer. */
  lemma {:induction false} MinimalOctetsAreUnique(b: seq<int>)
    requires IsOctets(b) && (b != [] ==> b[0] > 0)
    ensures FromBytes(b) >= 0 && (b != [] ==> FromBytes(b) > 0)
    ensures ToBytes(FromBytes(b), ByteLength(FromBytes(b))) == Some(b)
  {
    if b != [] {
      var high, last := b[..|b| - 1], b[|b| - 1];
      MinimalOctetsAreUnique(high);
      var n := FromBytes(b);
      assert n == FromBytes(high) * 256 + last;
      assert n / 256 == FromBytes(high) && n % 256 == last;
      if high == [] { assert b[0] == last; }
      ByteLengthStep(n);
      assert b == high + [last];
    }
  }

  // ----- Text -----

  lemma LetterSextet(i: int)
    requires 0 <= i < 64
    ensures Sextet(Letter(i)) == Some(i)
  {
  }

  lemma SextetLetter(c: char)
    requires Sextet(c).Some?
    ensures 0 <= Sextet(c).value < 64 && Letter(Sextet(c).value) == c && c != '='
  {
  }

  lemma ValuesOfLetters(v: seq<int>)
    requires AreSextets(v)
    ensures AllLetters(Letters(v)) && Values(Letters(v)) == v
  {
    forall i | 0 <= i < |v|
      ensures Sextet(Letters(v)[i]) == Some(v[i])
    {
      LetterSextet(v[i]);
    }
  }

  lemma LettersOfValues(s: string)
    requires AllLetters(s)
    ensures AreSextets(Values(s)) && Letters(Values(s)) == s
  {
    forall i | 0 <= i < |s|
      ensures 0 <= Values(s)[i] < 64 && Letter(Values(s)[i]) == s[i]
    {
      SextetLetter(s[i]);
    }
  }

  lemma RStripLetters(s: string)
    requires AllLetters(s)
    ensures RStrip(s) == s && RStrip(s + "=") == s && RStrip(s + "==") == s
  {
    assert (s + "=")[..|s|] == s && (s + "==")[..|s| + 1] == s + "=";
    if s != "" { SextetLetter(s[|s| - 1]); }
  }

  lemma RStripPadded(s: string, n: nat)
    requires AllLetters(s)
    ensures RStrip(s + Padding(n)) == s
  {
    RStripLetters(s);
    assert s + "" == s;
  }

  /** Stripping takes away the padding and nothing else. */
  lemma StripRemovesPaddingOnly(b: seq<int>)
    requires IsOctets(b)
    ensures AreSextets(Split(b)) && RStrip(UrlsafeB64Encode(b)) == Letters(Split(b))
    ensures AllLetters(Letters(Split(b)))
    ensures UrlsafeB64Encode(b) == RStrip(UrlsafeB64Encode(b)) + Padding(|b|) && |UrlsafeB64Encode(b)| % 4 == 0
  {
    SplitSextets(b);
    ValuesOfLetters(Split(b));
    RStripPadded(Letters(Split(b)), |b|);
    EncodedLength(b);
  }

  lemma EncodedLength(b: seq<int>)
    requires IsOctets(b)
    ensures |UrlsafeB64Encode(b)| % 4 == 0
  {
    SplitSextets(b);
    ValuesOfLetters(Split(b));
    PaddedLength(|b|);
  }

  lemma PaddedLength(n: nat)
    ensures ((4 * n + 2) / 3 + |Padding(n)|) % 4 == 0
  {
    var k := n / 3;
    if n % 3 == 0 {
      assert 4 * n + 2 == 3 * (4 * k) + 2;
      assert (4 * n + 2) / 3 == 4 * k;
    } else if n % 3 == 1 {
      assert 4 * n + 2 == 3 * (4 * k + 2);
      assert (4 * n + 2) / 3 == 4 * k + 2;
    } else {
      assert 4 * n + 2 == 3 * (4 * k + 3) + 1;
      assert (4 * n + 2) / 3 == 4 * k + 3;
    }
  }

  // ----- Regrouping bits -----

  lemma TripleOfQuad(x: int, y: int, z: int)
    requires 0 <= x < 256 && 0 <= y < 256 && 0 <= z < 256
    ensures var q := Quad(x, y, z); Triple(q[0], q[1], q[2], q[3]) == [x, y, z]
  {
  }

  lemma DivMod4(q: int, r: int)
    requires 0 <= r < 4
    ensures (q * 4 + r) / 4 == q && (q * 4 + r) % 4 == r
  {
  }

  lemma DivMod16(q: int, r: int)
    requires 0 <= r < 16
    ensures (q * 16 + r) / 16 == q && (q * 16 + r) % 16 == r
  {
  }

  lemma DivMod64(q: int, r: int)
    requires 0 <= r < 64
    ensures (q * 64 + r) / 64 == q && (q * 64 + r) % 64 == r
  {
  }

  lemma QuadOfTriple(a: int, b: int, c: int, d: int)
    requires 0 <= a < 64 && 0 <= b < 64 && 0 <= c < 64 && 0 <= d < 64
    ensures var t := Triple(a, b, c, d); |t| == 3 && IsOctets(t) && Quad(t[0], t[1], t[2]) == [a, b, c, d]
  {
    HighLow(a, b / 16, b % 16, c / 4, c % 4, d);
    assert b / 16 * 16 + b % 16 == b && c / 4 * 4 + c % 4 == c;
  }

  lemma HighLow(a: int, bh: int, bl: int, ch: int, cl: int, d: int)
    requires 0 <= a < 64 && 0 <= bh < 4 && 0 <= bl < 16 && 0 <= ch < 16 && 0 <= cl < 4 && 0 <= d < 64
    ensures IsOctets([a * 4 + bh, bl * 16 + ch, cl * 64 + d])
    ensures Quad(a * 4 + bh, bl * 16 + ch, cl * 64 + d) == [a, bh * 16 + bl, ch * 4 + cl, d]
  {
    DivMod4(a, bh);
    DivMod16(bl, ch);
    DivMod64(cl, d);
  }

  lemma {:induction false} JoinSplit(b: seq<int>)
    requires IsOctets(b)
    ensures Join(Split(b)) == Some(b)
  {
    if |b| == 0 {
    } else if |b| == 1 {
      assert b == [b[0]];
    } else if |b| == 2 {
      assert b == [b[0], b[1]];
    } else {
      JoinSplit(b[3..]);
      TripleOfQuad(b[0], b[1], b[2]);
      JoinMore(Quad(b[0], b[1], b[2]), Split(b[3..]), b);
    }
  }

  lemma JoinMore(q: seq<int>, rest: seq<int>, b: seq<int>)
    requires |b| >= 3 && |q| == 4 && Triple(q[0], q[1], q[2], q[3]) == [b[0], b[1], b[2]] && Join(rest) == Some(b[3..])
    ensures Join(q + rest) == Some(b)
  {
    assert (q + rest)[4..] == rest;
    assert b == [b[0], b[1], b[2]] + b[3..];
  }

  lemma SplitJoinTwo(a: int, b: int)
    requires 0 <= a < 64 && 0 <= b < 64 && b % 16 == 0
    ensures IsOctets([a * 4 + b / 16]) && Split([a * 4 + b / 16]) == [a, b]
  {
    DivMod4(a, b / 16);
  }

  lemma SplitJoinThree(a: int, b: int, c: int)
    requires 0 <= a < 64 && 0 <= b < 64 && 0 <= c < 64 && c % 4 == 0
    ensures IsOctets([a * 4 + b / 16, b % 16 * 16 + c / 4])
    ensures Split([a * 4 + b / 16, b % 16 * 16 + c / 4]) == [a, b, c]
  {
    DivMod4(a, b / 16);
    DivMod16(b % 16, c / 4);
    assert b / 16 * 16 + b % 16 == b;
  }

  lemma {:induction false} SplitJoin(v: seq<int>)
    requires AreSextets(v) && Join(v).Some?
    ensures IsOctets(Join(v).value) && Split(Join(v).value) == v
  {
    if |v| < 4 {
      if |v| == 2 {
        SplitJoinTwo(v[0], v[1]);
        assert v == [v[0], v[1]];
      } else if |v| == 3 {
        SplitJoinThree(v[0], v[1], v[2]);
        assert v == [v[0], v[1], v[2]];
      }
    } else {
      SplitJoin(v[4..]);
      SplitJoinMore(v);
    }
  }

  lemma SplitJoinMore(v: seq<int>)
    requires AreSextets(v) && |v| >= 4 && Join(v).Some? && Join(v[4..]).Some?
    requires IsOctets(Join(v[4..]).value) && Split(Join(v[4..]).value) == v[4..]
    ensures IsOctets(Join(v).value) && Split(Join(v).value) == v
  {
    var t, rest := Triple(v[0], v[1], v[2], v[3]), Join(v[4..]).value;
    QuadOfTriple(v[0], v[1], v[2], v[3]);
    SplitMore(t, rest, v);
  }

  lemma SplitMore(t: seq<int>, rest: seq<int>, v: seq<int>)
    requires |v| >= 4 && |t| == 3 && IsOctets(t) && Quad(t[0], t[1], t[2]) == [v[0], v[1], v[2], v[3]]
    requires IsOctets(rest) && Split(rest) == v[4..]
    ensures IsOctets(t + rest) && Split(t + rest) == v
  {
    assert (t + rest)[3..] == rest;
    assert v == [v[0], v[1], v[2], v[3]] + v[4..];
  }

  // ----- The encoder -----

  /** Decoding gives the integer back; the octets are minimal, so the text has no shorter form. */
  lemma RoundTrip(n: nat)
    ensures var t := IntToBase64Url(n);
            && t.Ok? && AllLetters(t.value)
            && Decode(t.value).Some? && FromBytes(Decode(t.value).value) == n
            && |Decode(t.value).value| == (BitLength(n) + 7) / 8
            && (n > 0 ==> Decode(t.value).value != [] && Decode(t.value).value[0] > 0)
  {
    OctetsAreMinimal(n);
    var b := ToBytes(n, ByteLength(n)).value;
    StripRemovesPaddingOnly(b);
    ValuesOfLetters(Split(b));
    JoinSplit(b);
  }

  /** Different integers get different texts. */
  lemma Injective(m: nat, n: nat)
    requires IntToBase64Url(m) == IntToBase64Url(n)
    ensures m == n
  {
    RoundTrip(m);
    RoundTrip(n);
  }

  /** A text is the encoding of a positive integer exactly when it decodes to octets that
      begin with a non-zero one, and then it is the encoding of their integer. */
  lemma ImageIsCanonical(s: string)
    ensures (exists n: nat :: n > 0 && IntToBase64Url(n) == Ok(s)) <==> IsCanonical(s)
    ensures IsCanonical(s) ==> FromBytes(Decode(s).value) > 0 && IntToBase64Url(FromBytes(Decode(s).value)) == Ok(s)
  {
    if n: nat :| n > 0 && IntToBase64Url(n) == Ok(s) {
      RoundTrip(n);
    }
    if IsCanonical(s) {
      CanonicalIsEncoded(s);
    }
  }

  predicate IsCanonical(s: string)
  {
    Decode(s).Some? && Decode(s).value != [] && Decode(s).value[0] > 0
  }

  lemma CanonicalIsEncoded(s: string)
    requires IsCanonical(s)
    ensures FromBytes(Decode(s).value) > 0 && IntToBase64Url(FromBytes(Decode(s).value)) == Ok(s)
  {
    var b := Decode(s).value;
    LettersOfValues(s);
    SplitJoin(Values(s));
    MinimalOctetsAreUnique(b);
    StripRemovesPaddingOnly(b);
  }

  /** Base64urlUInt by the standard: the minimal octets, zero being a single zero octet ("AA"). */
  function Base64urlUInt(n: nat): string
  {
    var octets := if n == 0 then Some([0]) else ToBytes(n, ByteLength(n));
    if octets.None? then ""
    else
      SplitSextets(octets.value);
      Letters(Split(octets.value))
  }

  /** The encoder gives the standard's text for every positive integer, and not for zero,
      whose text is empty where the standard has "AA". */
  lemma {:induction false} StandardExceptZero(n: nat)
    ensures IntToBase64Url(n) == Ok(Base64urlUInt(n)) <==> n > 0
    ensures IntToBase64Url(0) == Ok("") && Base64urlUInt(0) == "AA"
  {
    ZeroText();
    if n > 0 {
      OctetsAreMinimal(n);
      StripRemovesPaddingOnly(ToBytes(n, ByteLength(n)).value);
    }
  }

  /** Table 2 of RFC 4648: capitals, small letters and digits in order, then '-' and '_'. */
  lemma LettersOfTheTable(i: int)
    requires 0 <= i < 64
    ensures Letter(0) == 'A' && Letter(25) == 'Z' && Letter(26) == 'a' && Letter(51) == 'z'
    ensures Letter(52) == '0' && Letter(61) == '9' && Letter(62) == '-' && Letter(63) == '_'
    ensures i < 61 && i != 25 && i != 51 ==> Letter(i + 1) as int == Letter(i) as int + 1
    ensures Sextet(Letter(i)) == Some(i)
  {
  }

  /** Only a negative integer is refused. */
  lemma RefusedIffNegative(value: int)
    ensures IntToBase64Url(value).Err? <==> value < 0
  {
    if value >= 0 { RoundTrip(value); }
  }

  /** The usual public exponent, 65537, is "AQAB" (section 6.3.1.2 of RFC 7518). */
  lemma UsualExponent(e: int)
    requires e == (1 * 256 + 0) * 256 + 1
    ensures IntToBase64Url(e) == Ok("AQAB")
  {
    ThreeOctets(1, 0, 1);
    ExponentText(e);
  }

  lemma ExponentText(e: int)
    requires e == FromBytes([1, 0, 1])
    ensures IntToBase64Url(e) == Ok("AQAB")
  {
    EncodedOctets([1, 0, 1]);
    ExponentLetters();
  }

  lemma EncodedOctets(b: seq<int>)
    requires IsOctets(b) && b != [] && b[0] > 0
    ensures AreSextets(Split(b)) && IntToBase64Url(FromBytes(b)) == Ok(Letters(Split(b)))
  {
    MinimalOctetsAreUnique(b);
    StripRemovesPaddingOnly(b);
  }

  lemma ThreeOctets(x: int, y: int, z: int)
    ensures FromBytes([x, y, z]) == (x * 256 + y) * 256 + z
  {
    FromBytesOneMore([], x);
    FromBytesOneMore([x], y);
    FromBytesOneMore([x, y], z);
    assert [] + [x] == [x] && [x] + [y] == [x, y] && [x, y] + [z] == [x, y, z];
  }

  lemma ExponentLetters()
    ensures AreSextets(Split([1, 0, 1])) && Letters(Split([1, 0, 1])) == "AQAB"
  {
    assert [1, 0, 1][3..] == [];
    assert Split([1, 0, 1]) == Quad(1, 0, 1) + [];
    assert Quad(1, 0, 1) == [0, 16, 0, 1] && [0, 16, 0, 1] + [] == [0, 16, 0, 1];
  }

  lemma ZeroText()
    ensures IntToBase64Url(0) == Ok("") && Base64urlUInt(0) == "AA"
  {
    var none: seq<int> := [];
    assert ToBytes(0, ByteLength(0)) == Some(none);
    assert UrlsafeB64Encode(none) == "";
    assert Split([0]) == [0, 0] && Letters([0, 0]) == "AA";
  }
}
