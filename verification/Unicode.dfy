/** UTF-16 well-formedness and UTF-8 encoding, as `Buffer.from(s, "utf8")` performs it.
    UTF-16 follows section 2 of RFC 2781, UTF-8 section 3 of RFC 3629. */
module Unicode {
  import opened Wrappers
  import opened JsStrings

  type Byte = n: int | 0 <= n < 0x100
  type Bytes = seq<Byte>

  /** A Unicode scalar value: any code point that is not a surrogate. */
  type Scalar = n: int | 0 <= n < 0xD800 || 0xE000 <= n <= 0x10_FFFF

  const REPLACEMENT: Scalar := 0xFFFD

  predicate IsHigh(u: CodeUnit) { 0xD800 <= u <= 0xDBFF }

  predicate IsLow(u: CodeUnit) { 0xDC00 <= u <= 0xDFFF }

  predicate IsSurrogate(u: CodeUnit) { IsHigh(u) || IsLow(u) }

  predicate StartsWithPair(s: JsString) { |s| > 1 && IsHigh(s[0]) && IsLow(s[1]) }

  // ----- The lone-surrogate test -----

  /** The two alternatives of the regular expression LONE_SURROGATE, at some position. */
  predicate LoneSurrogate(s: JsString) {
    || (exists i | 0 <= i < |s| :: LoneHighAt(s, i))
    || (exists i | 0 <= i < |s| :: LoneLowAt(s, i))
  }

  predicate LoneHighAt(s: JsString, i: nat)
    requires i < |s|
  {
    IsHigh(s[i]) && !(i + 1 < |s| && IsLow(s[i + 1]))
  }

  predicate LoneLowAt(s: JsString, i: nat)
    requires i < |s|
  {
    IsLow(s[i]) && (i == 0 || !IsHigh(s[i - 1]))
  }

  /** Well-formed UTF-16: units outside the surrogate ranges and high-low pairs. */
  predicate WellFormed(s: JsString) {
    s == [] || (if StartsWithPair(s) then WellFormed(s[2..]) else !IsSurrogate(s[0]) && WellFormed(s[1..]))
  }

  /** The regular expression rejects exactly the ill-formed strings. */
  lemma {:induction false} LoneSurrogateIffIllFormed(s: JsString)
    ensures LoneSurrogate(s) <==> !WellFormed(s)
  {
    if s != [] {
      var k := if StartsWithPair(s) then 2 else 1;
      var t := s[k..];
      LoneSurrogateIffIllFormed(t);
      if LoneSurrogate(t) {
        if i :| 0 <= i < |t| && LoneHighAt(t, i) { assert LoneHighAt(s, k + i); }
        else {
          var i :| 0 <= i < |t| && LoneLowAt(t, i);
          assert i == 0 ==> !IsHigh(s[k - 1]);
          assert LoneLowAt(s, k + i);
        }
      } else if LoneSurrogate(s) {
        if i :| 0 <= i < |s| && LoneHighAt(s, i) { assert i < k || LoneHighAt(t, i - k); }
        else {
          var i :| 0 <= i < |s| && LoneLowAt(s, i);
          assert i < k || LoneLowAt(t, i - k);
        }
      }
      if k == 1 && IsHigh(s[0]) { assert LoneHighAt(s, 0); }
      if k == 1 && IsLow(s[0]) { assert LoneLowAt(s, 0); }
    }
  }

  // ----- UTF-16 code units and scalar values -----

  /** How many code units the first scalar value of a string takes. */
  function FirstWidth(s: JsString): (k: nat)
    requires s != []
    ensures 0 < k <= |s|
  {
    if StartsWithPair(s) then 2 else 1
  }

  /** An unpaired surrogate reads as U+FFFD. */
  function FirstScalar(s: JsString): Scalar
    requires s != []
  {
    if StartsWithPair(s) then 0x1_0000 + (s[0] - 0xD800) * 0x400 + (s[1] - 0xDC00)
    else if IsSurrogate(s[0]) then REPLACEMENT
    else s[0]
  }

  function Scalars(s: JsString): seq<Scalar> {
    if s == [] then [] else [FirstScalar(s)] + Scalars(s[FirstWidth(s)..])
  }

  function UnitsOf(c: Scalar): JsString {
    if c < 0x1_0000 then [c] else [0xD800 + (c - 0x1_0000) / 0x400, 0xDC00 + (c - 0x1_0000) % 0x400]
  }

  function Utf16(vs: seq<Scalar>): JsString {
    if vs == [] then [] else UnitsOf(vs[0]) + Utf16(vs[1..])
  }

  /** The string with every unpaired surrogate replaced by U+FFFD. */
  function ToWellFormed(s: JsString): JsString {
    Utf16(Scalars(s))
  }

  lemma {:induction false} ScalarsOfUtf16(vs: seq<Scalar>)
    ensures Scalars(Utf16(vs)) == vs
    ensures WellFormed(Utf16(vs))
  {
    if vs != [] {
      ScalarsOfUtf16(vs[1..]);
      var s := Utf16(vs);
      var k := |UnitsOf(vs[0])|;
      assert s[k..] == Utf16(vs[1..]);
    }
  }

  /** Replacement leaves a string alone exactly when it is well-formed. */
  lemma {:induction false} ToWellFormedFixpoint(s: JsString)
    ensures ToWellFormed(s) == s <==> WellFormed(s)
  {
    ScalarsOfUtf16(Scalars(s));
    if WellFormed(s) { Utf16OfScalars(s); }
  }

  /** The units of the first scalar value are those it was read from. */
  lemma FirstUnits(s: JsString)
    requires s != []
    ensures UnitsOf(FirstScalar(s)) == if s[0] == UnitsOf(FirstScalar(s))[0] then s[..FirstWidth(s)] else [REPLACEMENT]
    ensures s[0] == UnitsOf(FirstScalar(s))[0] <==> StartsWithPair(s) || !IsSurrogate(s[0])
  {
  }

  lemma {:induction false} Utf16OfScalars(s: JsString)
    requires WellFormed(s)
    ensures ToWellFormed(s) == s
  {
    if s != [] {
      var k := FirstWidth(s);
      Utf16OfScalars(s[k..]);
      FirstUnits(s);
      assert Scalars(s)[1..] == Scalars(s[k..]);
    }
  }

  lemma FirstOfConcat(a: JsString, b: JsString)
    requires a != [] && (b == [] || !(IsHigh(a[|a| - 1]) && IsLow(b[0])))
    ensures FirstWidth(a + b) == FirstWidth(a) && FirstScalar(a + b) == FirstScalar(a)
  {
    assert StartsWithPair(a + b) == StartsWithPair(a);
  }

  /** Reading scalar values distributes over a cut that does not separate a pair. */
  lemma {:induction false} ScalarsConcat(a: JsString, b: JsString)
    requires a == [] || b == [] || !(IsHigh(a[|a| - 1]) && IsLow(b[0]))
    ensures Scalars(a + b) == Scalars(a) + Scalars(b)
    decreases |a|
  {
    if a == [] {
      assert a + b == b;
    } else {
      var k := FirstWidth(a);
      FirstOfConcat(a, b);
      assert (a + b)[k..] == a[k..] + b;
      ScalarsConcat(a[k..], b);
    }
  }

  lemma {:induction false} Utf16Concat(a: seq<Scalar>, b: seq<Scalar>)
    ensures Utf16(a + b) == Utf16(a) + Utf16(b)
  {
    if a == [] {
      assert a + b == b;
    } else {
      assert (a + b)[1..] == a[1..] + b;
      Utf16Concat(a[1..], b);
    }
  }

  /** Replacement distributes over such a cut as well. */
  lemma ToWellFormedConcat(a: JsString, b: JsString)
    requires a == [] || b == [] || !(IsHigh(a[|a| - 1]) && IsLow(b[0]))
    ensures ToWellFormed(a + b) == ToWellFormed(a) + ToWellFormed(b)
  {
    ScalarsConcat(a, b);
    Utf16Concat(Scalars(a), Scalars(b));
  }

  /** Replacement introduces no ASCII unit. */
  lemma {:induction false} AsciiUnitInWellFormed(s: JsString, u: CodeUnit)
    requires u < 0x80 && u !in s
    ensures u !in ToWellFormed(s)
  {
    if s != [] {
      AsciiUnitInWellFormed(s[FirstWidth(s)..], u);
      assert Scalars(s)[1..] == Scalars(s[FirstWidth(s)..]);
      assert u !in UnitsOf(Scalars(s)[0]);
    }
  }

  predicate IsAscii(s: JsString) { forall i | 0 <= i < |s| :: s[i] < 0x80 }

  lemma {:induction false} AsciiScalars(s: JsString)
    requires IsAscii(s)
    ensures Scalars(s) == s && WellFormed(s) && ToWellFormed(s) == s
  {
    if s != [] { AsciiScalars(s[1..]); }
    Utf16OfScalars(s);
  }

  // ----- UTF-8 -----

  function Utf8Of(c: Scalar): Bytes {
    if c < 0x80 then [c]
    else if c < 0x800 then [0xC0 + c / 0x40, 0x80 + c % 0x40]
    else if c < 0x1_0000 then [0xE0 + c / 0x1000, 0x80 + c / 0x40 % 0x40, 0x80 + c % 0x40]
    else [0xF0 + c / 0x4_0000, 0x80 + c / 0x1000 % 0x40, 0x80 + c / 0x40 % 0x40, 0x80 + c % 0x40]
  }

  function Utf8(vs: seq<Scalar>): Bytes {
    if vs == [] then [] else Utf8Of(vs[0]) + Utf8(vs[1..])
  }

  /** `Buffer.from(s, "utf8")`. */
  function BufferFrom(s: JsString): Bytes {
    Utf8(Scalars(s))
  }

  predicate IsTail(b: Byte) { 0x80 <= b < 0xC0 }

  /** The number of bytes a leading byte announces, or 0 for a byte that cannot lead. */
  function LeadLength(b: Byte): nat {
    if b < 0x80 then 1 else if 0xC2 <= b < 0xE0 then 2 else if 0xE0 <= b < 0xF0 then 3
    else if 0xF0 <= b < 0xF5 then 4 else 0
  }

  /** The six payload bits of a continuation byte. */
  function Six(b: Byte): int { b - 0x80 }

  predicate Tails(b: Bytes, k: nat) {
    |b| >= k && forall i | 1 <= i < k :: IsTail(b[i])
  }

  /** Reads one scalar value; refuses overlong forms, surrogates and values past U+10FFFF. */
  function DecodeOne(b: Bytes): Option<Scalar>
    requires b != []
  {
    var k := LeadLength(b[0]);
    if k == 0 || !Tails(b, k) then None
    else if k == 1 then Some(b[0])
    else if k == 2 then Some(Six(b[0] - 0x40) * 0x40 + Six(b[1]))
    else if k == 3 then Checked(Six(b[0] - 0x60) * 0x1000 + Six(b[1]) * 0x40 + Six(b[2]), 0x800)
    else Checked(Six(b[0] - 0x70) * 0x4_0000 + Six(b[1]) * 0x1000 + Six(b[2]) * 0x40 + Six(b[3]), 0x1_0000)
  }

  function Checked(c: int, least: nat): Option<Scalar> {
    if least <= c <= 0x10_FFFF && !(0xD800 <= c < 0xE000) then Some(c) else None
  }

  function Utf8Decode(b: Bytes): Option<seq<Scalar>> {
    if b == [] then Some([])
    else
      match DecodeOne(b)
      case None => None
      case Some(c) =>
        match Utf8Decode(b[LeadLength(b[0])..])
        case None => None
        case Some(cs) => Some([c] + cs)
  }

  lemma SixBitGroups(c: nat)
    ensures c == c / 0x40 * 0x40 + c % 0x40
    ensures c / 0x40 == c / 0x1000 * 0x40 + c / 0x40 % 0x40
    ensures c / 0x1000 == c / 0x4_0000 * 0x40 + c / 0x1000 % 0x40
  {
  }

  /** Encoding announces the number of bytes it produces, all but the first continuation bytes. */
  lemma EncodedShape(c: Scalar, rest: Bytes)
    ensures var b := Utf8Of(c) + rest; LeadLength(b[0]) == |Utf8Of(c)| && Tails(b, |Utf8Of(c)|)
  {
    var b := Utf8Of(c) + rest;
    assert forall i | 0 <= i < |Utf8Of(c)| :: b[i] == Utf8Of(c)[i];
  }

  lemma DecodeOneOfEncode(c: Scalar, rest: Bytes)
    ensures DecodeOne(Utf8Of(c) + rest) == Some(c) && LeadLength(Utf8Of(c)[0]) == |Utf8Of(c)|
  {
    SixBitGroups(c);
    EncodedShape(c, rest);
  }

  lemma JoinSixBits(a: nat, x: nat, y: nat, z: nat)
    requires x < 0x40 && y < 0x40 && z < 0x40
    ensures (a * 0x40 + x) / 0x40 == a && (a * 0x40 + x) % 0x40 == x
    ensures var c := a * 0x1000 + x * 0x40 + y;
      c / 0x1000 == a && c / 0x40 % 0x40 == x && c % 0x40 == y
    ensures var c := a * 0x4_0000 + x * 0x1000 + y * 0x40 + z;
      c / 0x4_0000 == a && c / 0x1000 % 0x40 == x && c / 0x40 % 0x40 == y && c % 0x40 == z
  {
    var c := a * 0x1000 + x * 0x40 + y;
    assert c / 0x40 == a * 0x40 + x;
    var d := a * 0x4_0000 + x * 0x1000 + y * 0x40 + z;
    assert d / 0x40 == a * 0x1000 + x * 0x40 + y;
    assert d / 0x1000 == a * 0x40 + x;
  }

  lemma EncodeOneOfDecode(b: Bytes)
    requires b != [] && DecodeOne(b).Some?
    ensures LeadLength(b[0]) <= |b| && Utf8Of(DecodeOne(b).value) == b[..LeadLength(b[0])]
  {
    var k := LeadLength(b[0]);
    if k == 2 { JoinSixBits(Six(b[0] - 0x40), Six(b[1]), 0, 0); }
    if k == 3 { JoinSixBits(Six(b[0] - 0x60), Six(b[1]), Six(b[2]), 0); }
    if k == 4 { JoinSixBits(Six(b[0] - 0x70), Six(b[1]), Six(b[2]), Six(b[3])); }
  }

  /** Decoding inverts encoding, so UTF-8 is injective on scalar sequences. */
  lemma {:induction false} DecodeOfEncode(vs: seq<Scalar>)
    ensures Utf8Decode(Utf8(vs)) == Some(vs)
  {
    if vs != [] {
      DecodeOfEncode(vs[1..]);
      DecodeOneOfEncode(vs[0], Utf8(vs[1..]));
      var b := Utf8(vs);
      assert b[LeadLength(b[0])..] == Utf8(vs[1..]);
      assert [vs[0]] + vs[1..] == vs;
    }
  }

  /** The decoder accepts nothing but encodings, so each text has one byte form. */
  lemma {:induction false} EncodeOfDecode(b: Bytes)
    requires Utf8Decode(b).Some?
    ensures Utf8(Utf8Decode(b).value) == b
    decreases |b|
  {
    if b != [] {
      EncodeOneOfDecode(b);
      EncodeOfDecode(b[LeadLength(b[0])..]);
      var cs := Utf8Decode(b).value;
      assert cs[1..] == Utf8Decode(b[LeadLength(b[0])..]).value;
    }
  }

  lemma {:induction false} AsciiBytes(s: JsString)
    requires IsAscii(s)
    ensures BufferFrom(s) == s
  {
    AsciiScalars(s);
    AsciiUtf8(s);
  }

  lemma {:induction false} AsciiUtf8(s: seq<Scalar>)
    requires forall i | 0 <= i < |s| :: s[i] < 0x80
    ensures Utf8(s) == s
  {
    if s != [] { AsciiUtf8(s[1..]); }
  }

  /** An ASCII code unit occurs in the bytes only where it occurs in the string. */
  lemma {:induction false} AsciiUnitInBytes(s: JsString, u: CodeUnit)
    requires u < 0x80 && u !in s
    ensures u !in BufferFrom(s)
  {
    if s != [] {
      AsciiUnitInBytes(s[FirstWidth(s)..], u);
      var c := Scalars(s)[0];
      assert Scalars(s)[1..] == Scalars(s[FirstWidth(s)..]);
      assert c != u;
      assert u !in Utf8Of(c);
    }
  }

  /** Two strings have the same UTF-8 bytes exactly when they agree after replacement;
      on well-formed strings that is equality. */
  lemma BufferFromInjective(s: JsString, t: JsString)
    ensures BufferFrom(s) == BufferFrom(t) <==> ToWellFormed(s) == ToWellFormed(t)
    ensures WellFormed(s) && WellFormed(t) ==> (BufferFrom(s) == BufferFrom(t) <==> s == t)
  {
    DecodeOfEncode(Scalars(s)); DecodeOfEncode(Scalars(t));
    ScalarsOfUtf16(Scalars(s)); ScalarsOfUtf16(Scalars(t));
    ToWellFormedFixpoint(s); ToWellFormedFixpoint(t);
  }
}
