/** JavaScript strings as sequences of UTF-16 code units, with the string
    operations the modelled files rely on. */
module JsStrings {
  import opened Wrappers

  type CodeUnit = n: int | 0 <= n < 0x1_0000
  type JsString = seq<CodeUnit>

  /** The code units of an ASCII literal. */
  function Ascii(text: string): JsString {
    seq(|text|, i requires 0 <= i < |text| => if text[i] as int < 0x80 then text[i] as int else 0x3F)
  }

  // ----- White space and trimming -----

  /** The code units that `trim` removes and `\s` matches. */
  predicate IsWhite(u: CodeUnit) {
    || 0x09 <= u <= 0x0D || u == 0x20 || u == 0xA0 || u == 0x1680 || 0x2000 <= u <= 0x200A
    || u == 0x2028 || u == 0x2029 || u == 0x202F || u == 0x205F || u == 0x3000 || u == 0xFEFF
  }

  function TrimStart(s: JsString): JsString {
    if s != [] && IsWhite(s[0]) then TrimStart(s[1..]) else s
  }

  function TrimEnd(s: JsString): JsString {
    if s != [] && IsWhite(s[|s| - 1]) then TrimEnd(s[..|s| - 1]) else s
  }

  function Trim(s: JsString): JsString {
    TrimEnd(TrimStart(s))
  }

  lemma {:induction false} TrimEndEnds(s: JsString)
    ensures TrimEnd(s) <= s && (TrimEnd(s) != [] ==> !IsWhite(TrimEnd(s)[|TrimEnd(s)| - 1]))
  {
    if s != [] && IsWhite(s[|s| - 1]) { TrimEndEnds(s[..|s| - 1]); }
  }

  lemma {:induction false} TrimStartStarts(s: JsString)
    ensures TrimStart(s) != [] ==> !IsWhite(TrimStart(s)[0])
  {
    if s != [] && IsWhite(s[0]) { TrimStartStarts(s[1..]); }
  }

  predicate AllWhite(s: JsString) { forall u | u in s :: IsWhite(u) }

  lemma {:induction false} TrimStartDrops(s: JsString) returns (i: nat)
    ensures i <= |s| && TrimStart(s) == s[i..] && AllWhite(s[..i])
  {
    if s != [] && IsWhite(s[0]) {
      var k := TrimStartDrops(s[1..]);
      i := k + 1;
      assert s[i..] == s[1..][k..] && s[..i] == [s[0]] + s[1..][..k];
    } else {
      i := 0;
    }
  }

  lemma {:induction false} TrimEndDrops(s: JsString)
    ensures TrimEnd(s) <= s && AllWhite(s[|TrimEnd(s)|..])
  {
    if s != [] && IsWhite(s[|s| - 1]) {
      var n := |s| - 1;
      TrimEndDrops(s[..n]);
      assert s[|TrimEnd(s)|..] == s[..n][|TrimEnd(s)|..] + [s[n]];
    }
  }

  /** Trimming takes white space off both ends, all of it and nothing else. */
  lemma TrimIs(s: JsString) returns (i: nat, j: nat)
    ensures i <= j <= |s| && Trim(s) == s[i..j] && AllWhite(s[..i]) && AllWhite(s[j..])
    ensures Trim(s) != [] ==> !IsWhite(Trim(s)[0]) && !IsWhite(Trim(s)[|Trim(s)| - 1])
  {
    i := TrimStartDrops(s);
    var t := s[i..];
    TrimEndDrops(t);
    TrimEndEnds(t);
    TrimStartStarts(s);
    j := i + |TrimEnd(t)|;
    assert t[..j - i] == s[i..j] && t[j - i..] == s[j..];
  }

  lemma BlankIff(s: JsString)
    ensures Trim(s) == [] <==> AllWhite(s)
  {
    var i, j := TrimIs(s);
    assert s == s[..i] + s[i..j] + s[j..];
    if Trim(s) != [] { assert s[i] in s && !IsWhite(s[i]); }
  }

  lemma TrimTwice(s: JsString)
    ensures Trim(Trim(s)) == Trim(s)
  {
    TrimStartStarts(s);
    TrimEndEnds(TrimStart(s));
  }

  function LowerAscii(s: JsString): JsString {
    seq(|s|, i requires 0 <= i < |s| => if 0x41 <= s[i] <= 0x5A then s[i] + 0x20 else s[i])
  }

  // ----- Decimal numerals -----

  predicate IsDigit(u: CodeUnit) { 0x30 <= u <= 0x39 }

  predicate AllDigits(s: JsString) { forall i | 0 <= i < |s| :: IsDigit(s[i]) }

  /** A non-negative integer in decimal, as `String(n)` renders it. */
  function Decimal(n: nat): JsString {
    if n < 10 then [0x30 + n] else Decimal(n / 10) + [0x30 + n % 10]
  }

  /** The value of a digit string, as `BigInt(s)` reads it. */
  function DigitsValue(s: JsString): nat
    requires AllDigits(s)
  {
    if s == [] then 0 else 10 * DigitsValue(s[..|s| - 1]) + (s[|s| - 1] - 0x30)
  }

  function ParseDecimal(s: JsString): Option<nat> {
    if s != [] && AllDigits(s) then Some(DigitsValue(s)) else None
  }

  /** The expression /^(0|[1-9]\d*)$/ and the value of what it matches. */
  function ParseCanonicalDecimal(s: JsString): Option<nat> {
    if s != [] && AllDigits(s) && (s[0] != 0x30 || |s| == 1) then Some(DigitsValue(s)) else None
  }

  lemma {:induction false} DecimalRoundTrip(n: nat)
    ensures AllDigits(Decimal(n)) && Decimal(n) != [] && DigitsValue(Decimal(n)) == n
  {
    if n >= 10 {
      DecimalRoundTrip(n / 10);
      var d := Decimal(n);
      assert d[..|d| - 1] == Decimal(n / 10);
    }
  }

  /** A numeral has no leading zero, so only "0" itself starts with the digit zero. */
  lemma {:induction false} DecimalHasNoLeadingZero(n: nat)
    ensures Decimal(n)[0] == 0x30 <==> n == 0
  {
    if n >= 10 { DecimalHasNoLeadingZero(n / 10); }
  }

  // ----- Joining and splitting -----

  function Join<T>(parts: seq<seq<T>>, sep: T): seq<T> {
    if parts == [] then []
    else if |parts| == 1 then parts[0]
    else parts[0] + [sep] + Join(parts[1..], sep)
  }

  /** The length of the longest prefix without `sep`. */
  function Until<T(==)>(s: seq<T>, sep: T): (k: nat)
    ensures k <= |s| && sep !in s[..k] && (k < |s| ==> s[k] == sep)
  {
    if s == [] || s[0] == sep then 0
    else
      var k := Until(s[1..], sep);
      assert s[..k + 1] == [s[0]] + s[1..][..k];
      k + 1
  }

  function Split<T(==)>(s: seq<T>, sep: T): (parts: seq<seq<T>>)
    ensures |parts| > 0
    decreases |s|
  {
    var k := Until(s, sep);
    if k == |s| then [s] else [s[..k]] + Split(s[k + 1..], sep)
  }

  lemma UntilSeparator<T>(a: seq<T>, sep: T, b: seq<T>)
    requires sep !in a
    ensures Until(a + [sep] + b, sep) == |a|
  {
    var s := a + [sep] + b;
    var k := Until(s, sep);
    assert s[|a|] == sep && forall i | 0 <= i < |a| :: s[i] == a[i];
    assert forall i | 0 <= i < k :: s[..k][i] == s[i];
  }

  lemma UntilEnd<T>(a: seq<T>, sep: T)
    requires sep !in a
    ensures Until(a, sep) == |a|
  {
  }

  lemma {:induction false} SplitOfJoin<T>(parts: seq<seq<T>>, sep: T)
    requires parts != []
    requires forall i | 0 <= i < |parts| :: sep !in parts[i]
    ensures Split(Join(parts, sep), sep) == parts
  {
    if |parts| == 1 {
      UntilEnd(parts[0], sep);
    } else {
      var rest := Join(parts[1..], sep);
      var s := parts[0] + [sep] + rest;
      UntilSeparator(parts[0], sep, rest);
      assert s[..|parts[0]|] == parts[0] && s[|parts[0]| + 1..] == rest;
      SplitOfJoin(parts[1..], sep);
    }
  }

  /** Removes a known prefix, or fails. */
  function StripPrefix<T(==)>(prefix: seq<T>, s: seq<T>): Option<seq<T>> {
    if prefix <= s then Some(s[|prefix|..]) else None
  }

  lemma StripOwnPrefix<T>(prefix: seq<T>, s: seq<T>)
    ensures StripPrefix(prefix, prefix + s) == Some(s)
  {
    assert prefix <= prefix + s;
    assert (prefix + s)[|prefix|..] == s;
  }
}
