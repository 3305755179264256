/** The canonical bytes the oracle commits to, and a decoder that shows the layout
    unambiguous (lib/evidence-commitment.ts). */
module EvidenceCommitment {
  import opened Wrappers
  import opened JsNumbers
  import opened JsStrings
  import opened Unicode

  const VERSION: nat := 1
  const MAX_BYTES: nat := 64 * 1024
  const MAX_AGE_MS: real := 900_000.0

  const NEWLINE: CodeUnit := 0x0A
  const RECORD_SEPARATOR: CodeUnit := 0x1E
  const FIELD_SEPARATOR: CodeUnit := 0x1F
  const COMMA: CodeUnit := 0x2C
  const MINUS: CodeUnit := 0x2D
  const POINT: CodeUnit := 0x2E

  const MAGIC := Ascii("mimir-evidence-commitment")
  const VERSION_LABEL := Ascii("version:")
  const FETCHER_LABEL := Ascii("fetcher:")
  const SOURCE_LABEL := Ascii("source:")
  const BYTES_LABEL := Ascii("bytes:")
  const COUNCIL_LABEL := Ascii("council:")
  const COUNCIL := Ascii("council")
  const TALLY_LABEL := Ascii("tally:")
  const Q_LABEL := Ascii("q:")
  const REFERENCE_LABEL := Ascii("refQ:")
  const SCORES_LABEL := Ascii("scores:")
  const NO_COUNCIL := Ascii("none")

  const FETCHER_KINDS: seq<JsString> :=
    [Ascii("coingecko-api"), Ascii("direct"), Ascii("jina"), Ascii("bot-paid"), Ascii("none")]

  datatype Reason = InvalidEncoding | EmptyEvidence | EvidenceTooLarge | InvalidFetcher
                  | InvalidSourceUrl | StaleEvidence | InvalidCouncil

  datatype Tally = Tally(creator: Num, challengers: Num, draw: Num, unresolvable: Num, decisive: Num)

  datatype Council = Council(
    tally: Tally, qChain: Option<seq<Num>>, referenceQ: Option<Num>, scores: Option<seq<Num>>)

  datatype Input = Input(
    evidence: JsString, fetcher: JsString, sourceUrl: Option<JsString>,
    fetchedAt: Option<Num>, now: real, council: Option<Council>)

  // ----- Validation -----

  predicate HasControls(s: JsString) { exists i | 0 <= i < |s| :: s[i] <= 0x1F || s[i] == 0x7F }

  /** The expression /^https?:\/\/\S+$/i. */
  predicate IsHttpUrl(s: JsString) {
    var t := LowerAscii(s);
    var k := if Ascii("https://") <= t then 8 else if Ascii("http://") <= t then 7 else 0;
    k != 0 && k < |s| && forall i | k <= i < |s| :: !IsWhite(s[i])
  }

  function ValidateSourceUrl(sourceUrl: Option<JsString>): Result<JsString, Reason> {
    match sourceUrl
    case None => Ok([])
    case Some(raw) =>
      var trimmed := Trim(raw);
      if trimmed == [] then Ok([])
      else if HasControls(trimmed) || !IsHttpUrl(trimmed) then Err(InvalidSourceUrl)
      else Ok(trimmed)
  }

  function ValidateEvidence(evidence: JsString): Result<Bytes, Reason> {
    if Trim(evidence) == [] then Err(EmptyEvidence)
    else if LoneSurrogate(evidence) then Err(InvalidEncoding)
    else
      var bytes := BufferFrom(evidence);
      if |bytes| > MAX_BYTES then Err(EvidenceTooLarge) else Ok(bytes)
  }

  predicate IsFresh(fetchedAt: Option<Num>, now: real) {
    match fetchedAt
    case None => true
    case Some(t) => t.Finite? && t.value > 0.0 && now - t.value <= MAX_AGE_MS
  }

  // ----- Council record -----

  /** A score in the four-decimal form of `toFixed(4)`: a sign and ten-thousandths. */
  datatype Fixed4 = Fixed4(negative: bool, units: nat)

  /** `toFixed(4)` rounds the magnitude, ties upward, and keeps the sign even of a zero. */
  function ToFixed4(x: real): Fixed4 {
    Fixed4(x < 0.0, ((if x < 0.0 then -x else x) * 10_000.0 + 0.5).Floor)
  }

  /** The last `k` digits of a number, zeros included. */
  function Padded(n: nat, k: nat): (s: JsString)
    ensures |s| == k && AllDigits(s)
  {
    if k == 0 then [] else Padded(n / 10, k - 1) + [0x30 + n % 10]
  }

  function RenderMagnitude(units: nat): JsString {
    Decimal(units / 10_000) + [POINT] + Padded(units % 10_000, 4)
  }

  function Signed(negative: bool, magnitude: JsString): JsString {
    if negative then [MINUS] + magnitude else magnitude
  }

  function RenderFixed4(f: Fixed4): JsString {
    Signed(f.negative, RenderMagnitude(f.units))
  }

  predicate IsCount(n: Num) { n.Finite? && n.value >= 0.0 && n.value == n.value.Floor as real }

  predicate IsProbability(n: Num) { n.Finite? && 0.0 <= n.value <= 1.0 }

  predicate IsScore(n: Num) { n.Finite? && -100.0 <= n.value <= 100.0 }

  function Entries(t: Tally): seq<Num> { [t.creator, t.challengers, t.draw, t.unresolvable, t.decisive] }

  function ListOf(xs: Option<seq<Num>>): seq<Num> { if xs.Some? then xs.value else [] }

  predicate ValidCouncil(c: Council) {
    && (forall i | 0 <= i < |Entries(c.tally)| :: IsCount(Entries(c.tally)[i]))
    && |ListOf(c.qChain)| == |ListOf(c.scores)|
    && (c.referenceQ.Some? ==> ListOf(c.qChain) != [])
    && (forall i | 0 <= i < |ListOf(c.qChain)| :: IsProbability(ListOf(c.qChain)[i]))
    && (c.referenceQ.Some? ==> IsProbability(c.referenceQ.value))
    && (forall i | 0 <= i < |ListOf(c.scores)| :: IsScore(ListOf(c.scores)[i]))
  }

  function FormatScore(n: Num): JsString
    requires n.Finite?
  {
    RenderFixed4(ToFixed4(n.value))
  }

  function FormatScores(ns: seq<Num>): JsString
    requires forall i | 0 <= i < |ns| :: ns[i].Finite?
  {
    Join(seq(|ns|, i requires 0 <= i < |ns| => FormatScore(ns[i])), COMMA)
  }

  function TallyPart(c: Council): JsString
    requires ValidCouncil(c)
  {
    var entries := Entries(c.tally);
    TALLY_LABEL + Join(seq(|entries|, i requires 0 <= i < |entries| => Decimal(entries[i].value.Floor)), COMMA)
  }

  function ReferencePart(c: Council): JsString
    requires ValidCouncil(c)
  {
    REFERENCE_LABEL + if c.referenceQ.None? then [] else FormatScore(c.referenceQ.value)
  }

  function ScoresPart(tag: JsString, ns: Option<seq<Num>>): JsString
    requires forall i | 0 <= i < |ListOf(ns)| :: ListOf(ns)[i].Finite?
  {
    tag + FormatScores(ListOf(ns))
  }

  function CouncilParts(c: Council): seq<JsString>
    requires ValidCouncil(c)
  {
    [COUNCIL, TallyPart(c), ScoresPart(Q_LABEL, c.qChain), ReferencePart(c), ScoresPart(SCORES_LABEL, c.scores)]
  }

  function SerializeCouncil(c: Council): Result<JsString, Reason> {
    if ValidCouncil(c) then Ok(Join(CouncilParts(c), FIELD_SEPARATOR)) else Err(InvalidCouncil)
  }

  // ----- The canonical bytes -----

  function HeaderLines(fetcher: JsString, sourceUrl: JsString, length: nat): seq<JsString> {
    [ MAGIC,
      VERSION_LABEL + Decimal(VERSION),
      FETCHER_LABEL + fetcher,
      SOURCE_LABEL + sourceUrl,
      BYTES_LABEL + Decimal(length) ]
  }

  function Header(fetcher: JsString, sourceUrl: JsString, length: nat): JsString {
    Join(HeaderLines(fetcher, sourceUrl, length), NEWLINE)
  }

  function CanonicalEvidenceBytes(x: Input): Result<Bytes, Reason> {
    if x.fetcher !in FETCHER_KINDS then Err(InvalidFetcher)
    else
      match ValidateEvidence(x.evidence)
      case Err(e) => Err(e)
      case Ok(evidence) =>
        match ValidateSourceUrl(x.sourceUrl)
        case Err(e) => Err(e)
        case Ok(url) =>
          if !IsFresh(x.fetchedAt, x.now) then Err(StaleEvidence)
          else
            match (if x.council.Some? then SerializeCouncil(x.council.value) else Ok(NO_COUNCIL))
            case Err(e) => Err(e)
            case Ok(council) =>
              Ok(BufferFrom(Header(x.fetcher, url, |evidence|)) + [RECORD_SEPARATOR]
                 + evidence + [RECORD_SEPARATOR] + BufferFrom(COUNCIL_LABEL + council))
  }

  // ----- What the bytes commit to -----

  /** A council record up to the four-decimal rounding of its scores. */
  datatype CanonicalCouncil = CanonicalCouncil(
    tally: seq<nat>, qChain: seq<Fixed4>, referenceQ: Option<Fixed4>, scores: seq<Fixed4>)

  datatype Commitment = Commitment(
    fetcher: JsString, sourceUrl: JsString, evidence: JsString, council: Option<CanonicalCouncil>)

  function RoundAll(ns: seq<Num>): seq<Fixed4>
    requires forall i | 0 <= i < |ns| :: ns[i].Finite?
  {
    seq(|ns|, i requires 0 <= i < |ns| => ToFixed4(ns[i].value))
  }

  lemma TallyCounts(c: Council)
    requires ValidCouncil(c)
    ensures var t := c.tally;
      IsCount(t.creator) && IsCount(t.challengers) && IsCount(t.draw) && IsCount(t.unresolvable) && IsCount(t.decisive)
  {
    var es := Entries(c.tally);
    assert IsCount(es[0]) && IsCount(es[1]) && IsCount(es[2]) && IsCount(es[3]) && IsCount(es[4]);
  }

  function CouncilOf(c: Council): CanonicalCouncil
    requires ValidCouncil(c)
  {
    TallyCounts(c);
    var t := c.tally;
    CanonicalCouncil(
      [t.creator.value.Floor, t.challengers.value.Floor, t.draw.value.Floor, t.unresolvable.value.Floor,
       t.decisive.value.Floor],
      RoundAll(ListOf(c.qChain)),
      if c.referenceQ.None? then None else Some(ToFixed4(c.referenceQ.value.value)),
      RoundAll(ListOf(c.scores)))
  }

  /** The source URL without the white space around it; an absent one is empty. */
  function TrimmedUrl(sourceUrl: Option<JsString>): JsString {
    if sourceUrl.None? then [] else Trim(sourceUrl.value)
  }

  /** What an accepted input commits to. The URL is the trimmed one, with every unpaired
      surrogate replaced, since only the evidence is tested for them. */
  function CommitmentOf(x: Input): Commitment
    requires CanonicalEvidenceBytes(x).Ok?
  {
    Commitment(
      x.fetcher,
      ToWellFormed(TrimmedUrl(x.sourceUrl)),
      x.evidence,
      if x.council.None? then None else Some(CouncilOf(x.council.value)))
  }

  // ----- The decoder -----

  function DecodeText(b: Bytes): Option<JsString> {
    match Utf8Decode(b)
    case None => None
    case Some(vs) => Some(Utf16(vs))
  }

  /** The ten-thousandths in digits, a point and four more digits. */
  function ParseMagnitude(t: JsString): Option<nat> {
    var k := |t| - 5;
    if k < 1 || t[k] != POINT || !AllDigits(t[..k]) || !AllDigits(t[k + 1..]) then None
    else Some(DigitsValue(t[..k]) * 10_000 + DigitsValue(t[k + 1..]))
  }

  function ParseFixed4(s: JsString): Option<Fixed4> {
    var negative := s != [] && s[0] == MINUS;
    match ParseMagnitude(if negative then s[1..] else s)
    case None => None
    case Some(units) => Some(Fixed4(negative, units))
  }

  function ParseAll<T>(parse: JsString -> Option<T>, parts: seq<JsString>): Option<seq<T>> {
    if parts == [] then Some([])
    else
      match (parse(parts[0]), ParseAll(parse, parts[1..]))
      case (Some(x), Some(xs)) => Some([x] + xs)
      case _ => None
  }

  function ParseList<T>(parse: JsString -> Option<T>, s: JsString): Option<seq<T>> {
    if s == [] then Some([]) else ParseAll(parse, Split(s, COMMA))
  }

  function ParseField<T>(tag: JsString, parse: JsString -> Option<T>, s: JsString): Option<seq<T>> {
    match StripPrefix(tag, s)
    case None => None
    case Some(t) => ParseList(parse, t)
  }

  function ParseCouncil(s: JsString): Option<CanonicalCouncil> {
    ParseCouncilParts(Split(s, FIELD_SEPARATOR))
  }

  function ParseCouncilParts(parts: seq<JsString>): Option<CanonicalCouncil> {
    if |parts| != 5 || parts[0] != COUNCIL then None
    else
      match (ParseField(TALLY_LABEL, ParseDecimal, parts[1]), ParseField(Q_LABEL, ParseFixed4, parts[2]),
             ParseField(REFERENCE_LABEL, ParseFixed4, parts[3]), ParseField(SCORES_LABEL, ParseFixed4, parts[4]))
      case (Some(tally), Some(q), Some(reference), Some(scores)) =>
        Some(CanonicalCouncil(tally, q, if reference == [] then None else Some(reference[0]), scores))
      case _ => None
  }

  datatype HeaderFields = HeaderFields(fetcher: JsString, sourceUrl: JsString, length: nat)

  function ParseHeader(s: JsString): Option<HeaderFields> {
    ParseHeaderLines(Split(s, NEWLINE))
  }

  function ParseHeaderLines(lines: seq<JsString>): Option<HeaderFields> {
    if |lines| != 5 || lines[0] != MAGIC || lines[1] != VERSION_LABEL + Decimal(VERSION) then None
    else
      match (StripPrefix(FETCHER_LABEL, lines[2]), StripPrefix(SOURCE_LABEL, lines[3]),
             StripPrefix(BYTES_LABEL, lines[4]))
      case (Some(fetcher), Some(url), Some(digits)) =>
        var n := ParseDecimal(digits);
        if n.None? then None else Some(HeaderFields(fetcher, url, n.value))
      case _ => None
  }

  function ParseTail(b: Bytes): Option<Option<CanonicalCouncil>> {
    var text := DecodeText(b);
    if text.None? then None
    else
      match StripPrefix(COUNCIL_LABEL, text.value)
      case None => None
      case Some(c) =>
        if c == NO_COUNCIL then Some(None)
        else
          match ParseCouncil(c)
          case None => None
          case Some(council) => Some(Some(council))
  }

  function ParseBody(fields: HeaderFields, rest: Bytes): Option<Commitment> {
    if |rest| <= fields.length || rest[fields.length] != RECORD_SEPARATOR then None
    else
      match (DecodeText(rest[..fields.length]), ParseTail(rest[fields.length + 1..]))
      case (Some(evidence), Some(council)) => Some(Commitment(fields.fetcher, fields.sourceUrl, evidence, council))
      case _ => None
  }

  /** Reads a commitment back from its bytes: the header up to the first record separator,
      a body of the announced length, and the council record. */
  function ParseCommitment(b: Bytes): Option<Commitment> {
    var k := Until(b, RECORD_SEPARATOR);
    if k == |b| then None
    else
      var text := DecodeText(b[..k]);
      if text.None? then None
      else
        match ParseHeader(text.value)
        case None => None
        case Some(fields) => ParseBody(fields, b[k + 1..])
  }

  // ----- Numbers and lists -----

  function Pow10(k: nat): nat { if k == 0 then 1 else 10 * Pow10(k - 1) }

  lemma {:induction false} PaddedRoundTrip(n: nat, k: nat)
    requires n < Pow10(k)
    ensures DigitsValue(Padded(n, k)) == n
  {
    if k > 0 {
      PaddedRoundTrip(n / 10, k - 1);
      assert Padded(n, k)[..k - 1] == Padded(n / 10, k - 1);
    }
  }

  lemma MagnitudeRoundTrip(units: nat)
    ensures ParseMagnitude(RenderMagnitude(units)) == Some(units)
    ensures RenderMagnitude(units) != [] && RenderMagnitude(units)[0] != MINUS
    ensures forall u | u in RenderMagnitude(units) :: IsDigit(u) || u == POINT
  {
    var whole, fraction := Decimal(units / 10_000), Padded(units % 10_000, 4);
    var t := RenderMagnitude(units);
    DecimalRoundTrip(units / 10_000);
    assert Pow10(4) == 10_000;
    PaddedRoundTrip(units % 10_000, 4);
    assert t[..|t| - 5] == whole && t[|t| - 5] == POINT && t[|t| - 4..] == fraction;
    assert t[0] == whole[0];
    forall u | u in t ensures IsDigit(u) || u == POINT {
      var i :| 0 <= i < |t| && t[i] == u;
      if i < |whole| { assert t[i] == whole[i]; }
      else if i > |whole| { assert t[i] == fraction[i - |whole| - 1]; }
    }
  }

  lemma SignedRoundTrip(negative: bool, t: JsString)
    requires t != [] && t[0] != MINUS
    requires forall u | u in t :: IsDigit(u) || u == POINT
    ensures var s := Signed(negative, t);
      && (s[0] == MINUS <==> negative) && (if s[0] == MINUS then s[1..] else s) == t
      && COMMA !in s && !HasControls(s) && IsAscii(s)
  {
    var s := Signed(negative, t);
    assert negative ==> s[1..] == t;
    forall i | 0 <= i < |s| ensures s[i] == MINUS || IsDigit(s[i]) || s[i] == POINT {
      assert s[i] == MINUS || s[i] in t;
    }
  }

  lemma Fixed4RoundTrip(f: Fixed4)
    ensures ParseFixed4(RenderFixed4(f)) == Some(f)
    ensures RenderFixed4(f) != []
    ensures COMMA !in RenderFixed4(f) && !HasControls(RenderFixed4(f)) && IsAscii(RenderFixed4(f))
  {
    MagnitudeRoundTrip(f.units);
    SignedRoundTrip(f.negative, RenderMagnitude(f.units));
  }

  lemma DecimalClean(n: nat)
    ensures ParseDecimal(Decimal(n)) == Some(n)
    ensures COMMA !in Decimal(n) && !HasControls(Decimal(n)) && IsAscii(Decimal(n))
  {
    DecimalRoundTrip(n);
  }

  lemma {:induction false} ParseAllOfRendered<T>(
    parse: JsString -> Option<T>, parts: seq<JsString>, xs: seq<T>)
    requires |parts| == |xs|
    requires forall i | 0 <= i < |xs| :: parse(parts[i]) == Some(xs[i])
    ensures ParseAll(parse, parts) == Some(xs)
  {
    if xs != [] {
      ParseAllOfRendered(parse, parts[1..], xs[1..]);
      assert xs == [xs[0]] + xs[1..];
    }
  }

  /** A rendered element: it parses back, and holds neither a comma nor a control. */
  predicate Renders<T(==)>(parse: JsString -> Option<T>, part: JsString, x: T) {
    parse(part) == Some(x) && part != [] && COMMA !in part && !HasControls(part) && IsAscii(part)
  }

  lemma {:induction false} JoinClean(parts: seq<JsString>, sep: CodeUnit)
    requires 0x20 <= sep < 0x7F
    requires forall i | 0 <= i < |parts| :: !HasControls(parts[i]) && IsAscii(parts[i])
    ensures !HasControls(Join(parts, sep)) && IsAscii(Join(parts, sep))
  {
    if |parts| > 1 {
      JoinClean(parts[1..], sep);
    }
  }

  lemma FieldRoundTrip<T>(tag: JsString, parse: JsString -> Option<T>, parts: seq<JsString>, xs: seq<T>)
    requires |parts| == |xs| && IsClean(tag)
    requires forall i | 0 <= i < |xs| :: Renders(parse, parts[i], xs[i])
    ensures ParseField(tag, parse, tag + Join(parts, COMMA)) == Some(xs) && IsClean(tag + Join(parts, COMMA))
  {
    StripOwnPrefix(tag, Join(parts, COMMA));
    JoinClean(parts, COMMA);
    if xs != [] {
      SplitOfJoin(parts, COMMA);
      ParseAllOfRendered(parse, parts, xs);
      assert Join(parts, COMMA)[0] == parts[0][0];
    }
  }

  lemma ScoresRoundTrip(tag: JsString, list: Option<seq<Num>>)
    requires forall i | 0 <= i < |ListOf(list)| :: ListOf(list)[i].Finite?
    requires IsClean(tag)
    ensures ParseField(tag, ParseFixed4, ScoresPart(tag, list)) == Some(RoundAll(ListOf(list)))
      && IsClean(ScoresPart(tag, list))
  {
    var ns := ListOf(list);
    var parts := seq(|ns|, i requires 0 <= i < |ns| => FormatScore(ns[i]));
    forall i | 0 <= i < |ns| ensures Renders(ParseFixed4, parts[i], RoundAll(ns)[i]) {
      Fixed4RoundTrip(ToFixed4(ns[i].value));
    }
    FieldRoundTrip(tag, ParseFixed4, parts, RoundAll(ns));
  }

  lemma ReferenceRoundTrip(c: Council)
    requires ValidCouncil(c)
    ensures ParseField(REFERENCE_LABEL, ParseFixed4, ReferencePart(c))
         == Some(if c.referenceQ.None? then [] else [ToFixed4(c.referenceQ.value.value)])
    ensures IsClean(ReferencePart(c))
  {
    LabelsClean();
    if c.referenceQ.None? {
      ScoresRoundTrip(REFERENCE_LABEL, Some([]));
    } else {
      var one := [c.referenceQ.value];
      ScoresRoundTrip(REFERENCE_LABEL, Some(one));
      assert FormatScores(one) == FormatScore(one[0]);
      assert RoundAll(one) == [ToFixed4(one[0].value)];
    }
  }

  predicate IsClean(s: JsString) { !HasControls(s) && IsAscii(s) }

  /** The labels are printable ASCII. */
  lemma LabelsClean()
    ensures !HasControls(COUNCIL_LABEL) && !HasControls(COUNCIL) && !HasControls(TALLY_LABEL) && !HasControls(Q_LABEL)
    ensures !HasControls(REFERENCE_LABEL) && !HasControls(SCORES_LABEL)
    ensures !HasControls(VERSION_LABEL) && !HasControls(FETCHER_LABEL) && !HasControls(SOURCE_LABEL)
      && !HasControls(BYTES_LABEL)
  {
  }

  lemma MagicClean()
    ensures !HasControls(MAGIC)
  {
  }

  lemma FetchersClean(fetcher: JsString)
    requires fetcher in FETCHER_KINDS
    ensures !HasControls(fetcher) && IsAscii(fetcher)
  {
  }

  // ----- The council record and the header -----

  lemma TallyRoundTrip(c: Council)
    requires ValidCouncil(c)
    ensures ParseField(TALLY_LABEL, ParseDecimal, TallyPart(c)) == Some(CouncilOf(c).tally) && IsClean(TallyPart(c))
  {
    var entries := Entries(c.tally);
    var parts := seq(|entries|, i requires 0 <= i < |entries| => Decimal(entries[i].value.Floor));
    LabelsClean();
    forall i | 0 <= i < |entries| ensures Renders(ParseDecimal, parts[i], CouncilOf(c).tally[i]) {
      DecimalClean(entries[i].value.Floor);
    }
    FieldRoundTrip(TALLY_LABEL, ParseDecimal, parts, CouncilOf(c).tally);
  }

  lemma CouncilPartsClean(c: Council)
    requires ValidCouncil(c)
    ensures forall part | part in CouncilParts(c) :: IsClean(part)
  {
    LabelsClean();
    TallyRoundTrip(c);
    ScoresRoundTrip(Q_LABEL, c.qChain);
    ReferenceRoundTrip(c);
    ScoresRoundTrip(SCORES_LABEL, c.scores);
    FivePartsClean(COUNCIL, TallyPart(c), ScoresPart(Q_LABEL, c.qChain), ReferencePart(c),
                   ScoresPart(SCORES_LABEL, c.scores));
  }

  lemma FivePartsClean(a: JsString, b: JsString, c: JsString, d: JsString, e: JsString)
    requires IsClean(a) && IsClean(b) && IsClean(c) && IsClean(d) && IsClean(e)
    ensures forall part | part in [a, b, c, d, e] :: IsClean(part)
  {
  }

  lemma CouncilPartsRoundTrip(c: Council)
    requires ValidCouncil(c)
    ensures ParseCouncilParts(CouncilParts(c)) == Some(CouncilOf(c))
  {
    LabelsClean();
    TallyRoundTrip(c);
    ScoresRoundTrip(Q_LABEL, c.qChain);
    ReferenceRoundTrip(c);
    ScoresRoundTrip(SCORES_LABEL, c.scores);
  }

  /** The council record reads back as the record with its scores rounded. */
  lemma CouncilRoundTrip(c: Council)
    requires ValidCouncil(c)
    ensures ParseCouncil(SerializeCouncil(c).value) == Some(CouncilOf(c))
    ensures IsAscii(SerializeCouncil(c).value)
    ensures SerializeCouncil(c).value != NO_COUNCIL
  {
    var parts := CouncilParts(c);
    CouncilPartsRoundTrip(c);
    CouncilPartsClean(c);
    CleanPartsSplit(parts);
    FirstOfJoin(parts);
  }

  /** Parts without controls can be told apart by the field separator, itself a control. */
  lemma CleanPartsSplit(parts: seq<JsString>)
    requires parts != [] && forall part | part in parts :: IsClean(part)
    ensures Split(Join(parts, FIELD_SEPARATOR), FIELD_SEPARATOR) == parts && IsAscii(Join(parts, FIELD_SEPARATOR))
  {
    forall i | 0 <= i < |parts| ensures FIELD_SEPARATOR !in parts[i] && IsAscii(parts[i]) {
      assert IsClean(parts[i]);
    }
    SplitOfJoin(parts, FIELD_SEPARATOR);
    JoinAscii(parts, FIELD_SEPARATOR);
  }

  lemma FirstOfJoin(parts: seq<JsString>)
    requires parts != [] && parts[0] == COUNCIL
    ensures Join(parts, FIELD_SEPARATOR) != NO_COUNCIL
  {
    assert Join(parts, FIELD_SEPARATOR)[0] == COUNCIL[0] == 0x63 != NO_COUNCIL[0];
  }

  lemma {:induction false} JoinAscii(parts: seq<JsString>, sep: CodeUnit)
    requires sep < 0x80
    requires forall i | 0 <= i < |parts| :: IsAscii(parts[i])
    ensures IsAscii(Join(parts, sep))
  {
    if |parts| > 1 { JoinAscii(parts[1..], sep); }
  }

  /** Around a line break, replacement works line by line. */
  lemma {:induction false} LinesToWellFormed(lines: seq<JsString>)
    ensures ToWellFormed(Join(lines, NEWLINE))
         == Join(seq(|lines|, i requires 0 <= i < |lines| => ToWellFormed(lines[i])), NEWLINE)
  {
    if |lines| > 1 {
      var fixed := seq(|lines|, i requires 0 <= i < |lines| => ToWellFormed(lines[i]));
      var rest := Join(lines[1..], NEWLINE);
      LinesToWellFormed(lines[1..]);
      assert fixed[1..] == seq(|lines| - 1, i requires 0 <= i < |lines| - 1 => ToWellFormed(lines[1..][i]));
      ToWellFormedConcat(lines[0] + [NEWLINE], rest);
      ToWellFormedConcat(lines[0], [NEWLINE]);
      AsciiScalars([NEWLINE]);
    }
  }

  lemma HeaderLinesClean(fetcher: JsString, url: JsString, length: nat)
    requires fetcher in FETCHER_KINDS
    ensures forall i | 0 <= i < 5 && i != 3 ::
      !HasControls(HeaderLines(fetcher, url, length)[i]) && IsAscii(HeaderLines(fetcher, url, length)[i])
    ensures !HasControls(SOURCE_LABEL) && IsAscii(SOURCE_LABEL)
  {
    LabelsClean();
    MagicClean();
    FetchersClean(fetcher);
    DecimalClean(length);
    DecimalClean(VERSION);
  }

  /** Replacement reaches only the URL. */
  lemma HeaderToWellFormed(fetcher: JsString, url: JsString, length: nat)
    requires fetcher in FETCHER_KINDS
    ensures ToWellFormed(Header(fetcher, url, length)) == Header(fetcher, ToWellFormed(url), length)
  {
    var lines, fixed := HeaderLines(fetcher, url, length), HeaderLines(fetcher, ToWellFormed(url), length);
    HeaderLinesClean(fetcher, url, length);
    LinesToWellFormed(lines);
    forall i | 0 <= i < 5 ensures ToWellFormed(lines[i]) == fixed[i] {
      if i == 3 {
        ToWellFormedConcat(SOURCE_LABEL, url);
        AsciiScalars(SOURCE_LABEL);
      } else {
        AsciiScalars(lines[i]);
      }
    }
    assert fixed == seq(|lines|, i requires 0 <= i < |lines| => ToWellFormed(lines[i]));
  }

  lemma ParseHeaderOfLines(fetcher: JsString, url: JsString, length: nat)
    ensures ParseHeaderLines(HeaderLines(fetcher, url, length)) == Some(HeaderFields(fetcher, url, length))
  {
    DecimalClean(length);
    StripOwnPrefix(FETCHER_LABEL, fetcher);
    StripOwnPrefix(SOURCE_LABEL, url);
    StripOwnPrefix(BYTES_LABEL, Decimal(length));
  }

  /** The header reads back; only the URL can change, by replacement. */
  lemma HeaderRoundTrip(fetcher: JsString, url: JsString, length: nat)
    requires fetcher in FETCHER_KINDS && !HasControls(url)
    ensures ParseHeader(ToWellFormed(Header(fetcher, url, length)))
         == Some(HeaderFields(fetcher, ToWellFormed(url), length))
    ensures RECORD_SEPARATOR !in BufferFrom(Header(fetcher, url, length))
  {
    var lines, fixed := HeaderLines(fetcher, url, length), HeaderLines(fetcher, ToWellFormed(url), length);
    HeaderToWellFormed(fetcher, url, length);
    HeaderLinesClean(fetcher, ToWellFormed(url), length);
    AsciiUnitInWellFormed(url, NEWLINE);
    assert forall i | 0 <= i < |fixed| :: NEWLINE !in fixed[i];
    SplitOfJoin(fixed, NEWLINE);
    ParseHeaderOfLines(fetcher, ToWellFormed(url), length);
    HeaderLinesClean(fetcher, url, length);
    assert forall i | 0 <= i < |lines| :: RECORD_SEPARATOR !in lines[i];
    JoinWithout(lines, NEWLINE, RECORD_SEPARATOR);
    AsciiUnitInBytes(Header(fetcher, url, length), RECORD_SEPARATOR);
  }

  lemma {:induction false} JoinWithout(parts: seq<JsString>, sep: CodeUnit, u: CodeUnit)
    requires sep != u && forall i | 0 <= i < |parts| :: u !in parts[i]
    ensures u !in Join(parts, sep)
  {
    if |parts| > 1 { JoinWithout(parts[1..], sep, u); }
  }

  lemma TextRoundTrip(s: JsString)
    ensures DecodeText(BufferFrom(s)) == Some(ToWellFormed(s))
  {
    DecodeOfEncode(Scalars(s));
  }

  lemma AsciiTextRoundTrip(s: JsString)
    requires IsAscii(s)
    ensures DecodeText(BufferFrom(s)) == Some(s)
  {
    TextRoundTrip(s);
    AsciiScalars(s);
  }

  predicate ValidIfGiven(council: Option<Council>) { council.Some? ==> ValidCouncil(council.value) }

  function CouncilText(council: Option<Council>): JsString
    requires ValidIfGiven(council)
  {
    if council.Some? then SerializeCouncil(council.value).value else NO_COUNCIL
  }

  lemma TailRoundTrip(council: Option<Council>)
    requires ValidIfGiven(council)
    ensures ParseTail(BufferFrom(COUNCIL_LABEL + CouncilText(council)))
         == Some(if council.None? then None else Some(CouncilOf(council.value)))
  {
    var text := CouncilText(council);
    assert IsAscii(text) by { if council.Some? { CouncilRoundTrip(council.value); } }
    assert IsAscii(COUNCIL_LABEL + text);
    AsciiTextRoundTrip(COUNCIL_LABEL + text);
    StripOwnPrefix(COUNCIL_LABEL, text);
    if council.Some? { CouncilRoundTrip(council.value); }
  }

  // ----- The main results -----

  /** A URL that may be committed, without the white space around it. */
  predicate AllowedUrl(t: JsString) {
    && (forall u | u in t :: 0x20 <= u != 0x7F)
    && exists scheme | scheme in [Ascii("http://"), Ascii("https://")] ::
         |scheme| < |t| && LowerAscii(t[..|scheme|]) == scheme && forall u | u in t[|scheme|..] :: !IsWhite(u)
  }

  /** A council that may be committed. */
  predicate AllowedCouncil(c: Council) {
    var t := c.tally;
    && (forall n | n in [t.creator, t.challengers, t.draw, t.unresolvable, t.decisive] ::
          n.Finite? && 0.0 <= n.value == n.value.Floor as real)
    && (if c.qChain.None? then c.scores in {None, Some([])}
        else |c.qChain.value| == if c.scores.None? then 0 else |c.scores.value|)
    && (c.qChain.Some? ==> forall q | q in c.qChain.value :: q.Finite? && 0.0 <= q.value <= 1.0)
    && (c.scores.Some? ==> forall s | s in c.scores.value :: s.Finite? && -100.0 <= s.value <= 100.0)
    && (c.referenceQ.Some? ==>
          && c.qChain.Some? && c.qChain.value != []
          && c.referenceQ.value.Finite? && 0.0 <= c.referenceQ.value.value <= 1.0)
  }

  lemma SchemeIff(t: JsString, scheme: JsString)
    requires |scheme| < |t|
    ensures LowerAscii(t[..|scheme|]) == scheme <==> scheme <= LowerAscii(t)
    ensures (forall u | u in t[|scheme|..] :: !IsWhite(u)) <==> forall i | |scheme| <= i < |t| :: !IsWhite(t[i])
  {
    assert LowerAscii(t)[..|scheme|] == LowerAscii(t[..|scheme|]);
    assert forall i | |scheme| <= i < |t| :: t[i] == t[|scheme|..][i - |scheme|];
  }

  lemma AllowedUrlIff(t: JsString)
    ensures AllowedUrl(t) <==> !HasControls(t) && IsHttpUrl(t)
  {
    var http, https := Ascii("http://"), Ascii("https://");
    assert |http| == 7 && |https| == 8 && http[4] == 0x3A && https[4] == 0x73;
    if i :| 0 <= i < |t| && (t[i] <= 0x1F || t[i] == 0x7F) { assert t[i] in t; }
    if |t| > 7 { SchemeIff(t, http); }
    if |t| > 8 { SchemeIff(t, https); }
    if IsHttpUrl(t) {
      var scheme := if https <= LowerAscii(t) then https else http;
      assert scheme in [http, https];
    }
  }

  lemma AllowedCouncilIff(c: Council)
    ensures AllowedCouncil(c) <==> ValidCouncil(c)
  {
    var t := c.tally;
    var es := [t.creator, t.challengers, t.draw, t.unresolvable, t.decisive];
    assert es == Entries(t);
    assert (forall n | n in es :: IsCount(n)) <==> forall i | 0 <= i < |es| :: IsCount(es[i]);
  }

  lemma ValidEvidenceIff(evidence: JsString)
    ensures ValidateEvidence(evidence)
         == if AllWhite(evidence) then Err(EmptyEvidence)
            else if !WellFormed(evidence) then Err(InvalidEncoding)
            else if |BufferFrom(evidence)| > 65_536 then Err(EvidenceTooLarge)
            else Ok(BufferFrom(evidence))
  {
    BlankIff(evidence);
    LoneSurrogateIffIllFormed(evidence);
  }

  lemma ValidUrlIff(x: Input)
    ensures ValidateSourceUrl(x.sourceUrl)
         == if TrimmedUrl(x.sourceUrl) == [] || AllowedUrl(TrimmedUrl(x.sourceUrl)) then Ok(TrimmedUrl(x.sourceUrl))
            else Err(InvalidSourceUrl)
  {
    AllowedUrlIff(TrimmedUrl(x.sourceUrl));
  }

  /** What each refusal objects to. */
  predicate Fails(reason: Reason, x: Input) {
    match reason
    case InvalidFetcher => x.fetcher !in FETCHER_KINDS
    case EmptyEvidence => AllWhite(x.evidence)
    case InvalidEncoding => !WellFormed(x.evidence)
    case EvidenceTooLarge => |BufferFrom(x.evidence)| > 65_536
    case InvalidSourceUrl => TrimmedUrl(x.sourceUrl) != [] && !AllowedUrl(TrimmedUrl(x.sourceUrl))
    case StaleEvidence =>
      x.fetchedAt.Some? && (x.fetchedAt.value.Finite? ==>
        x.fetchedAt.value.value <= 0.0 || x.fetchedAt.value.value < x.now - 900_000.0)
    case InvalidCouncil => x.council.Some? && !AllowedCouncil(x.council.value)
  }

  /** The order in which an input is checked. */
  function Turn(reason: Reason): nat {
    match reason
    case InvalidFetcher => 0
    case EmptyEvidence => 1
    case InvalidEncoding => 2
    case EvidenceTooLarge => 3
    case InvalidSourceUrl => 4
    case StaleEvidence => 5
    case InvalidCouncil => 6
  }

  ghost predicate IsFirst(reason: Reason, x: Input) {
    Fails(reason, x) && forall earlier | Turn(earlier) < Turn(reason) :: !Fails(earlier, x)
  }

  /** Exactly which inputs are accepted. */
  lemma AcceptedIff(x: Input)
    ensures CanonicalEvidenceBytes(x).Ok? <==> forall reason :: !Fails(reason, x)
    ensures CanonicalEvidenceBytes(x).Err? ==> IsFirst(CanonicalEvidenceBytes(x).error, x)
  {
    ValidEvidenceIff(x.evidence);
    ValidUrlIff(x);
    if x.council.Some? { AllowedCouncilIff(x.council.value); }
    if CanonicalEvidenceBytes(x).Err? {
      assert Fails(CanonicalEvidenceBytes(x).error, x);
    }
  }

  /** An input is refused for the first thing that is wrong with it. */
  lemma RefusedIff(x: Input, reason: Reason)
    ensures CanonicalEvidenceBytes(x) == Err(reason)
       <==> Fails(reason, x) && forall earlier | Turn(earlier) < Turn(reason) :: !Fails(earlier, x)
  {
    AcceptedIff(x);
  }

  lemma AcceptedParts(x: Input)
    requires CanonicalEvidenceBytes(x).Ok?
    ensures x.fetcher in FETCHER_KINDS && ValidateSourceUrl(x.sourceUrl) == Ok(TrimmedUrl(x.sourceUrl))
    ensures !HasControls(TrimmedUrl(x.sourceUrl))
    ensures WellFormed(x.evidence) && ValidIfGiven(x.council)
  {
    LoneSurrogateIffIllFormed(x.evidence);
  }

  /** The framed parts of the bytes of an accepted input. */
  lemma BytesLayout(x: Input)
    requires CanonicalEvidenceBytes(x).Ok?
    requires ValidateSourceUrl(x.sourceUrl) == Ok(TrimmedUrl(x.sourceUrl)) && ValidIfGiven(x.council)
    ensures var evidence := BufferFrom(x.evidence);
      CanonicalEvidenceBytes(x).value
        == BufferFrom(Header(x.fetcher, TrimmedUrl(x.sourceUrl), |evidence|)) + [RECORD_SEPARATOR]
           + (evidence + [RECORD_SEPARATOR] + BufferFrom(COUNCIL_LABEL + CouncilText(x.council)))
  {
  }

  /** The layout is unambiguous: whatever the evidence contains, the committed bytes read
      back as exactly what was committed. */
  lemma CommitmentRoundTrip(x: Input)
    requires CanonicalEvidenceBytes(x).Ok?
    ensures ParseCommitment(CanonicalEvidenceBytes(x).value) == Some(CommitmentOf(x))
  {
    AcceptedParts(x);
    BytesLayout(x);
    var bytes := CanonicalEvidenceBytes(x).value;
    var evidence := BufferFrom(x.evidence);
    var url := TrimmedUrl(x.sourceUrl);
    var header := Header(x.fetcher, url, |evidence|);
    HeaderRoundTrip(x.fetcher, url, |evidence|);
    TextRoundTrip(header);
    TextRoundTrip(x.evidence);
    Utf16OfScalars(x.evidence);
    TailRoundTrip(x.council);
    FrameRoundTrip(BufferFrom(header), evidence, BufferFrom(COUNCIL_LABEL + CouncilText(x.council)),
                   HeaderFields(x.fetcher, ToWellFormed(url), |evidence|), CommitmentOf(x));
  }

  /** A number with four decimals, the nearest to `n`, ties away from zero; a negative zero
      keeps its sign. */
  predicate IsRounded(f: Fixed4, n: Num) {
    && n.Finite? && f.negative == (n.value < 0.0)
    && var magnitude := if n.value < 0.0 then -n.value else n.value;
       f.units as real - 0.5 <= 10_000.0 * magnitude < f.units as real + 0.5
  }

  predicate AreRounded(fs: seq<Fixed4>, ns: Option<seq<Num>>) {
    match ns
    case None => fs == []
    case Some(list) => |fs| == |list| && forall i | 0 <= i < |fs| :: IsRounded(fs[i], list[i])
  }

  predicate IsTallied(n: nat, count: Num) { count == Finite(n as real) }

  /** The record of a council: five counts in this order, and three kinds of scores. */
  predicate IsRecord(r: CanonicalCouncil, c: Council) {
    && |r.tally| == 5
    && IsTallied(r.tally[0], c.tally.creator) && IsTallied(r.tally[1], c.tally.challengers)
    && IsTallied(r.tally[2], c.tally.draw) && IsTallied(r.tally[3], c.tally.unresolvable)
    && IsTallied(r.tally[4], c.tally.decisive)
    && AreRounded(r.qChain, c.qChain) && AreRounded(r.scores, c.scores)
    && (r.referenceQ.Some? <==> c.referenceQ.Some?)
    && (c.referenceQ.Some? ==> IsRounded(r.referenceQ.value, c.referenceQ.value))
  }

  lemma CouncilIsRecorded(c: Council)
    requires ValidCouncil(c)
    ensures IsRecord(CouncilOf(c), c)
  {
    TallyCounts(c);
  }

  /** The bytes of an accepted input read back, part by part. */
  lemma CommittedParts(x: Input)
    requires CanonicalEvidenceBytes(x).Ok?
    ensures match ParseCommitment(CanonicalEvidenceBytes(x).value)
      case None => false
      case Some(c) =>
        && c.fetcher == x.fetcher && c.evidence == x.evidence
        && c.sourceUrl == ToWellFormed(if x.sourceUrl.None? then [] else Trim(x.sourceUrl.value))
        && (c.council.Some? <==> x.council.Some?)
        && (x.council.Some? ==> IsRecord(c.council.value, x.council.value))
  {
    CommitmentRoundTrip(x);
    AcceptedIff(x);
    if x.council.Some? {
      AllowedCouncilIff(x.council.value);
      CouncilIsRecorded(x.council.value);
    }
  }

  lemma FrameRoundTrip(header: Bytes, evidence: Bytes, tail: Bytes, fields: HeaderFields, c: Commitment)
    requires RECORD_SEPARATOR !in header && DecodeText(header).Some?
    requires ParseHeader(DecodeText(header).value) == Some(fields) && fields.length == |evidence|
    requires DecodeText(evidence) == Some(c.evidence) && ParseTail(tail) == Some(c.council)
    requires c.fetcher == fields.fetcher && c.sourceUrl == fields.sourceUrl
    ensures ParseCommitment(header + [RECORD_SEPARATOR] + (evidence + [RECORD_SEPARATOR] + tail)) == Some(c)
  {
    var rest := evidence + [RECORD_SEPARATOR] + tail;
    var bytes := header + [RECORD_SEPARATOR] + rest;
    UntilSeparator(header, RECORD_SEPARATOR, rest);
    assert bytes[..|header|] == header && bytes[|header| + 1..] == rest;
    assert rest[..|evidence|] == evidence && rest[|evidence| + 1..] == tail;
  }

  /** Two accepted inputs have the same bytes exactly when they commit to the same thing. */
  lemma SameBytesIffSameCommitment(x: Input, y: Input)
    requires CanonicalEvidenceBytes(x).Ok? && CanonicalEvidenceBytes(y).Ok?
    ensures CanonicalEvidenceBytes(x) == CanonicalEvidenceBytes(y) <==> CommitmentOf(x) == CommitmentOf(y)
  {
    CommitmentRoundTrip(x);
    CommitmentRoundTrip(y);
    if CommitmentOf(x) == CommitmentOf(y) {
      AcceptedParts(x);
      AcceptedParts(y);
      BytesLayout(x);
      BytesLayout(y);
      SameHeader(x.fetcher, TrimmedUrl(x.sourceUrl), TrimmedUrl(y.sourceUrl), |BufferFrom(x.evidence)|);
      if x.council.Some? { SerializationOfCouncil(x.council.value, y.council.value); }
    }
  }

  lemma SameHeader(fetcher: JsString, url: JsString, url': JsString, length: nat)
    requires fetcher in FETCHER_KINDS && ToWellFormed(url) == ToWellFormed(url')
    ensures BufferFrom(Header(fetcher, url, length)) == BufferFrom(Header(fetcher, url', length))
  {
    HeaderBytes(fetcher, url, length);
    HeaderBytes(fetcher, url', length);
  }

  /** The header bytes depend on the URL only through replacement. */
  lemma HeaderBytes(fetcher: JsString, url: JsString, length: nat)
    requires fetcher in FETCHER_KINDS
    ensures BufferFrom(Header(fetcher, url, length)) == BufferFrom(Header(fetcher, ToWellFormed(url), length))
  {
    HeaderToWellFormed(fetcher, url, length);
    HeaderToWellFormed(fetcher, ToWellFormed(url), length);
    ScalarsOfUtf16(Scalars(url));
    BufferFromInjective(Header(fetcher, url, length), Header(fetcher, ToWellFormed(url), length));
  }

  /** The rendering depends on the council only through its rounded record. */
  lemma SerializationOfCouncil(c: Council, d: Council)
    requires ValidCouncil(c) && ValidCouncil(d) && CouncilOf(c) == CouncilOf(d)
    ensures SerializeCouncil(c) == SerializeCouncil(d)
  {
    SameScores(ListOf(c.qChain), ListOf(d.qChain));
    SameScores(ListOf(c.scores), ListOf(d.scores));
    var es, fs := Entries(c.tally), Entries(d.tally);
    assert forall i | 0 <= i < |es| ::
      CouncilOf(c).tally[i] == es[i].value.Floor && CouncilOf(d).tally[i] == fs[i].value.Floor;
    assert seq(|es|, i requires 0 <= i < |es| => Decimal(es[i].value.Floor))
        == seq(|fs|, i requires 0 <= i < |fs| => Decimal(fs[i].value.Floor));
  }

  lemma SameScores(ms: seq<Num>, ns: seq<Num>)
    requires forall i | 0 <= i < |ms| :: ms[i].Finite?
    requires forall i | 0 <= i < |ns| :: ns[i].Finite?
    requires RoundAll(ms) == RoundAll(ns)
    ensures FormatScores(ms) == FormatScores(ns)
  {
    assert |ms| == |RoundAll(ms)| == |ns|;
    forall i | 0 <= i < |ms| ensures FormatScore(ms[i]) == FormatScore(ns[i]) {
      assert RoundAll(ms)[i] == RoundAll(ns)[i];
    }
    assert seq(|ms|, i requires 0 <= i < |ms| => FormatScore(ms[i]))
      == seq(|ns|, i requires 0 <= i < |ns| => FormatScore(ns[i]));
  }

  /** The URL itself is recovered exactly when it is well-formed. */
  lemma SourceUrlRecoveredIff(x: Input)
    requires CanonicalEvidenceBytes(x).Ok?
    ensures ParseCommitment(CanonicalEvidenceBytes(x).value).Some?
    ensures ParseCommitment(CanonicalEvidenceBytes(x).value).value.sourceUrl == TrimmedUrl(x.sourceUrl)
       <==> WellFormed(TrimmedUrl(x.sourceUrl))
  {
    CommitmentRoundTrip(x);
    ToWellFormedFixpoint(TrimmedUrl(x.sourceUrl));
  }

  function UrlEndingIn(u: CodeUnit): Input {
    Input(Ascii("x"), Ascii("direct"), Some(Ascii("http://") + [u]), None, 0.0, None)
  }

  lemma ReplacedAlike(s: JsString)
    requires s == [] || !IsHigh(s[|s| - 1])
    ensures ToWellFormed(s + [0xD800]) == ToWellFormed(s + [0xD801])
  {
    ToWellFormedConcat(s, [0xD800]);
    ToWellFormedConcat(s, [0xD801]);
    assert Scalars([0xD800]) == [REPLACEMENT] == Scalars([0xD801]);
  }

  lemma CollidingCommitments()
    requires CanonicalEvidenceBytes(UrlEndingIn(0xD800)).Ok? && CanonicalEvidenceBytes(UrlEndingIn(0xD801)).Ok?
    requires TrimmedUrl(UrlEndingIn(0xD800).sourceUrl) == Ascii("http://") + [0xD800]
    requires TrimmedUrl(UrlEndingIn(0xD801).sourceUrl) == Ascii("http://") + [0xD801]
    ensures CommitmentOf(UrlEndingIn(0xD800)) == CommitmentOf(UrlEndingIn(0xD801))
  {
    ReplacedAlike(Ascii("http://"));
  }

  /** Two URLs that differ in an unpaired surrogate collide, since only evidence is tested. */
  lemma IllFormedUrlsCollide()
    ensures UrlEndingIn(0xD800).sourceUrl != UrlEndingIn(0xD801).sourceUrl
    ensures CanonicalEvidenceBytes(UrlEndingIn(0xD800)).Ok?
    ensures CanonicalEvidenceBytes(UrlEndingIn(0xD800)) == CanonicalEvidenceBytes(UrlEndingIn(0xD801))
  {
    UrlAccepted(0xD800);
    UrlAccepted(0xD801);
    CollidingCommitments();
    SameBytesIffSameCommitment(UrlEndingIn(0xD800), UrlEndingIn(0xD801));
    assert (Ascii("http://") + [0xD800])[7] != (Ascii("http://") + [0xD801])[7];
  }

  lemma UrlAccepted(u: CodeUnit)
    requires 0xD800 <= u <= 0xD801
    ensures TrimmedUrl(UrlEndingIn(u).sourceUrl) == Ascii("http://") + [u]
    ensures CanonicalEvidenceBytes(UrlEndingIn(u)).Ok?
  {
    var s := Ascii("http://") + [u];
    assert s[0] == 0x68 && s[7] == u;
    assert TrimStart(s) == s && TrimEnd(s) == s;
    assert Ascii("http://") <= LowerAscii(s);
    assert !(Ascii("https://") <= LowerAscii(s)) by { assert LowerAscii(s)[4] == 0x3A != Ascii("https://")[4]; }
    var e := Ascii("x");
    assert e == [0x78];
    AsciiBytes(e);
    LoneSurrogateIffIllFormed(e);
  }

  // ----- Verification -----

  /** An expected digest as a reader may paste it: trimmed, lower-cased, without "0x". */
  function NormalizeDigest(expected: JsString): JsString {
    var s := LowerAscii(Trim(expected));
    if Ascii("0x") <= s then s[2..] else s
  }

  /** A hexadecimal digest is recognised in either case, with or without "0x", and nothing else is. */
  lemma DigestForms(digest: JsString, expected: JsString)
    requires forall u | u in digest :: IsDigit(u) || 0x61 <= u <= 0x66
    ensures NormalizeDigest(expected) == digest
       <==> LowerAscii(Trim(expected)) in {digest, Ascii("0x") + digest}
  {
    var s, prefix := LowerAscii(Trim(expected)), Ascii("0x");
    assert prefix == [0x30, 0x78];
    if prefix <= s {
      assert s == prefix + s[2..] && s[1] == 0x78 && s[1] in s;
    }
    if s == prefix + digest { assert s[2..] == digest; }
  }

  /** `sha` stands for SHA-256 followed by lower-case hexadecimal rendering. */
  predicate VerifyEvidenceCommitment(sha: Bytes -> JsString, x: Input, expected: JsString) {
    CanonicalEvidenceBytes(x).Ok? && sha(CanonicalEvidenceBytes(x).value) == NormalizeDigest(expected)
  }

  /** Two different byte strings of these inputs under one digest. */
  predicate Collide(sha: Bytes -> JsString, x: Input, y: Input)
    requires CanonicalEvidenceBytes(x).Ok? && CanonicalEvidenceBytes(y).Ok?
  {
    && CanonicalEvidenceBytes(x).value != CanonicalEvidenceBytes(y).value
    && sha(CanonicalEvidenceBytes(x).value) == sha(CanonicalEvidenceBytes(y).value)
  }

  /** A digest published for one input verifies another exactly when both commit to the same
      thing, or their own different bytes collide under the hash. */
  lemma VerifiedMeansSameCommitment(sha: Bytes -> JsString, x: Input, y: Input, expected: JsString)
    requires CanonicalEvidenceBytes(x).Ok? && CanonicalEvidenceBytes(y).Ok?
    requires NormalizeDigest(expected) == sha(CanonicalEvidenceBytes(y).value)
    ensures VerifyEvidenceCommitment(sha, x, expected) <==> CommitmentOf(x) == CommitmentOf(y) || Collide(sha, x, y)
  {
    SameBytesIffSameCommitment(x, y);
  }
}
