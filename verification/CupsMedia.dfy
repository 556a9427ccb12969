/** CUPS media tokens: building the one a print job asks for, and reading those a driver offers. */
module CupsMedia {
  import opened Outcomes
  import opened PaperSizes
  import Protocol
  import Text

  datatype PaperInfo = PaperInfo(id: string, name: string, width: int, height: int)

  // -------------------------------------------------------------------------
  // Building the media option
  // -------------------------------------------------------------------------

  function CustomMediaOption(width: int, height: int): string {
    "Custom." + FormatMm(width) + "x" + FormatMm(height) + "mm"
  }

  predicate IsMediaToken(value: string) {
    "Custom." <= value
  }

  /** A custom token of the driver is used as it is; every other paper is named by its size. */
  function MediaOption(paper: PaperInfo): string {
    if IsMediaToken(paper.id) then paper.id else CustomMediaOption(paper.width, paper.height)
  }

  /** The paper a job's size stands for. */
  function RequestedPaper(width: int, height: int): PaperInfo {
    PaperInfo("custom_" + FormatMm(width) + "x" + FormatMm(height) + "mm", PaperName(width, height), width, height)
  }

  /** Sizes match within less than a hundredth of a millimetre. */
  function FindMatching(papers: seq<PaperInfo>, paper: PaperInfo): Option<PaperInfo> {
    if papers == [] then None
    else if papers[0].width == paper.width && papers[0].height == paper.height then Some(papers[0])
    else FindMatching(papers[1..], paper)
  }

  function ResolvePaper(papers: seq<PaperInfo>, paper: PaperInfo): PaperInfo {
    FindMatching(papers, paper).GetOr(paper)
  }

  // -------------------------------------------------------------------------
  // Reading a media token
  // -------------------------------------------------------------------------

  datatype KnownPaper = KnownPaper(tokens: seq<string>, name: string, width: int, height: int)

  const KNOWN_PAPERS: seq<KnownPaper> := [
    KnownPaper(["a3", "a3jis"], "A3", 29700, 42000),
    KnownPaper(["a4", "a4jis"], "A4", 21000, 29700),
    KnownPaper(["a5", "a5jis"], "A5", 14800, 21000),
    KnownPaper(["a6", "a6jis"], "A6", 10500, 14800),
    KnownPaper(["b4jis"], "B4", 25700, 36400),
    KnownPaper(["b5jis"], "B5", 18200, 25700),
    KnownPaper(["b6jis"], "B6", 12800, 18200),
    KnownPaper(["letter"], "Letter", 21590, 27940),
    KnownPaper(["legal"], "Legal", 21590, 35560),
    KnownPaper(["tabloid"], "Tabloid", 27940, 43180),
    KnownPaper(["ledger"], "Ledger", 43180, 27940),
    KnownPaper(["executive"], "Executive", 18415, 26670)
  ]

  function TokenChar(c: char): char {
    if 'a' <= c <= 'z' || IsDigit(c) then c else if 'A' <= c <= 'Z' then Text.LowerChar(c) else '_'
  }

  function NormalizedToken(choice: string): string {
    seq(|choice|, i requires 0 <= i < |choice| => TokenChar(choice[i]))
  }

  predicate HasPart(parts: seq<string>, tokens: seq<string>) {
    exists t :: t in tokens && t in parts
  }

  function FirstKnown(parts: seq<string>, papers: seq<KnownPaper>): Option<KnownPaper> {
    if papers == [] then None
    else if HasPart(parts, papers[0].tokens) then Some(papers[0])
    else FirstKnown(parts, papers[1..])
  }

  function KnownPaperSize(choice: string): Option<KnownPaper> {
    FirstKnown(Text.Split(NormalizedToken(choice), '_'), KNOWN_PAPERS)
  }

  /** `220mmx330mm` is read like `220x330mm`. */
  function DropInnerUnit(s: string): string {
    if s == "" then ""
    else if "mmx" <= s then "x" + DropInnerUnit(s[3..])
    else [s[0]] + DropInnerUnit(s[1..])
  }

  datatype SizeUnit = Millimetres | Inches | Unstated

  predicate EndsWith(s: string, suffix: string) {
    |suffix| <= |s| && s[|s| - |suffix|..] == suffix
  }

  function StripUnit(s: string): (r: (string, SizeUnit)) {
    var lower := Text.ToAsciiLower(s);
    if EndsWith(lower, "mm") then (s[..|s| - 2], Millimetres)
    else if EndsWith(lower, "in") then (s[..|s| - 2], Inches)
    else (s, Unstated)
  }

  function LastIndexOf(s: string, c: char): (r: Option<nat>)
    ensures r.Some? ==> r.value < |s| && s[r.value] == c
  {
    if s == "" then None
    else if s[|s| - 1] == c then Some(|s| - 1)
    else LastIndexOf(s[..|s| - 1], c)
  }

  lemma {:induction false} TrimmedIsShorter(s: string)
    ensures |Text.TrimEnd(s, IsNumeric)| <= |s| && |Text.TrimStart(s, IsNumeric)| <= |s|
  {
    Text.TrimEndResult(s, IsNumeric);
    Text.TrimStartResult(s, IsNumeric);
  }

  function TrailingNumber(s: string): (r: Option<real>)
    ensures r.Some? ==> r.value >= 0.0
  {
    TrimmedIsShorter(s);
    ParseDecimal(s[|Text.TrimEnd(s, IsNumeric)|..])
  }

  function LeadingNumber(s: string): (r: Option<real>)
    ensures r.Some? ==> r.value >= 0.0
  {
    TrimmedIsShorter(s);
    ParseDecimal(s[..|s| - |Text.TrimStart(s, IsNumeric)|])
  }

  /** Nearest hundredth of a millimetre, halves up. */
  function RoundMm(mm: real): int {
    (mm * 100.0 + 0.5).Floor
  }

  function ParseDimensionPair(size: string): Option<(int, int)> {
    var (text, unit) := StripUnit(DropInnerUnit(size));
    var x := LastIndexOf(text, 'x');
    if x.None? then None
    else
      var width, height := TrailingNumber(text[..x.value]), LeadingNumber(text[x.value + 1..]);
      if width.None? || height.None? then None else Some(InMillimetres(unit, width.value, height.value))
  }

  /** Small sizes without a unit are taken for inches. */
  function InMillimetres(unit: SizeUnit, width: real, height: real): (int, int) {
    if unit.Inches? || (unit.Unstated? && width <= 20.0 && height <= 20.0) then (RoundMm(width * 25.4), RoundMm(height * 25.4))
    else (RoundMm(width), RoundMm(height))
  }

  function StripCustomPrefix(choice: string): string {
    if "Custom." <= choice then choice[7..] else if "custom_" <= choice then choice[7..] else choice
  }

  function ParsePaperChoice(choice: string): Option<PaperInfo> {
    match KnownPaperSize(choice)
    case Some(known) => Some(PaperInfo(choice, known.name, known.width, known.height))
    case None =>
      match ParseDimensionPair(StripCustomPrefix(choice))
      case None => None
      case Some((width, height)) => Some(PaperInfo(choice, PaperName(width, height), width, height))
  }

  function ParseChoices(choices: seq<string>): seq<PaperInfo> {
    if choices == [] then []
    else
      (match ParsePaperChoice(choices[0]) case Some(paper) => [paper] case None => []) + ParseChoices(choices[1..])
  }

  const LABEL_PAPERS: seq<PaperInfo> := [
    PaperInfo("label_40x30", "40 x 30 mm", 4000, 3000),
    PaperInfo("label_50x30", "50 x 30 mm", 5000, 3000),
    PaperInfo("label_60x40", "60 x 40 mm", 6000, 4000),
    PaperInfo("label_80x50", "80 x 50 mm", 8000, 5000),
    PaperInfo("label_100x150", "100 x 150 mm", 10000, 15000)
  ]

  /** The papers of a printer: what the driver's choices parse to, or common label sizes. */
  function ListPapers(choices: seq<string>): seq<PaperInfo> {
    if ParseChoices(choices) == [] then LABEL_PAPERS else ParseChoices(choices)
  }

  // -------------------------------------------------------------------------
  // Round trip
  // -------------------------------------------------------------------------

  ghost predicate ParsesTo(choice: string, width: int, height: int) {
    var p := ParsePaperChoice(choice);
    p.Some? && p.value.width == width && p.value.height == height
  }

  /** A character that tells a named paper from a size token. */
  predicate SizeTokenChar(c: char) {
    IsDigit(c) || c == 'x' || c == 'm'
  }

  /** A token whose parts are `custom` and plain sizes names no known paper. */
  lemma {:induction false} NoKnownPart(parts: seq<string>, papers: seq<KnownPaper>)
    requires forall p :: p in parts ==> p == "custom" || forall c :: c in p ==> SizeTokenChar(c)
    requires forall k, t :: 0 <= k < |papers| && t in papers[k].tokens ==> t != "custom" && exists c :: c in t && !SizeTokenChar(c)
    ensures FirstKnown(parts, papers).None?
  {
    if papers != [] {
      var rest := papers[1..];
      forall k, t | 0 <= k < |rest| && t in rest[k].tokens
        ensures t != "custom" && exists c :: c in t && !SizeTokenChar(c)
      {
        assert rest[k] == papers[k + 1];
      }
      NoKnownPart(parts, rest);
      assert papers[0].tokens == papers[0].tokens;
    }
  }

  lemma KnownTokensHaveMarks()
    ensures forall k, t :: 0 <= k < |KNOWN_PAPERS| && t in KNOWN_PAPERS[k].tokens ==>
              t != "custom" && exists c :: c in t && !SizeTokenChar(c)
  {
    forall k, t | 0 <= k < |KNOWN_PAPERS| && t in KNOWN_PAPERS[k].tokens
      ensures t != "custom" && exists c :: c in t && !SizeTokenChar(c)
    {
      assert t[0] in t && !SizeTokenChar(t[0]) && t[0] != 'c';
    }
  }

  lemma SizeTokenIsNotKnown(w: string, h: string)
    requires Numeric(w) && Numeric(h)
    ensures KnownPaperSize("Custom." + (w + "x" + h + "mm")).None?
  {
    var rest := w + "x" + h + "mm";
    var token := NormalizedToken("Custom." + rest);
    assert token == "custom" + ['_'] + NormalizedToken(rest);
    Text.SplitConcat("custom", NormalizedToken(rest), '_');
    Text.SplitWhole("custom", '_');
    RestParts(w, h);
    KnownTokensHaveMarks();
    NoKnownPart(Text.Split(token, '_'), KNOWN_PAPERS);
  }

  lemma RestParts(w: string, h: string)
    requires Numeric(w) && Numeric(h)
    ensures forall p, c :: p in Text.Split(NormalizedToken(w + "x" + h + "mm"), '_') && c in p ==> SizeTokenChar(c)
  {
    var rest := w + "x" + h + "mm";
    Text.SplitPieces(NormalizedToken(rest), '_');
    forall c | c in NormalizedToken(rest) ensures SizeTokenChar(c) || c == '_' {
      var i :| 0 <= i < |rest| && TokenChar(rest[i]) == c;
      assert rest[i] in rest;
    }
  }

  lemma {:induction false} NoInnerUnit(s: string)
    requires forall i :: 0 <= i < |s| - 2 ==> s[i] != 'm'
    ensures DropInnerUnit(s) == s
  {
    if s != "" {
      assert |s| >= 3 ==> s[0] != "mmx"[0];
      NoInnerUnit(s[1..]);
    }
  }

  lemma {:induction false} LastIndexAt(a: string, b: string)
    requires 'x' !in b
    ensures LastIndexOf(a + "x" + b, 'x') == Some(|a|)
  {
    var s := a + "x" + b;
    if b == "" {
    } else {
      assert s[|s| - 1] == b[|b| - 1] && b[|b| - 1] in b;
      assert s[..|s| - 1] == a + "x" + b[..|b| - 1];
      LastIndexAt(a, b[..|b| - 1]);
    }
  }

  lemma NumericWhole(s: string)
    requires Numeric(s)
    ensures TrailingNumber(s) == ParseDecimal(s) && LeadingNumber(s) == ParseDecimal(s)
  {
    Text.TrimEndResult(s, IsNumeric);
    Text.TrimStartResult(s, IsNumeric);
    assert Text.TrimEnd(s, IsNumeric) == "" && Text.TrimStart(s, IsNumeric) == "";
    assert s[0..] == s && s[..|s| - 0] == s;
  }

  lemma NoUnitInside(w: string, h: string)
    requires Numeric(w) && Numeric(h)
    ensures DropInnerUnit(w + "x" + h + "mm") == w + "x" + h + "mm"
    ensures StripUnit(w + "x" + h + "mm") == (w + "x" + h, Millimetres)
  {
    var size := w + "x" + h + "mm";
    forall i | 0 <= i < |size| - 2 ensures size[i] != 'm' {
      assert i < |w| ==> size[i] in w;
      assert i > |w| ==> size[i] == h[i - |w| - 1] && size[i] in h;
    }
    NoInnerUnit(size);
    var lower := Text.ToAsciiLower(size);
    assert lower[|lower| - 2..] == "mm";
    assert size[..|size| - 2] == w + "x" + h;
  }

  lemma SizeTextParses(w: string, h: string)
    requires Numeric(w) && Numeric(h) && ParseDecimal(w).Some? && ParseDecimal(h).Some?
    ensures ParseDimensionPair(w + "x" + h + "mm") == Some((RoundMm(ParseDecimal(w).value), RoundMm(ParseDecimal(h).value)))
  {
    NoUnitInside(w, h);
    NoSeparatorInside(h);
    LastIndexAt(w, h);
    assert (w + "x" + h)[..|w|] == w && (w + "x" + h)[|w| + 1..] == h;
    NumericWhole(w);
    NumericWhole(h);
  }

  lemma NoSeparatorInside(h: string)
    requires Numeric(h)
    ensures 'x' !in h
  {
  }

  lemma RoundExact(hundredths: nat)
    ensures RoundMm(hundredths as real / 100.0) == hundredths
  {
    assert hundredths as real / 100.0 * 100.0 == hundredths as real;
  }

  /** Every size a token parses to is non-negative. */
  lemma ParsedSizesAreNonNegative(choice: string)
    ensures var p := ParsePaperChoice(choice); p.Some? ==> p.value.width >= 0 && p.value.height >= 0
  {
    match KnownPaperSize(choice)
    case Some(known) => FirstKnownIsListed(Text.Split(NormalizedToken(choice), '_'), KNOWN_PAPERS);
    case None =>
  }

  lemma {:induction false} FirstKnownIsListed(parts: seq<string>, papers: seq<KnownPaper>)
    ensures FirstKnown(parts, papers).Some? ==> FirstKnown(parts, papers).value in papers
  {
    if papers != [] { FirstKnownIsListed(parts, papers[1..]); }
  }

  lemma SideParses(hundredths: nat)
    ensures var text := FormatSize(hundredths);
            Numeric(text) && ParseDecimal(text).Some? && RoundMm(ParseDecimal(text).value) == hundredths
  {
    FormatIsNumeric(hundredths);
    FormatParses(hundredths);
    RoundExact(hundredths);
  }

  function SizeToken(w: string, h: string): string {
    "Custom." + (w + "x" + h + "mm")
  }

  lemma TokenText(width: nat, height: nat)
    ensures CustomMediaOption(width, height) == SizeToken(FormatSize(width), FormatSize(height))
  {
    var w, h := FormatSize(width), FormatSize(height);
    assert "Custom." + w + "x" + h + "mm" == "Custom." + (w + "x" + h + "mm");
  }

  lemma CustomTokenParses(width: nat, height: nat)
    ensures ParsesTo(CustomMediaOption(width, height), width, height)
  {
    SideParses(width);
    SideParses(height);
    TokenText(width, height);
    TokenOfSidesParses(FormatSize(width), FormatSize(height), width, height);
  }

  lemma TokenOfSidesParses(w: string, h: string, width: int, height: int)
    requires Numeric(w) && Numeric(h) && ParseDecimal(w).Some? && ParseDecimal(h).Some?
    requires RoundMm(ParseDecimal(w).value) == width && RoundMm(ParseDecimal(h).value) == height
    ensures ParsesTo(SizeToken(w, h), width, height)
  {
    SizeTokenIsNotKnown(w, h);
    assert SizeToken(w, h)[7..] == w + "x" + h + "mm";
    SizeTextParses(w, h);
  }

  /** Parsing a custom token gives back its size exactly when the size is not negative. */
  lemma CustomTokenRoundTrip(width: int, height: int)
    ensures ParsesTo(CustomMediaOption(width, height), width, height) <==> width >= 0 && height >= 0
  {
    var choice := CustomMediaOption(width, height);
    ParsedSizesAreNonNegative(choice);
    if width >= 0 && height >= 0 {
      CustomTokenParses(width, height);
    }
  }

  lemma {:induction false} ParsedChoices(choices: seq<string>)
    ensures forall p :: p in ParseChoices(choices) ==> ParsePaperChoice(p.id) == Some(p)
  {
    if choices != [] { ParsedChoices(choices[1..]); }
  }

  lemma {:induction false} FoundPaperMatches(papers: seq<PaperInfo>, paper: PaperInfo)
    ensures var f := FindMatching(papers, paper);
            f.Some? ==> f.value in papers && f.value.width == paper.width && f.value.height == paper.height
  {
    if papers != [] { FoundPaperMatches(papers[1..], paper); }
  }

  /** The media option that a size is printed with, given the driver's papers, stands for that very size. */
  ghost predicate PrintsAsAsked(choices: seq<string>, width: int, height: int) {
    ParsesTo(MediaOption(ResolvePaper(ListPapers(choices), RequestedPaper(width, height))), width, height)
  }

  /**
   * Whatever papers the driver offers, the media option a job is printed with parses back to the size
   * the job asked for, exactly when that size is not negative.
   */
  lemma PrintedMediaHasRequestedSize(choices: seq<string>, width: int, height: int)
    ensures PrintsAsAsked(choices, width, height) <==> width >= 0 && height >= 0
  {
    var papers, request := ListPapers(choices), RequestedPaper(width, height);
    ParsedChoices(choices);
    FoundPaperMatches(papers, request);
    var paper := ResolvePaper(papers, request);
    ParsedSizesAreNonNegative(MediaOption(paper));
    assert request.id[0] == 'c';
    if IsMediaToken(paper.id) {
      assert paper.id[0] == 'C';
      assert paper in ParseChoices(choices);
    } else {
      CustomTokenRoundTrip(width, height);
    }
  }

  /** Acceptance never looks at the size of a paper. */
  lemma AcceptanceIgnoresPaperSize(lib: Protocol.Library, job: Protocol.PrintJob, maxFileSizeMb: nat, paper: Protocol.Paper)
    requires job.format != Protocol.Raw
    ensures Protocol.Acceptable(lib, job.(paper := Some(paper)), maxFileSizeMb) <==> Protocol.Acceptable(lib, job, maxFileSizeMb)
  {
  }

  /**
   * So an acceptable job may ask for a negative size, and the media option it is printed with then stands for another
   * one; with a size that is not negative it never does.
   */
  lemma AcceptedPaperPrintsAsAsked(lib: Protocol.Library, job: Protocol.PrintJob, maxFileSizeMb: nat, choices: seq<string>, paper: Protocol.Paper)
    requires job.format != Protocol.Raw && Protocol.Acceptable(lib, job, maxFileSizeMb)
    ensures Protocol.Acceptable(lib, job.(paper := Some(paper)), maxFileSizeMb)
    ensures PrintsAsAsked(choices, paper.width, paper.height) <==> paper.width >= 0 && paper.height >= 0
  {
    AcceptanceIgnoresPaperSize(lib, job, maxFileSizeMb, paper);
    PrintedMediaHasRequestedSize(choices, paper.width, paper.height);
  }

  // -------------------------------------------------------------------------
  // What names and inches stand for
  // -------------------------------------------------------------------------

  predicate IsAlphanumeric(c: char) {
    'a' <= c <= 'z' || 'A' <= c <= 'Z' || '0' <= c <= '9'
  }

  /** A driver's choice that holds the token in any case, with no letter or digit next to it. */
  ghost predicate Holds(choice: string, i: nat, token: string) {
    && i + |token| <= |choice| && Text.ToAsciiLower(choice[i..i + |token|]) == token
    && (i > 0 ==> !IsAlphanumeric(choice[i - 1])) && (i + |token| < |choice| ==> !IsAlphanumeric(choice[i + |token|]))
  }

  /** The token is one of the parts the choice is taken to. */
  ghost predicate Names(choice: string, token: string) {
    token in Text.Split(NormalizedToken(choice), '_')
  }

  /** The sheets of the A and B series, longest first: the next is as wide as half the sheet is long. */
  ghost predicate HalvesTo(larger: KnownPaper, smaller: KnownPaper) {
    smaller.height == larger.width && smaller.width == larger.height / 200 * 100
  }

  /** A size in quarters of an inch, at 25.4 millimetres an inch. */
  ghost predicate InQuarterInches(paper: KnownPaper, width: int, height: int) {
    4 * paper.width == width * 2540 && 4 * paper.height == height * 2540
  }

  /** The paper listed under a token. */
  ghost predicate Listed(paper: KnownPaper, token: string) {
    paper in KNOWN_PAPERS && token in paper.tokens
  }

  /** Every listed size is the standard one: halved sheets from A3 and from the Japanese B4, and the American ones in inches. */
  lemma KnownSizesAreStandard()
    ensures var k := KNOWN_PAPERS;
            && |k| == 12
            && k[0] == KnownPaper(["a3", "a3jis"], "A3", 29700, 42000)
            && HalvesTo(k[0], k[1]) && HalvesTo(k[1], k[2]) && HalvesTo(k[2], k[3])
            && k[4] == KnownPaper(["b4jis"], "B4", 25700, 36400) && HalvesTo(k[4], k[5]) && HalvesTo(k[5], k[6])
            && InQuarterInches(k[7], 34, 44) && InQuarterInches(k[8], 34, 56) && InQuarterInches(k[9], 44, 68)
            && InQuarterInches(k[10], 68, 44) && InQuarterInches(k[11], 29, 42)
    ensures Listed(KNOWN_PAPERS[1], "a4") && Listed(KNOWN_PAPERS[1], "a4jis") && Listed(KNOWN_PAPERS[2], "a5") && Listed(KNOWN_PAPERS[2], "a5jis")
    ensures Listed(KNOWN_PAPERS[3], "a6") && Listed(KNOWN_PAPERS[3], "a6jis") && Listed(KNOWN_PAPERS[5], "b5jis") && Listed(KNOWN_PAPERS[6], "b6jis")
    ensures Listed(KNOWN_PAPERS[7], "letter") && Listed(KNOWN_PAPERS[8], "legal") && Listed(KNOWN_PAPERS[9], "tabloid")
    ensures Listed(KNOWN_PAPERS[10], "ledger") && Listed(KNOWN_PAPERS[11], "executive")
  {
  }

  /** Where a text continues after a separator, its first part stands alone. */
  lemma PartBefore(part: string, tail: string)
    requires '_' !in part && (tail == "" || tail[0] == '_')
    ensures part in Text.Split(part + tail, '_')
  {
    Text.SplitWhole(part, '_');
    if tail == "" {
      assert part + tail == part;
    } else {
      Text.SplitConcat(part, tail[1..], '_');
      assert part + ['_'] + tail[1..] == part + tail;
      assert ([part] + Text.Split(tail[1..], '_'))[0] == part;
    }
  }

  lemma PartBehind(head: string, rest: string, part: string)
    requires part in Text.Split(rest, '_')
    ensures part in Text.Split(head + ['_'] + rest, '_')
  {
    Text.SplitConcat(head, rest, '_');
  }

  lemma HeldTokenIsNamed(choice: string, i: nat, token: string)
    requires Holds(choice, i, token) && forall c :: c in token ==> 'a' <= c <= 'z' || '0' <= c <= '9'
    ensures Names(choice, token)
  {
    var text, j := NormalizedToken(choice), i + |token|;
    forall k | i <= k < j ensures text[k] == token[k - i] {
      assert Text.ToAsciiLower(choice[i..j])[k - i] == Text.LowerChar(choice[k]) && token[k - i] in token;
    }
    var rest := token + text[j..];
    assert text[i..j] == token && text[i..] == rest;
    PartBefore(token, text[j..]);
    if i == 0 {
      assert text == rest;
    } else {
      PartBehind(text[..i - 1], rest, token);
      assert text == text[..i - 1] + ['_'] + rest;
    }
  }

  lemma KnownTokensAreLower(k: nat, token: string)
    requires k < |KNOWN_PAPERS| && token in KNOWN_PAPERS[k].tokens
    ensures forall c :: c in token ==> 'a' <= c <= 'z' || '0' <= c <= '9'
  {
  }

  lemma {:induction false} FirstNamed(parts: seq<string>, papers: seq<KnownPaper>, k: nat, token: string)
    requires k < |papers| && token in papers[k].tokens && token in parts
    requires forall j, t :: 0 <= j < k && t in papers[j].tokens ==> t !in parts
    ensures FirstKnown(parts, papers) == Some(papers[k])
  {
    if k > 0 {
      assert !HasPart(parts, papers[0].tokens);
      forall j, t | 0 <= j < k - 1 && t in papers[1..][j].tokens ensures t !in parts {
        assert papers[1..][j] == papers[j + 1];
      }
      FirstNamed(parts, papers[1..], k - 1, token);
    }
  }

  /** A choice that holds the token of a listed paper, and names none listed before it, stands for that paper's size. */
  lemma NamedPaperHasItsSize(choice: string, i: nat, k: nat, token: string)
    requires k < |KNOWN_PAPERS| && token in KNOWN_PAPERS[k].tokens && Holds(choice, i, token)
    requires forall j, t :: 0 <= j < k && t in KNOWN_PAPERS[j].tokens ==> !Names(choice, t)
    ensures ParsesTo(choice, KNOWN_PAPERS[k].width, KNOWN_PAPERS[k].height)
  {
    var parts := Text.Split(NormalizedToken(choice), '_');
    KnownTokensAreLower(k, token);
    HeldTokenIsNamed(choice, i, token);
    forall j, t | 0 <= j < k && t in KNOWN_PAPERS[j].tokens ensures t !in parts {
      assert !Names(choice, t);
    }
    FirstNamed(parts, KNOWN_PAPERS, k, token);
  }

  lemma InchUnit(w: string, h: string)
    requires Numeric(w) && Numeric(h)
    ensures DropInnerUnit(w + "x" + h + "in") == w + "x" + h + "in" && StripUnit(w + "x" + h + "in") == (w + "x" + h, Inches)
  {
    var size := w + "x" + h + "in";
    forall i | 0 <= i < |size| - 2 ensures size[i] != 'm' {
      assert i < |w| ==> size[i] in w;
      assert i > |w| ==> size[i] == h[i - |w| - 1] && size[i] in h;
    }
    NoInnerUnit(size);
    var lower := Text.ToAsciiLower(size);
    assert lower[|lower| - 2..] == "in";
    assert size[..|size| - 2] == w + "x" + h;
  }

  lemma SplitAtX(w: string, h: string)
    requires Numeric(w) && Numeric(h)
    ensures LastIndexOf(w + "x" + h, 'x') == Some(|w|)
    ensures TrailingNumber((w + "x" + h)[..|w|]) == ParseDecimal(w) && LeadingNumber((w + "x" + h)[|w| + 1..]) == ParseDecimal(h)
  {
    NoSeparatorInside(h);
    LastIndexAt(w, h);
    assert (w + "x" + h)[..|w|] == w && (w + "x" + h)[|w| + 1..] == h;
    NumericWhole(w);
    NumericWhole(h);
  }

  /** In hundredths, halves up. */
  ghost predicate IsRounded(hundredths: int, mm: real) {
    hundredths as real <= mm * 100.0 + 0.5 < hundredths as real + 1.0
  }

  lemma RoundsToNearest(mm: real)
    ensures IsRounded(RoundMm(mm), mm)
  {
  }

  /** Both sides of a parsed pair are these millimetres, rounded. */
  ghost predicate Measures(size: Option<(int, int)>, width: real, height: real) {
    size.Some? && IsRounded(size.value.0, width) && IsRounded(size.value.1, height)
  }

  lemma PairText(size: string, w: string, h: string, unit: SizeUnit)
    requires Numeric(w) && Numeric(h) && ParseDecimal(w).Some? && ParseDecimal(h).Some?
    requires StripUnit(DropInnerUnit(size)) == (w + "x" + h, unit)
    ensures ParseDimensionPair(size) == Some(InMillimetres(unit, ParseDecimal(w).value, ParseDecimal(h).value))
  {
    SplitAtX(w, h);
  }

  lemma MillimetresAreRounded(unit: SizeUnit, x: real, y: real)
    ensures if unit.Inches? || (unit.Unstated? && x <= 20.0 && y <= 20.0)
            then Measures(Some(InMillimetres(unit, x, y)), x * 25.4, y * 25.4)
            else Measures(Some(InMillimetres(unit, x, y)), x, y)
  {
    RoundsToNearest(x);
    RoundsToNearest(y);
    RoundsToNearest(x * 25.4);
    RoundsToNearest(y * 25.4);
  }

  /** A size in inches is read at 25.4 millimetres an inch, rounded to the hundredth of a millimetre. */
  lemma InchesAreRead(w: string, h: string)
    requires Numeric(w) && Numeric(h) && ParseDecimal(w).Some? && ParseDecimal(h).Some?
    ensures Measures(ParseDimensionPair(w + "x" + h + "in"), ParseDecimal(w).value * 25.4, ParseDecimal(h).value * 25.4)
  {
    InchUnit(w, h);
    PairText(w + "x" + h + "in", w, h, Inches);
    MillimetresAreRounded(Inches, ParseDecimal(w).value, ParseDecimal(h).value);
  }

  /** Without a unit a pair is in inches when neither side is over 20, and in millimetres otherwise. */
  lemma UnitIsGuessed(w: string, h: string)
    requires Numeric(w) && Numeric(h) && ParseDecimal(w).Some? && ParseDecimal(h).Some?
    ensures var (x, y) := (ParseDecimal(w).value, ParseDecimal(h).value);
            if x <= 20.0 && y <= 20.0 then Measures(ParseDimensionPair(w + "x" + h), x * 25.4, y * 25.4)
            else Measures(ParseDimensionPair(w + "x" + h), x, y)
  {
    NoUnitAtAll(w, h);
    PairText(w + "x" + h, w, h, Unstated);
    MillimetresAreRounded(Unstated, ParseDecimal(w).value, ParseDecimal(h).value);
  }

  lemma NoUnitAtAll(w: string, h: string)
    requires Numeric(w) && Numeric(h) && ParseDecimal(h).Some?
    ensures DropInnerUnit(w + "x" + h) == w + "x" + h && StripUnit(w + "x" + h) == (w + "x" + h, Unstated)
  {
    var size := w + "x" + h;
    forall i | 0 <= i < |size| ensures size[i] != 'm' && (size[i] != 'i' && size[i] != 'n') {
      assert i < |w| ==> size[i] in w;
      assert i > |w| ==> size[i] == h[i - |w| - 1] && size[i] in h;
    }
    NoInnerUnit(size);
    NoUnitEnding(size);
  }

  lemma NoUnitEnding(size: string)
    requires size != "" && (IsNumeric(size[|size| - 1]) || size[|size| - 1] == 'x')
    ensures StripUnit(size) == (size, Unstated)
  {
    var lower := Text.ToAsciiLower(size);
    assert lower[|lower| - 1] == size[|size| - 1];
    if |size| >= 2 {
      assert lower[|lower| - 2..][1] == lower[|lower| - 1];
    }
  }
}
