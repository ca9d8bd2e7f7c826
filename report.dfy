/** The screening report (analise_marca.py, `generate_recommendations` and
    `generate_report`): a fixed header with the candidate's data and the
    risk tier, up to five grounds of five lines each, the five
    recommendations and a fixed closing note, joined by newlines. The date
    and the rendering of the similarity percentage (`:.1f`) are supplied by
    the caller. */
module Report {
  import opened PyStr
  import opened Scoring
  import opened Ranking
  import opened Prose

  // ---------------------------------------------------------------------
  // Recommendations
  // ---------------------------------------------------------------------

  /** The tier-specific first recommendation. */
  function LeadPhrase(risk: Risk): Phrase {
    match risk
    case High => LeadHigh
    case Medium => LeadMedium
    case Low => LeadLow
  }

  /** The four next steps recommended at every tier. */
  function BaseRecommendations(text: Phrase -> string): seq<string> {
    [text(ExpandedSearch), text(ConceptualProximity), text(ConfirmStatus), text(Mitigation)]
  }

  function Recommendations(text: Phrase -> string, risk: Risk): seq<string> {
    [text(LeadPhrase(risk))] + BaseRecommendations(text)
  }

  /** `generate_recommendations`: the base list with the tier's lead
      inserted in front. */
  method GenerateRecommendations(text: Phrase -> string, risk: Risk) returns (recs: seq<string>)
    ensures recs == Recommendations(text, risk)
    ensures |recs| == 5 && recs[0] == text(LeadPhrase(risk)) && recs[1..] == BaseRecommendations(text)
  {
    var base := [text(ExpandedSearch), text(ConceptualProximity), text(ConfirmStatus), text(Mitigation)];
    if risk == High {
      base := [text(LeadHigh)] + base;
    } else if risk == Medium {
      base := [text(LeadMedium)] + base;
    } else {
      base := [text(LeadLow)] + base;
    }
    recs := base;
  }

  // ---------------------------------------------------------------------
  // Report lines
  // ---------------------------------------------------------------------

  /** The nineteen lines before the grounds; the last one states the tier. */
  function HeaderLines(text: Phrase -> string, name: string, niceClass: string, segment: string,
                       source: string, date: string, risk: Risk): (lines: seq<string>)
    ensures |lines| == 19 && lines[0] == text(ReportTitle) && lines[18] == text(ResultLabel) + RiskLabel(risk)
  {
    [ text(ReportTitle),
      text(DateLabel) + date,
      "",
      text(CandidateSection),
      text(TrademarkLabel) + name,
      text(ClassLabel) + niceClass,
      text(SegmentLabel) + segment,
      "",
      text(SourceSection),
      text(SourceLabel) + source,
      "",
      text(MethodSection),
      text(MethodIntro),
      text(MethodTextual),
      text(MethodPhonetic),
      text(MethodClass),
      "",
      text(RiskSection),
      text(ResultLabel) + RiskLabel(risk) ]
  }

  /** The process number and owner, when known. */
  function ExtraDetails(text: Phrase -> string, r: TrademarkRecord): seq<string> {
    (if r.numero != [] then [text(ProcessLabel) + r.numero] else [])
    + (if r.titular != [] then [text(OwnerLabel) + r.titular] else [])
  }

  function ExtraText(text: Phrase -> string, r: TrademarkRecord): string {
    var extra := ExtraDetails(text, r);
    if extra != [] then text(DetailsSeparator) + Join(extra, text(DetailSeparator)) else ""
  }

  /** The five lines of ground number `index`, given the rationale `reason`. */
  function GroundBlock(text: Phrase -> string, index: nat, m: MatchResult, reason: string, formatPercent: real -> string)
    : (block: seq<string>)
    ensures |block| == 5
  {
    [ NatToString(index) + text(PriorMarkLabel) + m.record.name,
      text(ClassStatusLabel) + m.record.niceClass + text(ClassStatusSeparator) + m.record.status + ExtraText(text, m.record),
      text(SimilarityLabel) + formatPercent(m.textSimilarity * 100.0) + text(PercentSign),
      text(RationaleLabel) + reason + text(FullStop),
      text(ScoreLabel) + IntToString(m.score) + text(ScoreSuffix) ]
  }

  /** The grounds of `top`, numbered from 1. */
  function GroundBlocks(text: Phrase -> string, reason: MatchResult -> string, top: seq<MatchResult>, formatPercent: real -> string): (lines: seq<string>)
    ensures |lines| == 5 * |top|
  {
    if top == [] then []
    else
      var m := top[|top| - 1];
      GroundBlocks(text, reason, top[..|top| - 1], formatPercent) + GroundBlock(text, |top|, m, reason(m), formatPercent)
  }

  function GroundLines(text: Phrase -> string, reason: MatchResult -> string, top: seq<MatchResult>, formatPercent: real -> string): seq<string> {
    if top == [] then [text(NoPriorRecords)] else [text(GroundsTitle)] + GroundBlocks(text, reason, top, formatPercent)
  }

  function RecommendationLines(text: Phrase -> string, recs: seq<string>): (lines: seq<string>)
    ensures |lines| == |recs|
    ensures forall j | 0 <= j < |recs| :: lines[j] == text(Bullet) + recs[j]
  {
    seq(|recs|, j requires 0 <= j < |recs| => text(Bullet) + recs[j])
  }

  function ClosingLines(text: Phrase -> string): seq<string> {
    ["", text(NoteSection), text(NoteScope), text(NoteCaseLaw), text(NoteEvidence)]
  }

  /** The matches the report cites: the five highest scores. */
  function ReportTop(matches: seq<MatchResult>): seq<MatchResult> {
    Top(matches, 5)
  }

  /** The tier the report states: that of its first cited match, or of 0. */
  function ReportRisk(matches: seq<MatchResult>): Risk {
    ClassifyRisk(HighestScore(ReportTop(matches)))
  }

  /** Every line of the report, in order. */
  function ReportLines(text: Phrase -> string, reason: MatchResult -> string, name: string, niceClass: string, segment: string,
                       matches: seq<MatchResult>, source: string, date: string,
                       formatPercent: real -> string): seq<string> {
    var top := ReportTop(matches);
    var risk := ReportRisk(matches);
    HeaderLines(text, name, niceClass, segment, source, date, risk)
    + GroundLines(text, reason, top, formatPercent)
    + ["", text(RecommendationsSection)]
    + RecommendationLines(text, Recommendations(text, risk))
    + ClosingLines(text)
  }

  /** `generate_report`: the report's lines joined by newlines. The date is
      the caller's, and `formatPercent` renders the similarity percentage
      (`:.1f`). */
  method GenerateReport(text: Phrase -> string, name: string, niceClass: string, segment: string,
                        matches: seq<MatchResult>, source: string, date: string,
                        formatPercent: real -> string)
    returns (report: string)
    ensures report == Join(ReportLines(text, ReasonText, name, niceClass, segment, matches, source, date, formatPercent), "\n")
  {
    var top := Top(matches, 5);
    var highest := if top != [] then top[0].score else 0;
    var risk := ClassifyRisk(highest);
    var header := HeaderLines(text, name, niceClass, segment, source, date, risk);
    var grounds: seq<string>;
    if top != [] {
      var blocks := CiteGrounds(text, top, formatPercent);
      grounds := [text(GroundsTitle)] + blocks;
    } else {
      grounds := [text(NoPriorRecords)];
    }
    var recs := GenerateRecommendations(text, risk);
    var recLines := ListRecommendations(text, recs);
    var lines := header + grounds + ["", text(RecommendationsSection)] + recLines + ClosingLines(text);
    assert lines == ReportLines(text, ReasonText, name, niceClass, segment, matches, source, date, formatPercent);
    report := Join(lines, "\n");
  }

  /** The `enumerate(top_matches, start=1)` loop of `generate_report`. */
  method CiteGrounds(text: Phrase -> string, top: seq<MatchResult>, formatPercent: real -> string) returns (lines: seq<string>)
    ensures lines == GroundBlocks(text, ReasonText, top, formatPercent)
  {
    lines := [];
    var i := 0;
    while i < |top|
      invariant 0 <= i <= |top|
      invariant lines == GroundBlocks(text, ReasonText, top[..i], formatPercent)
    {
      var m := top[i];
      var rationale := FormatReason(m);
      var block := CiteGround(text, i + 1, m, rationale, formatPercent);
      GroundBlocksSnoc(text, ReasonText, top, i, formatPercent);
      lines := lines + block;
      i := i + 1;
    }
    assert top[..i] == top;
  }

  /** Citing one more match appends its block to the grounds. */
  lemma GroundBlocksSnoc(text: Phrase -> string, reason: MatchResult -> string, top: seq<MatchResult>, i: nat, formatPercent: real -> string)
    requires i < |top|
    ensures GroundBlocks(text, reason, top[..i + 1], formatPercent)
      == GroundBlocks(text, reason, top[..i], formatPercent) + GroundBlock(text, i + 1, top[i], reason(top[i]), formatPercent)
  {
    assert top[..i + 1][..i] == top[..i];
  }

  /** One iteration of the grounds loop, statement by statement: the optional
      details, then the five lines, which `GroundBlock` states as one value. */
  method CiteGround(text: Phrase -> string, index: nat, m: MatchResult, reason: string, formatPercent: real -> string)
    returns (block: seq<string>)
    ensures block == GroundBlock(text, index, m, reason, formatPercent)
  {
    var extra: seq<string> := [];
    if m.record.numero != [] {
      extra := extra + [text(ProcessLabel) + m.record.numero];
    }
    if m.record.titular != [] {
      extra := extra + [text(OwnerLabel) + m.record.titular];
    }
    var extraText := if extra != [] then text(DetailsSeparator) + Join(extra, text(DetailSeparator)) else "";
    block := [
      NatToString(index) + text(PriorMarkLabel) + m.record.name,
      text(ClassStatusLabel) + m.record.niceClass + text(ClassStatusSeparator) + m.record.status + extraText,
      text(SimilarityLabel) + formatPercent(m.textSimilarity * 100.0) + text(PercentSign),
      text(RationaleLabel) + reason + text(FullStop),
      text(ScoreLabel) + IntToString(m.score) + text(ScoreSuffix)
    ];
  }

  /** The `for rec in recommendations` loop of `generate_report`. */
  method ListRecommendations(text: Phrase -> string, recs: seq<string>) returns (lines: seq<string>)
    ensures lines == RecommendationLines(text, recs)
  {
    lines := [];
    var j := 0;
    while j < |recs|
      invariant 0 <= j <= |recs|
      invariant lines == RecommendationLines(text, recs[..j])
    {
      lines := lines + [text(Bullet) + recs[j]];
      j := j + 1;
    }
    assert recs[..j] == recs;
  }

  // ---------------------------------------------------------------------
  // Layout of the report
  // ---------------------------------------------------------------------

  /** Ground `i` (from 0) occupies lines `5 * i` to `5 * i + 4` of the grounds. */
  lemma {:induction false} GroundBlocksAt(text: Phrase -> string, reason: MatchResult -> string, top: seq<MatchResult>, formatPercent: real -> string, i: nat, t: nat)
    requires i < |top| && t < 5
    ensures GroundBlocks(text, reason, top, formatPercent)[5 * i + t] == GroundBlock(text, i + 1, top[i], reason(top[i]), formatPercent)[t]
    decreases |top|
  {
    var init := top[..|top| - 1];
    var last := top[|top| - 1];
    assert GroundBlocks(text, reason, top, formatPercent)
      == GroundBlocks(text, reason, init, formatPercent) + GroundBlock(text, |top|, last, reason(last), formatPercent);
    if i < |top| - 1 {
      GroundBlocksAt(text, reason, init, formatPercent, i, t);
      assert init[i] == top[i];
    }
  }

  /** Line `|a| + k` of three consecutive sections is line `k` of the middle one. */
  lemma SectionIndex(a: seq<string>, b: seq<string>, c: seq<string>, k: nat)
    requires k < |b|
    ensures |a + b + c| == |a| + |b| + |c| && (a + b + c)[|a| + k] == b[k]
  {
  }

  /** The report states the tier of the highest score among all matches,
      the same tier `main` passes to the opinion. */
  lemma ReportRiskIsMaxTier(matches: seq<MatchResult>)
    ensures ReportRisk(matches) == ClassifyRisk(MaxScore(matches))
  {
    HighestScoreIsMax(matches, 5);
  }

  /** Line 19 (from 1) states the tier of the highest score. */
  lemma ReportRiskLine(text: Phrase -> string, reason: MatchResult -> string, name: string, niceClass: string, segment: string,
                       matches: seq<MatchResult>, source: string, date: string, formatPercent: real -> string)
    ensures var lines := ReportLines(text, reason, name, niceClass, segment, matches, source, date, formatPercent);
      |lines| > 18 && lines[0] == text(ReportTitle)
      && lines[18] == text(ResultLabel) + RiskLabel(ClassifyRisk(MaxScore(matches)))
  {
    ReportRiskIsMaxTier(matches);
    var risk := ReportRisk(matches);
    var header := HeaderLines(text, name, niceClass, segment, source, date, risk);
    var grounds := GroundLines(text, reason, ReportTop(matches), formatPercent);
    var recs := RecommendationLines(text, Recommendations(text, risk));
    var lines := header + grounds + ["", text(RecommendationsSection)] + recs + ClosingLines(text);
    assert lines == ReportLines(text, reason, name, niceClass, segment, matches, source, date, formatPercent);
    PrefixLine(header, grounds, ["", text(RecommendationsSection)], recs, ClosingLines(text), 0);
    PrefixLine(header, grounds, ["", text(RecommendationsSection)], recs, ClosingLines(text), 18);
  }

  lemma PrefixLine(a: seq<string>, b: seq<string>, c: seq<string>, d: seq<string>, e: seq<string>, i: nat)
    requires i < |a|
    ensures |a + b + c + d + e| > i && (a + b + c + d + e)[i] == a[i]
  {
  }

  /** Without prior records the report has 32 lines, states a low risk and
      says that no records were available. */
  lemma ReportWithoutRecords(text: Phrase -> string, reason: MatchResult -> string, name: string, niceClass: string, segment: string,
                             source: string, date: string, formatPercent: real -> string)
    ensures var lines := ReportLines(text, reason, name, niceClass, segment, [], source, date, formatPercent);
      |lines| == 32 && lines[18] == text(ResultLabel) + RiskLabel(Low) && lines[19] == text(NoPriorRecords)
      && lines[22] == text(Bullet) + text(LeadLow)
  {
    assert ReportTop([]) == [];
  }

  /** With prior records, the grounds cite up to five matches, highest
      score first: line 19 (from 0) is the grounds title, and lines
      `20 + 5 * i` to `24 + 5 * i` are the block of the `i`-th cited match,
      numbered `i + 1`, with the rationale `reason` gives it (`format_reason`
      in `generate_report`). */
  lemma ReportGrounds(text: Phrase -> string, reason: MatchResult -> string, name: string, niceClass: string, segment: string,
                      matches: seq<MatchResult>, source: string, date: string,
                      formatPercent: real -> string, i: nat, t: nat)
    requires matches != [] && i < |ReportTop(matches)| && t < 5
    ensures var lines := ReportLines(text, reason, name, niceClass, segment, matches, source, date, formatPercent);
      var top := ReportTop(matches);
      |top| <= 5 && |lines| == 32 + 5 * |top| && lines[19] == text(GroundsTitle)
      && lines[20 + 5 * i + t] == GroundBlock(text, i + 1, top[i], reason(top[i]), formatPercent)[t]
  {
    var top := ReportTop(matches);
    var risk := ReportRisk(matches);
    var header := HeaderLines(text, name, niceClass, segment, source, date, risk);
    var grounds := GroundLines(text, reason, top, formatPercent);
    var blocks := GroundBlocks(text, reason, top, formatPercent);
    var recs := RecommendationLines(text, Recommendations(text, risk));
    var rest := ["", text(RecommendationsSection)] + (recs + ClosingLines(text));
    assert grounds == [text(GroundsTitle)] + blocks;
    assert ReportLines(text, reason, name, niceClass, segment, matches, source, date, formatPercent) == header + grounds + rest by {
      ConcatAssociative(header + grounds + ["", text(RecommendationsSection)], recs, ClosingLines(text));
      ConcatAssociative(header + grounds, ["", text(RecommendationsSection)], recs + ClosingLines(text));
    }
    SectionIndex(header, grounds, rest, 0);
    SectionIndex(header, grounds, rest, 1 + 5 * i + t);
    GroundBlocksAt(text, reason, top, formatPercent, i, t);
  }

  /** After the grounds come a blank line and the recommendations title,
      and the report ends with the professional note, twelve lines after the
      grounds. */
  lemma ReportClosing(text: Phrase -> string, reason: MatchResult -> string, name: string, niceClass: string, segment: string,
                      matches: seq<MatchResult>, source: string, date: string,
                      formatPercent: real -> string)
    ensures var lines := ReportLines(text, reason, name, niceClass, segment, matches, source, date, formatPercent);
      var g := 20 + 5 * |ReportTop(matches)|;
      |lines| == g + 12 && lines[g] == "" && lines[g + 1] == text(RecommendationsSection)
      && lines[g + 11] == text(NoteEvidence)
  {
    var top := ReportTop(matches);
    var risk := ReportRisk(matches);
    var header := HeaderLines(text, name, niceClass, segment, source, date, risk);
    var grounds := GroundLines(text, reason, top, formatPercent);
    var recs := RecommendationLines(text, Recommendations(text, risk));
    var closing := ClosingLines(text);
    var intro := ["", text(RecommendationsSection)];
    assert ReportLines(text, reason, name, niceClass, segment, matches, source, date, formatPercent)
        == header + grounds + intro + recs + closing;
    TrailingLines(header, grounds, intro, recs, closing, |top|, 0);
  }

  /** The five recommendations follow the title: the lead of the stated
      tier, then the four base items, each as a bullet. */
  lemma ReportRecommendations(text: Phrase -> string, reason: MatchResult -> string, name: string, niceClass: string, segment: string,
                              matches: seq<MatchResult>, source: string, date: string,
                              formatPercent: real -> string, j: nat)
    requires j < 5
    ensures var lines := ReportLines(text, reason, name, niceClass, segment, matches, source, date, formatPercent);
      var g := 20 + 5 * |ReportTop(matches)|;
      var risk := ClassifyRisk(MaxScore(matches));
      |lines| == g + 12
      && lines[g + 2] == text(Bullet) + text(LeadPhrase(risk))
      && (j > 0 ==> lines[g + 2 + j] == text(Bullet) + BaseRecommendations(text)[j - 1])
  {
    ReportRiskIsMaxTier(matches);
    var top := ReportTop(matches);
    var risk := ReportRisk(matches);
    var header := HeaderLines(text, name, niceClass, segment, source, date, risk);
    var grounds := GroundLines(text, reason, top, formatPercent);
    var recs := RecommendationLines(text, Recommendations(text, risk));
    var closing := ClosingLines(text);
    var intro := ["", text(RecommendationsSection)];
    assert ReportLines(text, reason, name, niceClass, segment, matches, source, date, formatPercent)
        == header + grounds + intro + recs + closing;
    TrailingLines(header, grounds, intro, recs, closing, |top|, 0);
    TrailingLines(header, grounds, intro, recs, closing, |top|, j);
  }

  /** Where the sections after the grounds fall, for grounds of `n` blocks. */
  lemma TrailingLines(header: seq<string>, grounds: seq<string>, intro: seq<string>, recs: seq<string>,
                      closing: seq<string>, n: nat, j: nat)
    requires |header| == 19 && |grounds| == 1 + 5 * n && |intro| == 2 && |recs| == 5 && |closing| == 5 && j < 5
    ensures var lines := header + grounds + intro + recs + closing;
      var g := 20 + 5 * n;
      |lines| == g + 12 && lines[g] == intro[0] && lines[g + 1] == intro[1]
      && lines[g + 2 + j] == recs[j] && lines[g + 11] == closing[4]
  {
    SuffixLine(header, grounds, intro, recs, closing, 0);
    SuffixLine(header, grounds, intro, recs, closing, 1);
    SuffixLine(header, grounds, intro, recs, closing, 2 + j);
    SuffixLine(header, grounds, intro, recs, closing, 11);
  }

  lemma SuffixLine(a: seq<string>, b: seq<string>, c: seq<string>, d: seq<string>, e: seq<string>, k: nat)
    requires k < |c| + |d| + |e|
    ensures (a + b + c + d + e)[|a| + |b| + k] == (c + d + e)[k]
  {
  }
}
