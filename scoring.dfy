/** Scoring and classification (analise_marca.py): the comparison of the
    candidate mark with one prior record (`calculate_match`), the risk tier
    of a score (`classify_risk`) and the rationale text (`format_reason`). */
module Scoring {
  import opened PyStr
  import opened Normalization
  import opened Phonetic
  import opened NiceClass

  /** A prior mark: name, Nice class field, status, process number and owner
      (the last two are "" when unknown). */
  datatype TrademarkRecord = TrademarkRecord(
    name: string, niceClass: string, status: string, numero: string, titular: string)

  /** The outcome of comparing the candidate with one prior record. */
  datatype MatchResult = MatchResult(
    record: TrademarkRecord, textSimilarity: real, phoneticMatch: bool, sameClass: bool, score: int)

  /** Status phrases that mark a prior record as in force. */
  const ActiveStatuses: set<string> := {
    "active", "registered", "granted", "vigente", "deferida", "deferido",
    "em vigor", "registro de marca em vigor"
  }

  /** Some active phrase occurs inside the normalised status (a substring
      test, so long INPI status texts are recognised too). */
  predicate IsActiveStatus(status: string) {
    exists phrase | phrase in ActiveStatuses :: Contains(Normalize(status), phrase)
  }

  /** An active phrase anywhere inside the normalised status makes it
      active, also when it is part of a longer word ("inactive"). */
  lemma ActiveWithin(status: string, before: string, phrase: string, after: string)
    requires phrase in ActiveStatuses
    requires Normalize(status) == before + phrase + after
    ensures IsActiveStatus(status)
  {
    ContainsInfix(before, phrase, after);
  }

  /** Points for textual similarity: only the highest tier reached counts. */
  function TextPoints(similarity: real): int {
    if similarity >= 0.90 then 55
    else if similarity >= 0.80 then 40
    else if similarity >= 0.70 then 25
    else if similarity >= 0.60 then 12
    else 0
  }

  /** The weighted conflict score of the four signals, capped at 100. */
  function ConflictScore(similarity: real, phonetic: bool, sameClass: bool, active: bool): (score: int)
    ensures 0 <= score <= 100
  {
    var raw := TextPoints(similarity)
      + (if phonetic then 25 else 0)
      + (if sameClass then 25 else 0)
      + (if active then 15 else 0);
    if raw < 100 then raw else 100
  }

  /** `calculate_match`; `similarity` is the value of `similarity_ratio` for
      the two names, which is supplied by the caller. */
  method CalculateMatch(candidateName: string, candidateClass: string, record: TrademarkRecord, similarity: real)
    returns (m: MatchResult)
    ensures m.record == record && m.textSimilarity == similarity
    ensures m.phoneticMatch <==> SoundexCode(candidateName) == SoundexCode(record.name)
    ensures m.sameClass <==> ExtractNcl(candidateClass) == ExtractNcl(record.niceClass)
    ensures m.score == ConflictScore(similarity, m.phoneticMatch, m.sameClass, IsActiveStatus(record.status))
  {
    var candidateCode := Soundex(candidateName);
    var recordCode := Soundex(record.name);
    var phoneticMatch := candidateCode == recordCode;
    var sameClass := ExtractNcl(candidateClass) == ExtractNcl(record.niceClass);
    var activeStatus := IsActiveStatus(record.status);
    var score := AccumulateScore(similarity, phoneticMatch, sameClass, activeStatus);
    m := MatchResult(record, similarity, phoneticMatch, sameClass, score);
  }

  /** The `score +=` steps of `calculate_match` and the final `min(score, 100)`. */
  method AccumulateScore(similarity: real, phonetic: bool, sameClass: bool, active: bool) returns (capped: int)
    ensures capped == ConflictScore(similarity, phonetic, sameClass, active)
  {
    var score := 0;
    if similarity >= 0.90 {
      score := score + 55;
    } else if similarity >= 0.80 {
      score := score + 40;
    } else if similarity >= 0.70 {
      score := score + 25;
    } else if similarity >= 0.60 {
      score := score + 12;
    }
    if phonetic {
      score := score + 25;
    }
    if sameClass {
      score := score + 25;
    }
    if active {
      score := score + 15;
    }
    capped := if score < 100 then score else 100;
  }

  /** Exactly one similarity tier applies, chosen by the thresholds 0.90,
      0.80, 0.70 and 0.60. */
  lemma TextPointsTiers(similarity: real)
    ensures TextPoints(similarity) == 55 <==> similarity >= 0.90
    ensures TextPoints(similarity) == 40 <==> 0.80 <= similarity < 0.90
    ensures TextPoints(similarity) == 25 <==> 0.70 <= similarity < 0.80
    ensures TextPoints(similarity) == 12 <==> 0.60 <= similarity < 0.70
    ensures TextPoints(similarity) == 0 <==> similarity < 0.60
  {
  }

  /** Raising any single signal never lowers the score. */
  lemma ConflictScoreMonotone(s1: real, p1: bool, c1: bool, a1: bool, s2: real, p2: bool, c2: bool, a2: bool)
    requires s1 <= s2 && (p1 ==> p2) && (c1 ==> c2) && (a1 ==> a2)
    ensures ConflictScore(s1, p1, c1, a1) <= ConflictScore(s2, p2, c2, a2)
  {
  }

  /** The cap is reached exactly when the text is very close (0.90 or more)
      with phonetic and class agreement, or close (0.80 or more) with all
      three other signals; the 100 is then the capped value of 105. */
  lemma ConflictScoreMaximal(similarity: real, phonetic: bool, sameClass: bool, active: bool)
    ensures ConflictScore(similarity, phonetic, sameClass, active) == 100 <==>
      phonetic && sameClass && (similarity >= 0.90 || (similarity >= 0.80 && active))
  {
  }

  /** The three risk tiers. */
  datatype Risk = High | Medium | Low

  function ClassifyRisk(score: int): (r: Risk)
    ensures r == High <==> score >= 75
    ensures r == Medium <==> 45 <= score < 75
    ensures r == Low <==> score < 45
  {
    if score >= 75 then High else if score >= 45 then Medium else Low
  }

  /** The label the report prints for a tier. */
  function RiskLabel(r: Risk): string {
    match r
    case High => "HIGH RISK"
    case Medium => "MEDIUM RISK"
    case Low => "LOW RISK"
  }

  function Severity(r: Risk): nat {
    match r
    case Low => 0
    case Medium => 1
    case High => 2
  }

  /** A higher score never gives a milder tier. */
  lemma ClassifyRiskMonotone(a: int, b: int)
    requires a <= b
    ensures Severity(ClassifyRisk(a)) <= Severity(ClassifyRisk(b))
  {
  }

  /** A high risk needs at least some textual similarity (0.60): the other
      three signals alone add up to 65, a medium risk. */
  lemma HighRiskNeedsTextualSimilarity(similarity: real, phonetic: bool, sameClass: bool, active: bool)
    requires ClassifyRisk(ConflictScore(similarity, phonetic, sameClass, active)) == High
    ensures similarity >= 0.60
    ensures phonetic || sameClass
  {
  }

  // ---------------------------------------------------------------------
  // The rationale of one match
  // ---------------------------------------------------------------------

  /** The clauses a rationale can contain. */
  datatype Clause = HighProximity | ModerateProximity | PhoneticOverlap | IdenticalClass | AppearsActive

  function ClauseText(c: Clause): string {
    match c
    case HighProximity => "high textual proximity"
    case ModerateProximity => "moderate textual proximity"
    case PhoneticOverlap => "phonetic overlap under Soundex"
    case IdenticalClass => "identical Nice class"
    case AppearsActive => "prior mark appears active/registered"
  }

  const LimitedOverlap := "limited overlap indicators"

  /** No clause text is empty or starts like the fallback text. */
  lemma ClauseTextStart(c: Clause)
    ensures ClauseText(c) != [] && ClauseText(c)[0] != LimitedOverlap[0]
  {
  }

  /** The textual clause, if the similarity reaches 0.65. */
  function TextClause(similarity: real): (cs: seq<Clause>)
    ensures |cs| <= 1
  {
    if similarity >= 0.80 then [HighProximity]
    else if similarity >= 0.65 then [ModerateProximity] else []
  }

  /** The clause `c` when its indicator fires. */
  function ClauseIf(fires: bool, c: Clause): (cs: seq<Clause>)
    ensures |cs| <= 1
  {
    if fires then [c] else []
  }

  /** The clauses for the given indicators, in the order text, phonetics,
      class, status. */
  function Clauses(similarity: real, phonetic: bool, sameClass: bool, active: bool): seq<Clause> {
    TextClause(similarity) + ClauseIf(phonetic, PhoneticOverlap)
    + ClauseIf(sameClass, IdenticalClass) + ClauseIf(active, AppearsActive)
  }

  /** The clauses that apply to a match. */
  function ReasonClauses(m: MatchResult): seq<Clause> {
    Clauses(m.textSimilarity, m.phoneticMatch, m.sameClass, IsActiveStatus(m.record.status))
  }

  function ClauseTexts(cs: seq<Clause>): (texts: seq<string>)
    ensures |texts| == |cs|
    ensures forall i | 0 <= i < |cs| :: texts[i] == ClauseText(cs[i])
  {
    seq(|cs|, i requires 0 <= i < |cs| => ClauseText(cs[i]))
  }

  /** The clause texts joined by "; ", or the fallback text when there are none. */
  function JoinClauses(texts: seq<string>): string {
    if texts == [] then LimitedOverlap else Join(texts, "; ")
  }

  /** The rationale of a match. */
  function ReasonText(m: MatchResult): string {
    JoinClauses(ClauseTexts(ReasonClauses(m)))
  }

  /** `format_reason`, appending one clause per indicator that fires. */
  method FormatReason(m: MatchResult) returns (text: string)
    ensures text == ReasonText(m)
  {
    var active := IsActiveStatus(m.record.status);
    var reasons := CollectReasons(m.textSimilarity, m.phoneticMatch, m.sameClass, active);
    text := if reasons != [] then Join(reasons, "; ") else LimitedOverlap;
  }

  /** The `reasons.append` steps of `format_reason`. */
  method CollectReasons(similarity: real, phonetic: bool, sameClass: bool, active: bool)
    returns (reasons: seq<string>)
    ensures reasons == ClauseTexts(Clauses(similarity, phonetic, sameClass, active))
  {
    reasons := [];
    if similarity >= 0.80 {
      reasons := reasons + [ClauseText(HighProximity)];
    } else if similarity >= 0.65 {
      reasons := reasons + [ClauseText(ModerateProximity)];
    }
    ghost var clauses := TextClause(similarity);
    assert reasons == ClauseTexts(clauses);
    if phonetic {
      reasons := AppendClause(reasons, clauses, PhoneticOverlap);
    }
    clauses := clauses + ClauseIf(phonetic, PhoneticOverlap);
    if sameClass {
      reasons := AppendClause(reasons, clauses, IdenticalClass);
    }
    clauses := clauses + ClauseIf(sameClass, IdenticalClass);
    if active {
      reasons := AppendClause(reasons, clauses, AppearsActive);
    }
    clauses := clauses + ClauseIf(active, AppearsActive);
  }

  /** `reasons.append(text)` for the text of clause `c`. */
  method AppendClause(reasons: seq<string>, ghost clauses: seq<Clause>, c: Clause) returns (extended: seq<string>)
    requires reasons == ClauseTexts(clauses)
    ensures extended == reasons + [ClauseText(c)] == ClauseTexts(clauses + [c])
  {
    extended := reasons + [ClauseText(c)];
  }

  /** Each clause is present exactly when its indicator fires. */
  lemma ClausesMembership(similarity: real, phonetic: bool, sameClass: bool, active: bool)
    ensures var clauses := Clauses(similarity, phonetic, sameClass, active);
      (HighProximity in clauses <==> similarity >= 0.80)
      && (ModerateProximity in clauses <==> 0.65 <= similarity < 0.80)
      && (PhoneticOverlap in clauses <==> phonetic)
      && (IdenticalClass in clauses <==> sameClass)
      && (AppearsActive in clauses <==> active)
  {
  }

  /** Each clause of a match's rationale is present exactly when its indicator fires. */
  lemma ReasonClausesMembership(m: MatchResult)
    ensures HighProximity in ReasonClauses(m) <==> m.textSimilarity >= 0.80
    ensures ModerateProximity in ReasonClauses(m) <==> 0.65 <= m.textSimilarity < 0.80
    ensures PhoneticOverlap in ReasonClauses(m) <==> m.phoneticMatch
    ensures IdenticalClass in ReasonClauses(m) <==> m.sameClass
    ensures AppearsActive in ReasonClauses(m) <==> IsActiveStatus(m.record.status)
  {
    ClausesMembership(m.textSimilarity, m.phoneticMatch, m.sameClass, IsActiveStatus(m.record.status));
  }

  /** The slot of a clause in the fixed order; the two textual clauses share one. */
  function ClauseSlot(c: Clause): nat {
    match c
    case HighProximity => 0
    case ModerateProximity => 0
    case PhoneticOverlap => 1
    case IdenticalClass => 2
    case AppearsActive => 3
  }

  /** Slots strictly increase along `clauses`. */
  predicate InSlotOrder(clauses: seq<Clause>) {
    forall i, j | 0 <= i < j < |clauses| :: ClauseSlot(clauses[i]) < ClauseSlot(clauses[j])
  }

  predicate SlotsWithin(clauses: seq<Clause>, lo: nat, hi: nat) {
    forall i | 0 <= i < |clauses| :: lo <= ClauseSlot(clauses[i]) < hi
  }

  lemma InSlotOrderAppend(x: seq<Clause>, y: seq<Clause>, lo: nat, mid: nat, hi: nat)
    requires lo <= mid <= hi
    requires InSlotOrder(x) && SlotsWithin(x, lo, mid)
    requires InSlotOrder(y) && SlotsWithin(y, mid, hi)
    ensures InSlotOrder(x + y) && SlotsWithin(x + y, lo, hi)
  {
    var xy := x + y;
    forall i, j | 0 <= i < j < |xy| ensures ClauseSlot(xy[i]) < ClauseSlot(xy[j]) {
      if j < |x| {
        assert ClauseSlot(xy[i]) == ClauseSlot(x[i]) && ClauseSlot(xy[j]) == ClauseSlot(x[j]);
      } else if i < |x| {
        assert ClauseSlot(xy[i]) == ClauseSlot(x[i]) && ClauseSlot(xy[j]) == ClauseSlot(y[j - |x|]);
      } else {
        assert ClauseSlot(xy[i]) == ClauseSlot(y[i - |x|]) && ClauseSlot(xy[j]) == ClauseSlot(y[j - |x|]);
      }
    }
    forall i | 0 <= i < |xy| ensures lo <= ClauseSlot(xy[i]) < hi {
      if i < |x| {
        assert ClauseSlot(xy[i]) == ClauseSlot(x[i]);
      } else {
        assert ClauseSlot(xy[i]) == ClauseSlot(y[i - |x|]);
      }
    }
  }

  /** Clauses appear in the order text, phonetics, class, status, each slot
      at most once; in particular "high" and "moderate" never appear together. */
  lemma ClausesOrdered(similarity: real, phonetic: bool, sameClass: bool, active: bool)
    ensures InSlotOrder(Clauses(similarity, phonetic, sameClass, active))
    ensures var clauses := Clauses(similarity, phonetic, sameClass, active);
      !(HighProximity in clauses && ModerateProximity in clauses)
  {
    var t := TextClause(similarity);
    var p := ClauseIf(phonetic, PhoneticOverlap);
    var c := ClauseIf(sameClass, IdenticalClass);
    var a := ClauseIf(active, AppearsActive);
    assert InSlotOrder(t) && SlotsWithin(t, 0, 1);
    assert InSlotOrder(p) && SlotsWithin(p, 1, 2);
    assert InSlotOrder(c) && SlotsWithin(c, 2, 3);
    assert InSlotOrder(a) && SlotsWithin(a, 3, 4);
    InSlotOrderAppend(t, p, 0, 1, 2);
    InSlotOrderAppend(t + p, c, 0, 2, 3);
    InSlotOrderAppend(t + p + c, a, 0, 3, 4);
    var clauses := t + p + c + a;
    SlotsUnique(clauses, HighProximity, ModerateProximity);
  }

  /** Two clauses of the same slot never both occur in an ordered list. */
  lemma SlotsUnique(clauses: seq<Clause>, x: Clause, y: Clause)
    requires InSlotOrder(clauses) && x != y && ClauseSlot(x) == ClauseSlot(y)
    ensures !(x in clauses && y in clauses)
  {
    if x in clauses {
      var i :| 0 <= i < |clauses| && clauses[i] == x;
      assert forall j | 0 <= j < |clauses| :: ClauseSlot(clauses[j]) != ClauseSlot(x) || j == i;
    }
  }

  /** The rationale of a match lists its clauses in the fixed order. */
  lemma ReasonClausesOrdered(m: MatchResult)
    ensures InSlotOrder(ReasonClauses(m))
    ensures !(HighProximity in ReasonClauses(m) && ModerateProximity in ReasonClauses(m))
  {
    ClausesOrdered(m.textSimilarity, m.phoneticMatch, m.sameClass, IsActiveStatus(m.record.status));
  }

  /** The joined text is never empty, and it is the fallback text exactly
      when there is no clause. */
  lemma JoinClausesFallback(cs: seq<Clause>)
    ensures JoinClauses(ClauseTexts(cs)) != []
    ensures JoinClauses(ClauseTexts(cs)) == LimitedOverlap <==> cs == []
  {
    var texts := ClauseTexts(cs);
    if cs != [] {
      JoinStartsWithFirst(texts, "; ");
      ClauseTextStart(cs[0]);
      assert JoinClauses(texts)[0] == ClauseText(cs[0])[0];
    }
  }

  /** The rationale is never empty, and it is "limited overlap indicators"
      exactly when no indicator fires. */
  lemma ReasonTextFallback(m: MatchResult)
    ensures ReasonText(m) != []
    ensures ReasonText(m) == LimitedOverlap <==>
      m.textSimilarity < 0.65 && !m.phoneticMatch && !m.sameClass && !IsActiveStatus(m.record.status)
  {
    var active := IsActiveStatus(m.record.status);
    JoinClausesFallback(Clauses(m.textSimilarity, m.phoneticMatch, m.sameClass, active));
  }
}
