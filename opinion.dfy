/** The preliminary legal opinion (analise_marca.py,
    `generate_legal_opinion`): the three highest-scoring matches are cited,
    the grounds and the guidance are chosen by the risk tier alone, and the
    opinion is a fixed seventeen-line layout ending in a newline. The date is
    supplied by the caller. */
module Opinion {
  import opened PyStr
  import opened Scoring
  import opened Ranking
  import opened Prose

  /** How the opinion cites a match: its name, then the process number and
      the owner when they are known. */
  function Reference(text: Phrase -> string, m: MatchResult): string {
    m.record.name
    + (if m.record.numero != [] then text(ProcessReference) + m.record.numero + text(ClosingParen) else "")
    + (if m.record.titular != [] then text(OwnerReference) + m.record.titular else "")
  }

  /** The matches the opinion cites: the three highest scores. */
  function CitedMatches(matches: seq<MatchResult>): seq<MatchResult> {
    Top(matches, 3)
  }

  function References(text: Phrase -> string, cited: seq<MatchResult>): (refs: seq<string>)
    ensures |refs| == |cited|
    ensures forall i | 0 <= i < |cited| :: refs[i] == Reference(text, cited[i])
  {
    seq(|cited|, i requires 0 <= i < |cited| => Reference(text, cited[i]))
  }

  /** `refs_txt`: the references joined by `"; "`, or a generic placeholder
      when nothing is cited. */
  function ReferencesText(text: Phrase -> string, refs: seq<string>): string {
    if refs != [] then Join(refs, text(ReferenceSeparator)) else text(NoReferences)
  }

  /** `fundamento`: the grounds of the tier; the high and medium grounds
      quote the references. */
  function Grounds(text: Phrase -> string, risk: Risk, refsText: string): string {
    match risk
    case High => text(HighGroundsBefore) + refsText + text(HighGroundsAfter)
    case Medium => text(MediumGroundsBefore) + refsText + text(MediumGroundsAfter)
    case Low => text(LowGrounds)
  }

  /** `orientacao`: the guidance of the tier. */
  function Guidance(text: Phrase -> string, risk: Risk): string {
    match risk
    case High => text(HighGuidance)
    case Medium => text(MediumGuidance)
    case Low => text(LowGuidance)
  }

  /** The lines of the opinion, given its grounds and guidance. */
  function OpinionLines(text: Phrase -> string, name: string, niceClass: string, segment: string,
                        date: string, grounds: string, guidance: string): (lines: seq<string>)
    ensures |lines| == 17
  {
    [ text(OpinionTitle),
      "",
      text(OpinionDateLabel) + date,
      "",
      text(MarkLabel) + name,
      text(NiceClassLabel) + niceClass,
      text(OpinionSegmentLabel) + segment,
      "",
      text(SummaryTitle),
      text(ConclusionLead) + grounds,
      "",
      text(GuidanceTitle),
      guidance,
      "",
      text(ObservationTitle),
      text(DraftNotice),
      text(DraftScope) ]
  }

  /** The opinion for `risk` over `matches`. */
  function OpinionText(text: Phrase -> string, name: string, niceClass: string, segment: string,
                       risk: Risk, matches: seq<MatchResult>, date: string): string {
    var refsText := ReferencesText(text, References(text, CitedMatches(matches)));
    Join(OpinionLines(text, name, niceClass, segment, date, Grounds(text, risk, refsText), Guidance(text, risk)), "\n")
    + "\n"
  }

  /** `generate_legal_opinion`. */
  method GenerateLegalOpinion(text: Phrase -> string, name: string, niceClass: string, segment: string,
                              risk: Risk, matches: seq<MatchResult>, date: string)
    returns (opinion: string)
    ensures opinion == OpinionText(text, name, niceClass, segment, risk, matches, date)
  {
    var top := Top(matches, 3);
    var refs := CiteReferences(text, top);
    var refsText := if refs != [] then Join(refs, text(ReferenceSeparator)) else text(NoReferences);
    var grounds: string;
    var guidance: string;
    if risk == High {
      grounds := text(HighGroundsBefore) + refsText + text(HighGroundsAfter);
      guidance := text(HighGuidance);
    } else if risk == Medium {
      grounds := text(MediumGroundsBefore) + refsText + text(MediumGroundsAfter);
      guidance := text(MediumGuidance);
    } else {
      grounds := text(LowGrounds);
      guidance := text(LowGuidance);
    }
    opinion := Join(OpinionLines(text, name, niceClass, segment, date, grounds, guidance), "\n") + "\n";
  }

  /** The `for m in top` loop of `generate_legal_opinion`. */
  method CiteReferences(text: Phrase -> string, top: seq<MatchResult>) returns (refs: seq<string>)
    ensures refs == References(text, top)
  {
    refs := [];
    var i := 0;
    while i < |top|
      invariant 0 <= i <= |top|
      invariant refs == References(text, top[..i])
    {
      var ref := CiteReference(text, top[i]);
      ReferencesSnoc(text, top, i);
      refs := refs + [ref];
      i := i + 1;
    }
    assert top[..i] == top;
  }

  /** One iteration of the references loop, statement by statement, which
      `Reference` states as one value. */
  method CiteReference(text: Phrase -> string, m: MatchResult) returns (ref: string)
    ensures ref == Reference(text, m)
  {
    ref := m.record.name;
    if m.record.numero != [] {
      ref := ref + (text(ProcessReference) + m.record.numero + text(ClosingParen));
    } else {
      ConcatEmpty(ref);
    }
    if m.record.titular != [] {
      ref := ref + (text(OwnerReference) + m.record.titular);
    } else {
      ConcatEmpty(ref);
    }
  }

  lemma ReferencesSnoc(text: Phrase -> string, top: seq<MatchResult>, i: nat)
    requires i < |top|
    ensures References(text, top[..i + 1]) == References(text, top[..i]) + [Reference(text, top[i])]
  {
  }

  // ---------------------------------------------------------------------
  // Properties of the opinion
  // ---------------------------------------------------------------------

  /** A reference starts with the name of the mark it cites, and is that
      name alone when neither process number nor owner is known. */
  lemma ReferenceShape(text: Phrase -> string, m: MatchResult)
    ensures IsPrefix(m.record.name, Reference(text, m))
    ensures m.record.numero == [] && m.record.titular == [] ==> Reference(text, m) == m.record.name
  {
    var r := Reference(text, m);
    var tail := (if m.record.numero != [] then text(ProcessReference) + m.record.numero + text(ClosingParen) else "")
      + (if m.record.titular != [] then text(OwnerReference) + m.record.titular else "");
    assert r == m.record.name + tail by {
      ConcatAssociative(m.record.name,
        if m.record.numero != [] then text(ProcessReference) + m.record.numero + text(ClosingParen) else "",
        if m.record.titular != [] then text(OwnerReference) + m.record.titular else "");
    }
    assert r[..|m.record.name|] == m.record.name;
  }

  /** The opinion cites at most three matches, those of highest score in
      non-increasing order, each by its own reference, and the references
      are quoted in full in the high and medium grounds. */
  lemma CitedReferences(text: Phrase -> string, matches: seq<MatchResult>, i: nat)
    requires i < |CitedMatches(matches)|
    ensures var cited := CitedMatches(matches);
      var refsText := ReferencesText(text, References(text, cited));
      |cited| == (if |matches| <= 3 then |matches| else 3)
      && multiset(cited) <= multiset(matches)
      && NonIncreasing(cited)
      && Contains(refsText, Reference(text, cited[i]))
      && Contains(Grounds(text, High, refsText), Reference(text, cited[i]))
      && Contains(Grounds(text, Medium, refsText), Reference(text, cited[i]))
  {
    var cited := CitedMatches(matches);
    TopProperties(matches, 3);
    var refs := References(text, cited);
    var refsText := ReferencesText(text, refs);
    var ref := Reference(text, cited[i]);
    assert refs[i] == ref;
    JoinContains(refs, text(ReferenceSeparator), i);
    assert Contains(refsText, ref);
    ContainsInGrounds(text(HighGroundsBefore), refsText, text(HighGroundsAfter), ref);
    ContainsInGrounds(text(MediumGroundsBefore), refsText, text(MediumGroundsAfter), ref);
  }

  lemma ContainsInGrounds(before: string, refsText: string, after: string, ref: string)
    requires Contains(refsText, ref)
    ensures Contains(before + refsText + after, ref)
  {
    ContainsOccurs(refsText, ref);
    var k: nat :| OccursAt(refsText, ref, k);
    var s := before + refsText + after;
    assert s[|before| + k..|before| + k + |ref|] == refsText[k..k + |ref|];
    assert OccursAt(s, ref, |before| + k);
    ContainsOccurs(s, ref);
  }

  /** Without matches the opinion cites the placeholder instead of references. */
  lemma OpinionWithoutMatches(text: Phrase -> string)
    ensures ReferencesText(text, References(text, CitedMatches([]))) == text(NoReferences)
  {
    assert CitedMatches([]) == [];
  }

  /** The grounds and the guidance depend on the tier, and the low-tier
      opinion does not depend on the matches at all. */
  lemma LowOpinionIgnoresMatches(text: Phrase -> string, name: string, niceClass: string, segment: string,
                                 ms1: seq<MatchResult>, ms2: seq<MatchResult>, date: string)
    ensures OpinionText(text, name, niceClass, segment, Low, ms1, date)
         == OpinionText(text, name, niceClass, segment, Low, ms2, date)
  {
    var r1 := ReferencesText(text, References(text, CitedMatches(ms1)));
    var r2 := ReferencesText(text, References(text, CitedMatches(ms2)));
    assert Grounds(text, Low, r1) == Grounds(text, Low, r2);
  }

  /** The layout: title first, conclusion line 10 and guidance line 13
      (from 1), and a newline at the end. */
  lemma OpinionLayout(text: Phrase -> string, name: string, niceClass: string, segment: string,
                      risk: Risk, matches: seq<MatchResult>, date: string)
    ensures var refsText := ReferencesText(text, References(text, CitedMatches(matches)));
      var lines := OpinionLines(text, name, niceClass, segment, date, Grounds(text, risk, refsText), Guidance(text, risk));
      var opinion := OpinionText(text, name, niceClass, segment, risk, matches, date);
      lines[0] == text(OpinionTitle)
      && lines[2] == text(OpinionDateLabel) + date
      && lines[4] == text(MarkLabel) + name
      && lines[9] == text(ConclusionLead) + Grounds(text, risk, refsText)
      && lines[12] == Guidance(text, risk)
      && IsPrefix(text(OpinionTitle), opinion)
      && opinion[|opinion| - 1] == '\n'
  {
    var refsText := ReferencesText(text, References(text, CitedMatches(matches)));
    var lines := OpinionLines(text, name, niceClass, segment, date, Grounds(text, risk, refsText), Guidance(text, risk));
    var body := Join(lines, "\n");
    JoinStartsWithFirst(lines, "\n");
    assert IsPrefix(text(OpinionTitle), body + "\n") by {
      assert (body + "\n")[..|lines[0]|] == body[..|lines[0]|];
    }
  }
}
