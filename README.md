# Trademark conflict screening — a verified Dafny model

This project models the scoring engine of a trademark pre-screening tool for
intellectual-property law firms (`analise_marca.py`), together with its small
companion that indexes the documents of a lawsuit (`indexador_processos.py`).

The screener compares a proposed mark with prior INPI records:

- names are normalised: trimmed, lower-cased, whitespace collapsed;
- names are coded with a screening-grade Soundex;
- the Nice class is read from a free-text class field;
- each record gets a weighted conflict score, where the similarity tier gives
  55/40/25/12, a phonetic match gives 25, the same class 25 and an active
  status 15, and the total is capped at 100;
- the highest score falls into one of three risk tiers, cut at 75 and 45;
- a rationale is written for each cited match;
- a screening report cites the five strongest matches, and a preliminary legal
  opinion cites the three strongest.

Before scoring, the records returned by the INPI search are de-duplicated on
their normalised (name, class, status).

The indexer puts every file name of a folder into one of four buckets, by
keyword with a fixed precedence: petitions, decisions, evidence, other. It
then writes an index listing the buckets in that order.

Modules:

- `PyStr`: the Python `str` built-ins the code relies on. These are `strip`,
  `lower`, `split`, `join`, `in`, `isdigit`, `isalpha`, `upper` on the first
  letter, `replace`, and `str(int)`. Latin-1 is covered, with Python's
  whitespace set.
- `Normalization`: `normalize_text`.
- `Phonetic`: `soundex`.
- `NiceClass`: `extract_ncl`.
- `Scoring`:
  - `calculate_match`, `classify_risk` and `format_reason`;
  - the records (`TrademarkRecord`, `MatchResult`) and `ACTIVE_STATUSES`.
- `Ranking`: `sorted(..., key=score, reverse=True)[:n]`, which is stable, and
  `max(..., default=0)`.
- `Prose`: the fixed texts of the report and the opinion, as a table.
- `Report`: `generate_recommendations` and `generate_report`.
- `Opinion`: `generate_legal_opinion`.
- `InpiRecords`: the de-duplication loop of `load_records_from_inpi`.
- `Indexador`: `analisar_pasta` and `gerar_relatorio`, over a list of names.

The modelling follows the form of the code:

- Python's loops (`soundex`, the report and opinion loops, the
  de-duplication loop, `analisar_pasta`, `gerar_relatorio`) are methods with
  `while` loops.
- Its straight-line accumulations (the `score +=` chain of `calculate_match`,
  the `reasons.append` steps of `format_reason`, the `base.insert(0, …)` of
  `generate_recommendations`) are methods without loops.
- Each such method is proved equal to a specification function.
- The properties are proved as lemmas about those functions.

All layout lemmas state their results for any text table `text` and any
rationale function `reason`. The methods use the screener's own choices:
`ReasonText` for the rationale, with the table supplied by the caller and
`Prose.ScreenerText` being the one the screener prints.

Two behaviours of the code are easy to misread:

- **Soundex.** A vowel between two letters of the same class resets the
  "previous" class, because `previous_code = code` also runs when `code` is
  `""`. Both letters are therefore coded. Only same-class letters that are
  directly adjacent collapse into one digit; see `DigitsCollapseAdjacent`.
- **Score cap.** `min(score, 100)` caps every total above 100. The maximum
  is therefore reached in two ways: by 55+25+25 (=105) and by 40+25+25+15
  (=105). See `ConflictScoreMaximal`.

One consequence of the code is worth knowing. The active-status check is a
substring test on the normalised status, so a status such as "inactive"
counts as active, because it contains "active"; see `ActiveWithin`.

## Model

| member | source | states |
|---|---|---|
| PyStr.Lower | analise_marca.py:57 | `lower()` keeps the length and lower-cases each Latin-1 letter independently, with `LowerChar` changing exactly the upper-case letters |
| PyStr.UpperChar | analise_marca.py:75 | `c.upper()` of a Latin-1 letter, one or two characters ('ß' becomes "SS") |
| PyStr.IsAlpha | analise_marca.py:62 | `c.isalpha()` on Latin-1; `LowerChar` keeps it, and `Phonetic.Letters` filters by it |
| PyStr.NoAlphaSplit | analise_marca.py:57 | the tokens of a text without letters have no letters |
| PyStr.NoAlphaJoin | analise_marca.py:57 | joining texts without letters by a separator without letters adds no letter |
| PyStr.LowerIdempotent | analise_marca.py:57 | lower-casing twice equals lower-casing once |
| PyStr.LowerAppend | analise_marca.py:57 | `lower()` distributes over concatenation |
| PyStr.Strip | analise_marca.py:57 | the result of `strip()` neither starts nor ends with whitespace, and a text that already does not is returned unchanged |
| PyStr.StripBounds | analise_marca.py:57 | `strip()` returns a slice `s[a..b]` of its input, with whitespace only before `a` and after `b` |
| PyStr.IsSpace | analise_marca.py:57 | Python's whitespace set, as `strip()` and `split()` use it |
| PyStr.DropSpacesDropsSpace | analise_marca.py:57 | what the leading-whitespace removal drops is whitespace only |
| PyStr.DropTrailingSpacesDropsSpace | analise_marca.py:57 | what the trailing-whitespace removal drops is whitespace only |
| PyStr.DropSpacesSuffix | analise_marca.py:57 | removing leading whitespace leaves a suffix of the input |
| PyStr.DropTrailingSpacesPrefix | analise_marca.py:57 | removing trailing whitespace leaves a prefix of the input |
| PyStr.SplitWords | analise_marca.py:57 | every token of `split()` is non-empty and free of whitespace, and tokens of a lower-case text are lower-case |
| PyStr.SplitEmpty | analise_marca.py:57 | `split()` gives no token exactly when the text is all whitespace |
| PyStr.SplitJoin | analise_marca.py:57 | splitting the blank-joined list of whitespace-free words gives the words back (a round trip) |
| PyStr.JoinSingleSpaced | analise_marca.py:57 | joining such words with `" "` gives a text whose only whitespace are single blanks between non-blanks |
| PyStr.JoinNoUpper | analise_marca.py:57 | joining lower-case texts with a lower-case separator gives a lower-case text |
| PyStr.SplitLowerStrip | analise_marca.py:57 | `split()` ignores the whitespace that `strip()` removes: `lower(strip(s)).split() == lower(s).split()` |
| PyStr.SplitLeadingSpace | analise_marca.py:57 | whitespace in front of a text does not change its tokens |
| PyStr.SplitTrailingSpace | analise_marca.py:57 | whitespace after a text does not change its tokens |
| PyStr.Split | analise_marca.py:57 | `split()` without arguments: the maximal runs of non-whitespace, in order; its properties are `SplitWords`, `SplitEmpty`, `SplitJoin` and `SplitLowerStrip` |
| PyStr.Join | analise_marca.py:57 | `sep.join(ws)`: the items with `sep` between neighbours; its properties are `SplitJoin`, `JoinSingleSpaced` and `JoinContains` |
| PyStr.ContainsOccurs | analise_marca.py:241 | Python's `p in s` holds exactly when `p` occurs at some position of `s` |
| PyStr.ContainsInfix | analise_marca.py:241 | a text contains anything written inside it |
| PyStr.Contains | analise_marca.py:241 | Python's `p in s` on strings, characterised by `ContainsOccurs` |
| PyStr.JoinContains | analise_marca.py:409 | each item of a joined list occurs in the joined text |
| PyStr.JoinStartsWithFirst | analise_marca.py:294 | a joined list starts with its first item |
| PyStr.ReplaceChar | analise_marca.py:228 | `replace(":", " ")` keeps the length and replaces exactly the colons |
| PyStr.IsDigitString | analise_marca.py:228 | `s.isdigit()`: non-empty, every character an ASCII digit or superscript one, two, three; used by `NiceClass.DigitTokens` and `NiceClass.DigitStringTokens` |
| PyStr.NatToString | analise_marca.py:364 | `str(idx)` of a natural number is a non-empty string of the ASCII digits '0'–'9' |
| PyStr.NatToStringValue | analise_marca.py:364 | the digits of `str(n)` denote `n` again (`int(str(n)) == n`) |
| PyStr.DecimalValue | analise_marca.py:364 | the number a string of ASCII digits denotes, read most significant digit first; the partner of `NatToString` |
| PyStr.IntToString | analise_marca.py:368 | `str(score)`: a '-' before the digits of the magnitude when negative; the digits are characterised by `NatToString` and `NatToStringValue` |
| Normalization.NormalizeJoinsWords | analise_marca.py:56-57 | `normalize_text` is the blank-join of the lower-cased words of its input, which are exactly `split()` of its result |
| Normalization.Normalize | analise_marca.py:56-57 | `normalize_text`: strip, lower-case, split and join with one blank; characterised by `NormalizeJoinsWords` |
| Normalization.NormalizeIgnoresCaseAndSpacing | analise_marca.py:56-57 | texts with the same lower-cased words normalise to the same text |
| Normalization.NormalizeIgnoresCase | analise_marca.py:56-57 | lower-casing before normalising changes nothing |
| Normalization.NormalizeShape | analise_marca.py:56-57 | the result keeps the words of the lower-cased input, is single-spaced (no leading, trailing or doubled whitespace) and has no upper-case letter |
| Normalization.NormalizeEmpty | analise_marca.py:56-57 | the result is empty exactly when the input is all whitespace; so `None`/`""` give `""` |
| Normalization.NormalizeIdempotent | analise_marca.py:56-57 | normalising twice equals normalising once |
| Normalization.NormalizeOfNormal | analise_marca.py:56-57 | a single-spaced lower-case text normalises to the join of its own words |
| Normalization.NormalizeOfWord | analise_marca.py:56-57 | a lower-case word is its own normal form |
| Normalization.NormalizeSingleWord | analise_marca.py:56-57 | one word surrounded by whitespace normalises to the word lower-cased |
| Phonetic.Code | analise_marca.py:66-73 | the class digit of a letter is empty or a single digit 1–6 |
| Phonetic.Letters | analise_marca.py:62 | the letters (`isalpha`) of a text, in order |
| Phonetic.Digits | analise_marca.py:79-83 | the digits the loop appends after a letter of class `previous`; bounded by `DigitsAreClassDigits` and `DigitsCollapseAdjacent` |
| Phonetic.SoundexCode | analise_marca.py:60-85 | the code `soundex` returns; `Soundex` is proved to compute it and `SoundexShape` states its form |
| Phonetic.Soundex | analise_marca.py:60-85 | the loop appending each non-empty class digit that differs from the previous letter's class, the first letter seeding "previous", computes `SoundexCode` |
| Phonetic.SoundexShape | analise_marca.py:62-85 | the code always has 4 characters; "0000" when the normalised input has no letter; otherwise the upper-cased first letter, then class digits 1–6, then only '0' padding (once a '0' appears, the rest are '0') |
| Phonetic.SoundexWithoutLetters | analise_marca.py:62-64 | an input with no letter at all is coded "0000" |
| Normalization.NormalizeNoAlpha | analise_marca.py:56-57 | normalising a text without letters gives a text without letters |
| Phonetic.DigitsAreClassDigits | analise_marca.py:79-83 | the loop adds at most one digit per letter, each between 1 and 6 |
| Phonetic.DigitsCollapseAdjacent | analise_marca.py:80-83 | two adjacent letters of the same class contribute one digit |
| Phonetic.FirstLetterSeeds | analise_marca.py:75-83 | a second letter of the first letter's class adds no digit ("Pfizer" → "P260") |
| Phonetic.SoundexIgnoresCaseAndSpacing | analise_marca.py:62 | two names with the same lower-cased words (`s.lower().split()`) get the same code, so case and the amount or place of whitespace do not matter ("Solano" and "  SOLANO  ") |
| Phonetic.SoundexIgnoresCase | analise_marca.py:62 | a name and its lower-cased spelling get the same code |
| NiceClass.DigitTokens | analise_marca.py:228 | the digit tokens are a sub-list of the tokens, each an all-digit string |
| NiceClass.LastDigitToken | analise_marca.py:228-229 | `parts[-1]` occurs among the tokens with no digit token after it |
| NiceClass.NoDigitTokens | analise_marca.py:228-229 | there are no digit tokens exactly when no token is all digits |
| NiceClass.ExtractNclChoice | analise_marca.py:219-229 | the class is the last all-digit token (after turning ':' into blanks) when there is one, and the normalised field otherwise |
| NiceClass.ExtractNcl | analise_marca.py:219-229 | `extract_ncl`: the last digit token of the normalised field with ':' read as a blank, or the normalised field; characterised by `ExtractNclChoice` |
| NiceClass.ClassTokens | analise_marca.py:227-228 | `normalize_text(value).replace(":", " ").split()`; see `ReplaceChar`, `DigitTokens` and `ExtractNclChoice` |
| NiceClass.DigitStringTokens | analise_marca.py:227-228 | an all-digit field is its own normal form and its own single token ("30" → "30") |
| NiceClass.DigitStringNormal | analise_marca.py:227 | a string of digits has no whitespace and no upper-case letter, so it is its own normal form |
| NiceClass.ExtractNclIdempotent | analise_marca.py:219-229 | extracting the class of an extracted class changes nothing |
| Scoring.ConflictScore | analise_marca.py:243-265 | the score lies in [0, 100] |
| Scoring.TextPoints | analise_marca.py:244-251 | the points of the similarity tier, characterised by `TextPointsTiers` |
| Scoring.IsActiveStatus | analise_marca.py:240-241 | some phrase of `ACTIVE_STATUSES` (the constant `Scoring.ActiveStatuses`, lines 17-26) occurs in the normalised status; see `ActiveWithin` |
| Scoring.CalculateMatch | analise_marca.py:232-266 | the match carries the record and the similarity, phonetic agreement iff the Soundex codes are equal, same class iff the extracted classes are equal, and the capped score of the four signals, where active means some `ACTIVE_STATUSES` phrase is inside the normalised status |
| Scoring.AccumulateScore | analise_marca.py:243-265 | the `score +=` steps and `min(score, 100)` compute `ConflictScore` |
| Scoring.TextPointsTiers | analise_marca.py:244-251 | exactly one similarity tier applies: 55 iff ≥ 0.90, 40 iff in [0.80, 0.90), 25 iff in [0.70, 0.80), 12 iff in [0.60, 0.70), 0 below 0.60 |
| Scoring.ConflictScoreMonotone | analise_marca.py:243-265 | raising any signal never lowers the score |
| Scoring.ConflictScoreMaximal | analise_marca.py:243-265 | the score is 100 exactly with phonetic and class agreement and either similarity ≥ 0.90, or similarity ≥ 0.80 with an active status |
| Scoring.ActiveWithin | analise_marca.py:240-241 | an active phrase anywhere inside the normalised status, even inside a longer word, makes the status active |
| Scoring.ClassifyRisk | analise_marca.py:269-274 | High iff score ≥ 75, Medium iff 45 ≤ score < 75, Low iff score < 45 |
| Scoring.RiskLabel | analise_marca.py:269-274 | the three strings `classify_risk` returns, one per tier; `Report.ReportRiskLine` places it in the report |
| Scoring.ClassifyRiskMonotone | analise_marca.py:269-274 | a higher score never gives a milder tier |
| Scoring.HighRiskNeedsTextualSimilarity | analise_marca.py:243-274 | a high risk needs similarity ≥ 0.60 and phonetic or class agreement |
| Scoring.FormatReason | analise_marca.py:277-294 | `format_reason` computes `ReasonText`: the clause texts joined by "; ", or "limited overlap indicators" |
| Scoring.ReasonText | analise_marca.py:277-294 | the rationale `format_reason` returns: the clause texts of a match joined by "; ", or the fallback; see `ReasonTextFallback` and `ReasonClausesMembership` |
| Scoring.ClauseText | analise_marca.py:279-292 | the five texts `format_reason` can append; `ClauseTextStart` shows none is empty or starts like the fallback, which `JoinClausesFallback` needs |
| Scoring.CollectReasons | analise_marca.py:278-292 | the `reasons.append` steps produce the texts of the clauses in order text, phonetics, class, status |
| Scoring.AppendClause | analise_marca.py:280-292 | appending one clause text keeps the list equal to the texts of the clauses so far |
| Scoring.ClausesMembership | analise_marca.py:279-292 | each clause is present exactly when its indicator fires (high iff ≥ 0.80, moderate iff in [0.65, 0.80)) |
| Scoring.ReasonClausesMembership | analise_marca.py:277-292 | the same, for the clauses of a match |
| Scoring.ClausesOrdered | analise_marca.py:279-292 | clauses appear in the fixed order, each slot at most once, so "high" and "moderate" never both appear |
| Scoring.ReasonClausesOrdered | analise_marca.py:277-292 | the same, for the clauses of a match |
| Scoring.JoinClausesFallback | analise_marca.py:294 | the joined rationale is never empty, and it is the fallback exactly when there is no clause |
| Scoring.ReasonTextFallback | analise_marca.py:277-294 | a rationale is never empty and is "limited overlap indicators" exactly when similarity < 0.65 and no other indicator fires |
| Ranking.InsertPermutes | analise_marca.py:325 | insertion adds exactly the inserted match |
| Ranking.InsertSorted | analise_marca.py:325 | insertion into a non-increasing list keeps it non-increasing |
| Ranking.InsertWithScore | analise_marca.py:325 | insertion places the new match before all earlier ones of its score |
| Ranking.Insert | analise_marca.py:325 | one insertion step of the stable descending sort, one element longer; see `InsertPermutes`, `InsertSorted` and `InsertWithScore` |
| Ranking.SortByScore | analise_marca.py:325 | `sorted(ms, key=score, reverse=True)` as insertion sort, of the same length; see `SortByScoreProperties` |
| Ranking.Top | analise_marca.py:399 | `sorted(...)[:n]`, of length `min(n, len(ms))`; see `TopProperties` |
| Ranking.SortByScoreProperties | analise_marca.py:325 | the sort is a permutation, non-increasing in score, and stable: the matches of each score keep their input order |
| Ranking.TopProperties | analise_marca.py:325 | `[:n]` selects the first n of the sorted matches (all of them when there are fewer) from the input, non-increasing, none below a match left out, and equal-score matches in input order |
| Ranking.MaxScore | analise_marca.py:483 | `max(..., default=0)`: 0 for no match, otherwise the score of some match and at least every score |
| Ranking.HighestScoreIsMax | analise_marca.py:325-327 | the first selected match has the maximum score, so the classified score is the maximum, or 0 |
| Report.GenerateRecommendations | analise_marca.py:302-315 | five recommendations: the tier's lead first, then the four base items shared by all tiers |
| Report.Recommendations | analise_marca.py:302-315 | the tier's lead followed by the four base items; see `ReportRecommendations` |
| Report.GenerateReport | analise_marca.py:318-388 | the report is the newline join of `ReportLines` with `format_reason` as rationale |
| Report.ReportLines | analise_marca.py:318-388 | every line of the report in order: header, grounds, recommendations, closing note; see `ReportRiskLine`, `ReportGrounds`, `ReportClosing` and `ReportWithoutRecords` |
| Report.CiteGrounds | analise_marca.py:354-370 | the `enumerate` loop produces the numbered five-line blocks of the cited matches |
| Report.CiteGround | analise_marca.py:355-369 | one block: the name, class/status with the optional process number and owner, similarity, rationale and score |
| Report.GroundBlock | analise_marca.py:355-369 | the five lines of one cited match; see `GroundBlocksAt` and `ReportGrounds` |
| Report.ListRecommendations | analise_marca.py:375-376 | each recommendation becomes one bullet line |
| Report.HeaderLines | analise_marca.py:330-350 | nineteen header lines, the title first and the risk line last |
| Report.GroundBlocks | analise_marca.py:354-370 | five lines per cited match |
| Report.RecommendationLines | analise_marca.py:374-376 | one bullet line per recommendation |
| Report.GroundBlocksAt | analise_marca.py:354-370 | ground `i` occupies lines `5i` to `5i+4` of the grounds and is numbered `i+1` |
| Report.ReportRiskIsMaxTier | analise_marca.py:325-327 | the report's tier is the tier of the maximum score over all matches |
| Report.ReportRiskLine | analise_marca.py:330-349 | the report starts with its title and line 19 states the tier of the maximum score |
| Report.ReportWithoutRecords | analise_marca.py:371-376 | without matches `lines` has 32 entries, a low risk, the "no prior records" line and the low-tier lead |
| Report.ReportGrounds | analise_marca.py:352-370 | with matches, at most five are cited, `lines` has 32 + 5·cited entries, the grounds title, then each cited match's block in rank order with its rationale |
| Report.ReportClosing | analise_marca.py:374-386 | after the grounds come a blank line and the recommendations title, and the professional note ends the report 12 lines later |
| Report.ReportRecommendations | analise_marca.py:374-376 | after the title come the tier's lead and the four base recommendations, as bullets |
| Opinion.GenerateLegalOpinion | analise_marca.py:391-461 | the opinion is `OpinionText`: its grounds and guidance are chosen by the tier, and the references are of the top three matches |
| Opinion.CiteReferences | analise_marca.py:400-407 | the `for m in top` loop builds one reference per cited match |
| Opinion.CiteReference | analise_marca.py:402-406 | a reference is the name, then " (proc. …)" and ", titular …" when known |
| Opinion.Reference | analise_marca.py:402-406 | how the opinion cites one match; see `ReferenceShape` |
| Opinion.ReferencesText | analise_marca.py:409 | `refs_txt`: the references joined by "; ", or the placeholder; see `OpinionWithoutMatches` and `CitedReferences` |
| Opinion.References | analise_marca.py:400-407 | one reference per cited match, in order |
| Opinion.OpinionLines | analise_marca.py:444-461 | the opinion template has seventeen entries, joined by newlines |
| Opinion.Grounds | analise_marca.py:411-438 | `fundamento` of the tier, quoting the references in the high and medium tiers; see `CitedReferences` |
| Opinion.Guidance | analise_marca.py:411-441 | `orientacao` of the tier; see `OpinionLayout` |
| Opinion.OpinionText | analise_marca.py:391-461 | the whole opinion: the template over the tier's grounds and guidance and the top three references; see `OpinionLayout`, `CitedReferences` and `LowOpinionIgnoresMatches` |
| Opinion.ReferenceShape | analise_marca.py:402-406 | a reference starts with the mark's name, and is just the name without process number and owner |
| Opinion.CitedReferences | analise_marca.py:399-428 | at most three matches are cited, taken from the input, highest scores first, and each reference appears in the reference text and in the high and medium grounds |
| Opinion.OpinionWithoutMatches | analise_marca.py:409 | without matches the reference text is the placeholder ("anterioridades relevantes") |
| Opinion.LowOpinionIgnoresMatches | analise_marca.py:434-441 | the low-tier opinion does not depend on the matches |
| Opinion.OpinionLayout | analise_marca.py:444-461 | title first, then date, mark, conclusion line with the tier's grounds and guidance line at fixed positions; it ends with a newline |
| Prose.ScreenerText | analise_marca.py:302-461 | every fixed text of the report, the recommendations and the opinion, in English and Portuguese as printed; the layout lemmas hold for any table, this one included |
| InpiRecords.DeduplicateRows | analise_marca.py:181-204 | the loop returns `Deduplicated(rows)`: the prepared rows with a name and a key not seen before, in input order |
| InpiRecords.Deduplicated | analise_marca.py:181-204 | the records `load_records_from_inpi` returns; characterised by `DeduplicatedRecords` and `KeptAtFirstOccurrence` |
| InpiRecords.ConsiderRow | analise_marca.py:184-202 | one iteration keeps the row exactly when it has a name and an unseen key, and adds its key to `seen` when it has a name |
| InpiRecords.PrepareRow | analise_marca.py:185-189 | the fields of a row are stripped and defaulted as `Prepare` says |
| InpiRecords.RowKey | analise_marca.py:191 | the key is the normalised (name, class, status) |
| InpiRecords.OrDefault | analise_marca.py:185-189 | `(value or default).strip()`; see `PrepareDefaults` |
| InpiRecords.Prepare | analise_marca.py:185-189 | the record one row becomes; see `PrepareDefaults` |
| InpiRecords.KeyOf | analise_marca.py:191 | the normalised (name, class, status) key; see `DeduplicatedRecords` |
| InpiRecords.Prepared | analise_marca.py:184-189 | one prepared record per row |
| InpiRecords.PreparedAt | analise_marca.py:184-189 | the `i`-th prepared record is the preparation of the `i`-th row |
| InpiRecords.PrepareDefaults | analise_marca.py:185-189 | name, process number and owner are the row's stripped; an empty class takes the queried class and an empty status "N/D" |
| InpiRecords.KeepStep | analise_marca.py:191-202 | one step of the selection, for any key function |
| InpiRecords.SeenKeysStep | analise_marca.py:192-193 | `seen` grows by the key of each named row |
| InpiRecords.KeptAtFirstOccurrence | analise_marca.py:192 | a record is kept iff it has a name and no earlier named record has its key: the first occurrence wins |
| InpiRecords.KeptInOrder | analise_marca.py:184-202 | the kept records are the records at strictly increasing input positions, which are exactly the positions kept |
| InpiRecords.KeptPositionsDistinct | analise_marca.py:191-193 | kept records are named, their keys are in `seen` and pairwise distinct |
| InpiRecords.KeptPositionsCover | analise_marca.py:191-193 | every named record's key is represented by a kept record |
| InpiRecords.KeptRecords | analise_marca.py:184-204 | for any key, every kept record is a named input record, keys are pairwise distinct and every named record's key is among the kept keys |
| InpiRecords.DeduplicatedRecords | analise_marca.py:181-204 | the same for the records returned: named, pairwise-distinct normalised (name, class, status), and no named row's key lost |
| Indexador.AnyIn | indexador_processos.py:18 | `any(p in nome for p in keywords)` holds iff some keyword occurs in the name |
| Indexador.AnalisarPasta | indexador_processos.py:5-30 | the loop puts each name, as given, at the end of the bucket its lower-cased name selects; the result is `Analysis(names)` |
| Indexador.Analysis | indexador_processos.py:5-30 | the `categorias` `analisar_pasta` returns; characterised by `BucketMembers`, `CategoryPrecedence` and `SortedPartitions` |
| Indexador.Keywords | indexador_processos.py:18-24 | the keyword lists of the three keyword buckets, none for `outros`; used by `CategoryPrecedence` |
| Indexador.Append | indexador_processos.py:19-28 | appending to one bucket leaves the others unchanged |
| Indexador.SortedSnoc | indexador_processos.py:15-28 | one more name extends exactly its own bucket |
| Indexador.CategoryPrecedence | indexador_processos.py:18-28 | a name goes to a bucket iff that bucket's keywords match (or it is "outros") and no earlier bucket's keywords match: peticoes, decisoes, provas, outros |
| Indexador.CategoryOf | indexador_processos.py:16-28 | the bucket the `if`/`elif` chain picks for a name; see `CategoryPrecedence` and `CategoryIgnoresCase` |
| Indexador.CategoryIgnoresCase | indexador_processos.py:16 | the bucket of a name does not depend on its case |
| Indexador.BucketMembers | indexador_processos.py:15-28 | a bucket holds exactly the names of its category |
| Indexador.BucketConcat | indexador_processos.py:15-28 | bucketing distributes over concatenation, so each bucket keeps input order |
| Indexador.AppendContents | indexador_processos.py:19-28 | appending a name adds exactly that name to the buckets' contents |
| Indexador.SortedPartitions | indexador_processos.py:15-28 | the four buckets together are a rearrangement of the names: each name lands in exactly one bucket |
| Indexador.SortedSizes | indexador_processos.py:15-28 | the bucket sizes add up to the number of names |
| Indexador.Items | indexador_processos.py:8-13 | the buckets are visited in the order peticoes, decisoes, provas, outros |
| Indexador.Sections | indexador_processos.py:36-39 | one header line per bucket plus one line per name |
| Indexador.GerarRelatorio | indexador_processos.py:33-41 | the index text is the newline join of the title and, per bucket in order, its header and names |
| Indexador.IndexText | indexador_processos.py:33-41 | the text written to `indice_processo.txt`: `linhas` joined by newlines; see `IndexLayout` and `IndexListsEveryName` |
| Indexador.LayOut | indexador_processos.py:34-39 | the outer loop produces the title followed by every section |
| Indexador.ListCategory | indexador_processos.py:37-39 | the inner loop appends the header and the names of one bucket |
| Indexador.SectionsSnoc | indexador_processos.py:36-39 | one more bucket appends its header and names |
| Indexador.SectionsPrefix | indexador_processos.py:36-39 | the earlier sections followed by bucket `k`'s section are a prefix of all sections |
| Indexador.IndexLayout | indexador_processos.py:34-39 | the index starts with the title, and the `k`-th bucket in the fixed order appears as its header followed by its names after the earlier sections |
| Indexador.IndexLineCount | indexador_processos.py:34-39 | `linhas` has 5 + len(names) entries: the title, four headers and one per name (the title's trailing and the headers' leading newline add lines to the written text) |
| Indexador.IndexListsEveryName | indexador_processos.py:15-39 | every name of the folder appears in the index |

## Left out

- `similarity_ratio` (`difflib.SequenceMatcher`) is not modelled; its value is a parameter of `Scoring.CalculateMatch`. Nothing is assumed about it: not its range, not symmetry.
- `read_records`, `load_records` and `main` are not modelled. They are CSV parsing, file checks, the fetch-or-CSV fallback, `input()` and `print`.
- The INPI fetch (`fetch_inpi_by_class`, `inpi_fetch.py`) and its error fallback are not modelled. The rows it returns are the input of `InpiRecords.DeduplicateRows`. A missing attribute of a row is modelled by the empty string, which Python's `or` treats the same way.
- `dt.datetime.now()` is not modelled; the date is a string parameter of the report and the opinion.
- The `:.1f` rendering of the similarity percentage is not modelled; it is a parameter `formatPercent` (floating-point formatting).
- Floats are modelled as Dafny `real`, so there is no rounding.
- Report.GenerateReport and Opinion.GenerateLegalOpinion take the fixed texts as a table parameter. The table is `Prose.ScreenerText`, but the layout lemmas are stated for every table rather than for those particular strings.
- Indexador.GerarRelatorio returns the index text instead of writing `indice_processo.txt`. `pasta.iterdir()` is modelled by the list of names it yields, in its order.
- Indexador.UpperName writes out `tipo.upper()` for the four fixed keys of the `categorias` dict ("PETICOES", "DECISOES", "PROVAS", "OUTROS").
- The text functions cover Latin-1 letters, digits and upper/lower case, plus Python's whitespace set. Wider Unicode (other scripts, other digit sets, special case mappings beyond Latin-1) is not modelled.
- `classify_risk` returns one of three strings; they are modelled as `Scoring.Risk`, and `Scoring.RiskLabel` gives the printed text. The opinion's `risk` argument is a `Risk` for the same reason: its final `else` branch is the low tier.
- `server.py`, `debug_inpi*.py` and `test_browser.py` are not modelled: browser automation, an MCP file server, and interactive scripts.
