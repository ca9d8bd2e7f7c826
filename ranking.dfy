/** Ranking of matches (analise_marca.py): `sorted(matches, key=score,
    reverse=True)` followed by a slice, as used for the top five of the
    report and the top three of the opinion, and the highest score of
    `main` (`max(..., default=0)`). Python's sort is stable, also with
    `reverse=True`: matches of equal score keep their input order. */
module Ranking {
  import opened Scoring

  predicate NonIncreasing(ms: seq<MatchResult>) {
    forall i, j | 0 <= i < j < |ms| :: ms[i].score >= ms[j].score
  }

  /** Insert `m` into a list sorted by non-increasing score, before the
      first element whose score it reaches (so before its equals). */
  function Insert(m: MatchResult, sorted: seq<MatchResult>): (r: seq<MatchResult>)
    ensures |r| == |sorted| + 1
    decreases |sorted|
  {
    if sorted == [] || m.score >= sorted[0].score then [m] + sorted
    else [sorted[0]] + Insert(m, sorted[1..])
  }

  /** The stable descending sort by score. */
  function SortByScore(ms: seq<MatchResult>): (r: seq<MatchResult>)
    ensures |r| == |ms|
  {
    if ms == [] then [] else Insert(ms[0], SortByScore(ms[1..]))
  }

  /** The matches of score `k`, in order. */
  function WithScore(ms: seq<MatchResult>, k: int): seq<MatchResult> {
    if ms == [] then []
    else (if ms[0].score == k then [ms[0]] else []) + WithScore(ms[1..], k)
  }

  /** `sorted(ms, key=score, reverse=True)[:n]`. */
  function Top(ms: seq<MatchResult>, n: nat): (top: seq<MatchResult>)
    ensures |top| == if |ms| <= n then |ms| else n
  {
    var sorted := SortByScore(ms);
    if |sorted| <= n then sorted else sorted[..n]
  }

  /** `max((m.score for m in ms), default=0)`. */
  function MaxScore(ms: seq<MatchResult>): (r: int)
    ensures ms == [] ==> r == 0
    ensures forall i | 0 <= i < |ms| :: ms[i].score <= r
    ensures ms != [] ==> exists i | 0 <= i < |ms| :: ms[i].score == r
  {
    if ms == [] then 0
    else if |ms| == 1 then ms[0].score
    else
      var rest := MaxScore(ms[1..]);
      assert forall i | 1 <= i < |ms| :: ms[i] == ms[1..][i - 1];
      if ms[0].score >= rest then ms[0].score else rest
  }

  /** The score the report classifies: that of the first selected match, or 0. */
  function HighestScore(top: seq<MatchResult>): int {
    if top != [] then top[0].score else 0
  }

  lemma {:induction false} InsertPermutes(m: MatchResult, sorted: seq<MatchResult>)
    ensures multiset(Insert(m, sorted)) == multiset(sorted) + multiset{m}
    decreases |sorted|
  {
    if sorted != [] && m.score < sorted[0].score {
      var tail := Insert(m, sorted[1..]);
      InsertPermutes(m, sorted[1..]);
      assert Insert(m, sorted) == [sorted[0]] + tail;
      assert sorted == [sorted[0]] + sorted[1..];
    }
  }

  /** What lies behind the head of an insertion is all from `sorted` or `m`. */
  lemma InsertHeadDominates(m: MatchResult, sorted: seq<MatchResult>)
    requires NonIncreasing(sorted) && sorted != [] && m.score < sorted[0].score
    ensures forall x | x in Insert(m, sorted[1..]) :: x.score <= sorted[0].score
  {
    InsertPermutes(m, sorted[1..]);
    forall x | x in Insert(m, sorted[1..]) ensures x.score <= sorted[0].score {
      assert x in multiset(Insert(m, sorted[1..]));
      if x != m {
        assert x in multiset(sorted[1..]);
        var k :| 0 <= k < |sorted[1..]| && sorted[1..][k] == x;
        assert sorted[k + 1] == x;
      }
    }
  }

  lemma {:induction false} InsertSorted(m: MatchResult, sorted: seq<MatchResult>)
    requires NonIncreasing(sorted)
    ensures NonIncreasing(Insert(m, sorted))
    decreases |sorted|
  {
    var r := Insert(m, sorted);
    if sorted == [] || m.score >= sorted[0].score {
      forall i, j | 0 <= i < j < |r| ensures r[i].score >= r[j].score {
        assert r[j] == sorted[j - 1];
        if i > 0 {
          assert r[i] == sorted[i - 1];
        } else {
          assert sorted[0].score >= sorted[j - 1].score;
        }
      }
    } else {
      var tail := Insert(m, sorted[1..]);
      InsertSorted(m, sorted[1..]);
      InsertHeadDominates(m, sorted);
      assert r == [sorted[0]] + tail;
      forall i, j | 0 <= i < j < |r| ensures r[i].score >= r[j].score {
        assert r[j] == tail[j - 1];
        if i > 0 {
          assert r[i] == tail[i - 1];
        } else {
          assert tail[j - 1] in tail;
        }
      }
    }
  }

  lemma {:induction false} InsertWithScore(m: MatchResult, sorted: seq<MatchResult>, k: int)
    ensures WithScore(Insert(m, sorted), k) == (if m.score == k then [m] else []) + WithScore(sorted, k)
    decreases |sorted|
  {
    if sorted == [] || m.score >= sorted[0].score {
      WithScoreCons(m, sorted, k);
    } else {
      var tail := Insert(m, sorted[1..]);
      InsertWithScore(m, sorted[1..], k);
      WithScoreCons(sorted[0], tail, k);
      WithScoreCons(sorted[0], sorted[1..], k);
      assert [sorted[0]] + sorted[1..] == sorted;
    }
  }

  lemma WithScoreCons(m: MatchResult, ms: seq<MatchResult>, k: int)
    ensures WithScore([m] + ms, k) == (if m.score == k then [m] else []) + WithScore(ms, k)
  {
    assert ([m] + ms)[1..] == ms;
  }

  /** The sort yields a non-increasing permutation of its input in which
      matches of equal score keep their input order. */
  lemma {:induction false} SortByScoreProperties(ms: seq<MatchResult>)
    ensures multiset(SortByScore(ms)) == multiset(ms)
    ensures NonIncreasing(SortByScore(ms))
    ensures forall k :: WithScore(SortByScore(ms), k) == WithScore(ms, k)
  {
    if ms != [] {
      var rest := SortByScore(ms[1..]);
      SortByScoreProperties(ms[1..]);
      InsertPermutes(ms[0], rest);
      InsertSorted(ms[0], rest);
      assert ms == [ms[0]] + ms[1..];
      forall k ensures WithScore(SortByScore(ms), k) == WithScore(ms, k) {
        InsertWithScore(ms[0], rest, k);
      }
    }
  }

  lemma {:induction false} WithScorePrefix(ms: seq<MatchResult>, n: nat, k: int)
    requires n <= |ms|
    ensures IsPrefixOf(WithScore(ms[..n], k), WithScore(ms, k))
    decreases n
  {
    if n > 0 {
      assert ms[..n][1..] == ms[1..][..n - 1];
      WithScorePrefix(ms[1..], n - 1, k);
    } else {
      assert ms[..n] == [];
    }
  }

  predicate IsPrefixOf(p: seq<MatchResult>, s: seq<MatchResult>) {
    |p| <= |s| && s[..|p|] == p
  }

  /** The selection: `min(n, |ms|)` matches, taken from `ms`, in
      non-increasing score order, none scoring below a match left out, and
      matches of equal score in input order. */
  lemma TopProperties(ms: seq<MatchResult>, n: nat)
    ensures var top := Top(ms, n);
      (|top| == if |ms| <= n then |ms| else n)
      && multiset(top) <= multiset(ms)
      && NonIncreasing(top)
      && (forall i, j | 0 <= i < |top| <= j < |ms| :: SortByScore(ms)[j].score <= top[i].score)
      && (forall k :: IsPrefixOf(WithScore(top, k), WithScore(ms, k)))
  {
    var sorted := SortByScore(ms);
    SortByScoreProperties(ms);
    var top := Top(ms, n);
    if |sorted| > n {
      assert sorted == top + sorted[n..];
      assert multiset(top) <= multiset(ms) by {
        assert multiset(sorted) == multiset(top) + multiset(sorted[n..]);
      }
      assert NonIncreasing(top) by {
        assert forall i | 0 <= i < |top| :: top[i] == sorted[i];
      }
      forall k ensures IsPrefixOf(WithScore(top, k), WithScore(ms, k)) {
        WithScorePrefix(sorted, n, k);
      }
    } else {
      forall k ensures IsPrefixOf(WithScore(top, k), WithScore(ms, k)) {
        assert WithScore(ms, k)[..|WithScore(top, k)|] == WithScore(top, k);
      }
    }
  }

  /** The first selected match carries the highest score, so the score the
      report classifies equals `max(..., default=0)` over all matches. */
  lemma HighestScoreIsMax(ms: seq<MatchResult>, n: nat)
    requires n > 0
    ensures HighestScore(Top(ms, n)) == MaxScore(ms)
  {
    var sorted := SortByScore(ms);
    SortByScoreProperties(ms);
    if ms != [] {
      var top := Top(ms, n);
      assert top[0] == sorted[0];
      var i :| 0 <= i < |ms| && ms[i].score == MaxScore(ms);
      assert ms[i] in multiset(sorted);
      var j :| 0 <= j < |sorted| && sorted[j] == ms[i];
      assert sorted[0].score >= sorted[j].score;
      assert sorted[0] in multiset(ms);
      var k :| 0 <= k < |ms| && ms[k] == sorted[0];
    }
  }
}
