/** `normalize_text` (analise_marca.py): the canonical comparison key used
    for every text comparison and for de-duplication. A missing value
    (`None`) reaches it as the empty string. */
module Normalization {
  import opened PyStr

  /** Trim, lower-case and collapse every run of whitespace to one blank. */
  function Normalize(value: string): string {
    Join(Split(Lower(Strip(value))), " ")
  }

  /** The words that `Normalize` joins. */
  lemma NormalizeJoinsWords(value: string) returns (ws: seq<string>)
    ensures Normalize(value) == Join(ws, " ")
    ensures forall w | w in ws :: IsWord(w) && NoUpper(w)
    ensures Split(Normalize(value)) == ws
    ensures ws == Split(Lower(value))
  {
    var l := Lower(Strip(value));
    ws := Split(l);
    LoweredWords(l, Strip(value));
    JoinedWords(ws);
    SplitLowerStrip(value);
  }

  lemma LoweredWords(l: string, s: string)
    requires l == Lower(s)
    ensures forall w | w in Split(l) :: IsWord(w) && NoUpper(w)
  {
    assert NoUpper(l);
    SplitWords(l);
  }

  lemma JoinedWords(ws: seq<string>)
    requires forall w | w in ws :: IsWord(w) && NoUpper(w)
    ensures Split(Join(ws, " ")) == ws
  {
    SplitJoin(ws);
  }

  lemma JoinedShape(ws: seq<string>)
    requires forall w | w in ws :: IsWord(w) && NoUpper(w)
    ensures SingleSpaced(Join(ws, " ")) && NoUpper(Join(ws, " "))
    ensures Join(ws, " ") == [] <==> ws == []
  {
    JoinSingleSpaced(ws);
    JoinNoUpper(ws, " ");
  }

  /** The result keeps exactly the words of the lower-cased input, has no
      leading, trailing or doubled whitespace (every whitespace character
      left is a blank) and no upper-case letter. */
  lemma NormalizeShape(value: string)
    ensures Split(Normalize(value)) == Split(Lower(value))
    ensures SingleSpaced(Normalize(value))
    ensures NoUpper(Normalize(value))
  {
    var ws := NormalizeJoinsWords(value);
    JoinedShape(ws);
  }

  /** The result is empty exactly when the input is nothing but whitespace;
      in particular `Normalize("") == ""`. */
  lemma NormalizeEmpty(value: string)
    ensures Normalize(value) == [] <==> AllSpace(value)
  {
    var ws := NormalizeJoinsWords(value);
    JoinedShape(ws);
    var l := Lower(value);
    SplitEmpty(l);
    assert AllSpace(l) == AllSpace(value) by {
      assert forall i | 0 <= i < |value| :: IsSpace(l[i]) == IsSpace(value[i]);
    }
  }

  lemma NormalizeIdempotent(value: string)
    ensures Normalize(Normalize(value)) == Normalize(value)
  {
    var n := Normalize(value);
    var ws := NormalizeJoinsWords(value);
    JoinedShape(ws);
    NormalizeOfNormal(n);
  }

  /** Two texts with the same lower-cased words normalise alike: case and the
      amount or place of whitespace do not matter. */
  lemma NormalizeIgnoresCaseAndSpacing(x: string, y: string)
    requires Split(Lower(x)) == Split(Lower(y))
    ensures Normalize(x) == Normalize(y)
  {
    var wx := NormalizeJoinsWords(x);
    var wy := NormalizeJoinsWords(y);
  }

  /** Lower-casing first changes nothing. */
  lemma NormalizeIgnoresCase(x: string)
    ensures Normalize(Lower(x)) == Normalize(x)
  {
    LowerIdempotent(x);
    NormalizeIgnoresCaseAndSpacing(Lower(x), x);
  }

  /** Normalising adds no letter: a text without letters stays without. */
  lemma NormalizeNoAlpha(value: string)
    requires NoAlpha(value)
    ensures NoAlpha(Normalize(value))
  {
    var a, b := StripBounds(value);
    var st := Strip(value);
    assert NoAlpha(st) by {
      forall i | 0 <= i < |st| ensures !IsAlpha(st[i]) {
        assert st[i] == value[a + i];
      }
    }
    var l := Lower(st);
    NoAlphaSplit(l);
    NoAlphaJoin(Split(l), " ");
  }

  /** A single-spaced, lower-case text normalises to the join of its own words. */
  lemma NormalizeOfNormal(n: string)
    requires SingleSpaced(n) && NoUpper(n)
    ensures Normalize(n) == Join(Split(n), " ")
  {
    assert n == [] || (!IsSpace(n[0]) && !IsSpace(n[|n| - 1]));
    assert Strip(n) == n;
    LowerNoUpper(n);
  }

  /** A lower-case word is its own normal form. */
  lemma NormalizeOfWord(w: string)
    requires IsWord(w) && NoUpper(w)
    ensures Normalize(w) == w
  {
    assert SingleSpaced(w);
    NormalizeOfNormal(w);
    SplitOfWord(w);
  }

  /** One word with any whitespace around it normalises to the word in lower case. */
  lemma NormalizeSingleWord(p: string, w: string, q: string)
    requires AllSpace(p) && IsWord(w) && AllSpace(q)
    ensures Normalize(p + w + q) == Lower(w)
  {
    var v := p + w + q;
    var ws := NormalizeJoinsWords(v);
    var lp, lw, lq := Lower(p), Lower(w), Lower(q);
    assert Lower(v) == lp + (lw + lq) by {
      LowerAppend(p + w, q);
      LowerAppend(p, w);
      ConcatAssociative(lp, lw, lq);
    }
    assert Split(lp + (lw + lq)) == [lw] by {
      LowerShape(p);
      LowerShape(w);
      LowerShape(q);
      SplitOneWord(lp, lw, lq);
    }
  }

  lemma LowerShape(s: string)
    ensures AllSpace(s) ==> AllSpace(Lower(s))
    ensures IsWord(s) ==> IsWord(Lower(s))
  {
  }

  lemma SplitOneWord(p: string, w: string, q: string)
    requires AllSpace(p) && IsWord(w) && AllSpace(q)
    ensures Split(p + (w + q)) == [w]
  {
    SplitLeadingSpace(p, w + q);
    assert q == [] || IsSpace(q[0]);
    SplitWordThen(w, q);
    SplitEmpty(q);
  }
}
