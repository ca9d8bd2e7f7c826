/** `extract_ncl` (analise_marca.py): the Nice class of a free-text class
    field, as compared between the candidate and a prior record. The text is
    normalised, colons become blanks, and the last all-digit token is the
    class; without such a token the normalised text itself is used. */
module NiceClass {
  import opened PyStr
  import opened Normalization

  /** The tokens of `ws` that are digit strings, in order
      (`[p for p in ws if p.isdigit()]`). */
  function DigitTokens(ws: seq<string>): (ds: seq<string>)
    ensures |ds| <= |ws|
    ensures forall d | d in ds :: IsDigitString(d) && d in ws
  {
    if ws == [] then []
    else (if IsDigitString(ws[0]) then [ws[0]] else []) + DigitTokens(ws[1..])
  }

  /** The tokens `extract_ncl` looks at. */
  function ClassTokens(value: string): seq<string> {
    Split(ReplaceChar(Normalize(value), ':', ' '))
  }

  function ExtractNcl(value: string): string {
    LastDigitTokenOr(ClassTokens(value), Normalize(value))
  }

  /** The last digit token of `ws` is the last element of `DigitTokens(ws)`:
      it occurs at some position of `ws` and no digit token follows it. */
  lemma {:induction false} LastDigitToken(ws: seq<string>)
    requires DigitTokens(ws) != []
    ensures var ds := DigitTokens(ws);
      exists i | 0 <= i < |ws| :: ws[i] == ds[|ds| - 1]
        && forall j | i < j < |ws| :: !IsDigitString(ws[j])
  {
    var ds := DigitTokens(ws);
    var rest := DigitTokens(ws[1..]);
    if rest == [] {
      assert ds == [ws[0]];
      NoDigitTokens(ws[1..]);
      assert forall j | 0 < j < |ws| :: !IsDigitString(ws[j]) by {
        forall j | 0 < j < |ws| ensures !IsDigitString(ws[j]) {
          assert ws[j] == ws[1..][j - 1];
        }
      }
    } else {
      LastDigitToken(ws[1..]);
      assert ds[|ds| - 1] == rest[|rest| - 1];
      var k :| 0 <= k < |ws[1..]| && ws[1..][k] == rest[|rest| - 1]
        && forall j | k < j < |ws[1..]| :: !IsDigitString(ws[1..][j]);
      assert ws[k + 1] == ds[|ds| - 1];
      forall j | k + 1 < j < |ws| ensures !IsDigitString(ws[j]) {
        assert ws[j] == ws[1..][j - 1];
      }
    }
  }

  /** `DigitTokens` is empty exactly when no token is a digit string. */
  lemma {:induction false} NoDigitTokens(ws: seq<string>)
    ensures DigitTokens(ws) == [] <==> forall i | 0 <= i < |ws| :: !IsDigitString(ws[i])
  {
    if ws != [] {
      NoDigitTokens(ws[1..]);
      assert forall i | 0 < i < |ws| :: ws[i] == ws[1..][i - 1];
    }
  }

  /** The last digit token of `ws`, or `fallback` when there is none. */
  function LastDigitTokenOr(ws: seq<string>, fallback: string): string {
    var parts := DigitTokens(ws);
    if parts != [] then parts[|parts| - 1] else fallback
  }

  lemma LastDigitTokenOrChoice(ws: seq<string>, fallback: string)
    ensures var r := LastDigitTokenOr(ws, fallback);
      ((exists i | 0 <= i < |ws| :: IsDigitString(ws[i])) ==>
         IsDigitString(r)
         && exists i | 0 <= i < |ws| :: ws[i] == r && forall j | i < j < |ws| :: !IsDigitString(ws[j]))
      && ((forall i | 0 <= i < |ws| :: !IsDigitString(ws[i])) ==> r == fallback)
  {
    NoDigitTokens(ws);
    if DigitTokens(ws) != [] {
      var ds := DigitTokens(ws);
      assert ds[|ds| - 1] in ds;
      LastDigitToken(ws);
    }
  }

  /** The class is the last digit token of the field when there is one, and
      the normalised field otherwise. */
  lemma ExtractNclChoice(value: string)
    ensures var ws := ClassTokens(value);
      var r := ExtractNcl(value);
      ((exists i | 0 <= i < |ws| :: IsDigitString(ws[i])) ==>
         IsDigitString(r)
         && exists i | 0 <= i < |ws| :: ws[i] == r && forall j | i < j < |ws| :: !IsDigitString(ws[j]))
      && ((forall i | 0 <= i < |ws| :: !IsDigitString(ws[i])) ==> r == Normalize(value))
  {
    LastDigitTokenOrChoice(ClassTokens(value), Normalize(value));
  }

  /** A digit string is its own normal form and its own single token. */
  lemma DigitStringTokens(d: string)
    requires IsDigitString(d)
    ensures Normalize(d) == d
    ensures ClassTokens(d) == [d]
  {
    DigitStringNormal(d);
    assert ClassTokens(d) == Split(ReplaceChar(d, ':', ' '));
    assert ReplaceChar(d, ':', ' ') == d by {
      assert forall i | 0 <= i < |d| :: d[i] != ':';
    }
    assert Split(d) == [d] by {
      assert IsWord(d);
      SplitOfWord(d);
    }
  }

  lemma DigitStringNormal(d: string)
    requires IsDigitString(d)
    ensures Normalize(d) == d
  {
    assert IsWord(d) && NoUpper(d);
    NormalizeOfWord(d);
  }

  /** Extracting twice gives the same class as extracting once, so a value
      already reduced to its class compares equal to the field it came from. */
  lemma ExtractNclIdempotent(value: string)
    ensures ExtractNcl(ExtractNcl(value)) == ExtractNcl(value)
  {
    var r := ExtractNcl(value);
    var parts := DigitTokens(ClassTokens(value));
    if parts != [] {
      assert r == parts[|parts| - 1];
      assert r in parts;
      DigitStringTokens(r);
      assert DigitTokens([r]) == [r] by {
        assert [r][1..] == [];
      }
    } else {
      NormalizeIdempotent(value);
      assert ClassTokens(r) == ClassTokens(value);
    }
  }
}
