/** The small part of Python's `str` that the screener relies on:
    character classes (`isspace`, `isalpha`, `isdigit`), case mapping
    (`lower`, `upper`), `strip`, `split()` without arguments, `sep.join`,
    the substring test `p in s`, `replace` of one character and `str(int)`.
    Character classes and case mapping are modelled for Latin-1; the
    whitespace set is Python's complete one. */
module PyStr {

  /** Characters Python treats as whitespace in `split()`, `strip()`, `isspace()`. */
  predicate IsSpace(c: char) {
    c == ' ' || '\t' <= c <= '\r' || '\U{1c}' <= c <= '\U{1f}'
    || c == '\U{85}' || c == '\U{a0}' || c == '\U{1680}'
    || '\U{2000}' <= c <= '\U{200a}' || c == '\U{2028}' || c == '\U{2029}'
    || c == '\U{202f}' || c == '\U{205f}' || c == '\U{3000}'
  }

  /** `c.isalpha()` for Latin-1: ASCII letters, the feminine and masculine
      ordinals, the micro sign and the accented letters. */
  predicate IsAlpha(c: char) {
    'a' <= c <= 'z' || 'A' <= c <= 'Z'
    || c == '\U{aa}' || c == '\U{b5}' || c == '\U{ba}'
    || '\U{c0}' <= c <= '\U{d6}' || '\U{d8}' <= c <= '\U{f6}' || '\U{f8}' <= c <= '\U{ff}'
  }

  /** `c.isdigit()` for Latin-1: the ASCII digits and the superscripts one, two, three. */
  predicate IsDigit(c: char) {
    '0' <= c <= '9' || c == '\U{b2}' || c == '\U{b3}' || c == '\U{b9}'
  }

  /** `s.isdigit()`: non-empty and every character a digit. */
  predicate IsDigitString(s: string) {
    s != [] && forall i | 0 <= i < |s| :: IsDigit(s[i])
  }

  /** Upper-case characters that `lower()` changes (Latin-1). */
  predicate IsUpper(c: char) {
    'A' <= c <= 'Z' || '\U{c0}' <= c <= '\U{d6}' || '\U{d8}' <= c <= '\U{de}'
  }

  function LowerChar(c: char): (r: char)
    ensures !IsUpper(r)
    ensures IsSpace(r) == IsSpace(c) && IsAlpha(r) == IsAlpha(c)
    ensures !IsUpper(c) ==> r == c
  {
    if IsUpper(c) then (c as int + 32) as char else c
  }

  /** `s.lower()`. */
  function Lower(s: string): (r: string)
    ensures |r| == |s|
    ensures forall i | 0 <= i < |s| :: r[i] == LowerChar(s[i])
  {
    seq(|s|, i requires 0 <= i < |s| => LowerChar(s[i]))
  }

  predicate NoUpper(s: string) {
    forall i | 0 <= i < |s| :: !IsUpper(s[i])
  }

  /** `c.upper()` for a Latin-1 letter; `'ß'` becomes the two letters "SS". */
  function UpperChar(c: char): (r: string)
    ensures 1 <= |r| <= 2
  {
    if 'a' <= c <= 'z' then [(c as int - 32) as char]
    else if '\U{e0}' <= c <= '\U{fe}' && c != '\U{f7}' then [(c as int - 32) as char]
    else if c == '\U{ff}' then ['\U{178}']
    else if c == '\U{b5}' then ['\U{39c}']
    else if c == '\U{df}' then "SS"
    else [c]
  }

  predicate AllSpace(s: string) {
    forall i | 0 <= i < |s| :: IsSpace(s[i])
  }

  /** Leading whitespace removed. */
  function DropSpaces(s: string): (r: string)
    ensures |r| <= |s|
    ensures r == [] || !IsSpace(r[0])
    ensures s == [] || !IsSpace(s[0]) ==> r == s
  {
    if s != [] && IsSpace(s[0]) then DropSpaces(s[1..]) else s
  }

  /** Trailing whitespace removed. */
  function DropTrailingSpaces(s: string): (r: string)
    ensures |r| <= |s|
    ensures r == [] || !IsSpace(r[|r| - 1])
    ensures s == [] || !IsSpace(s[|s| - 1]) ==> r == s
  {
    if s != [] && IsSpace(s[|s| - 1]) then DropTrailingSpaces(s[..|s| - 1]) else s
  }

  /** What `DropSpaces` leaves is a suffix of its input. */
  lemma {:induction false} DropSpacesSuffix(s: string)
    ensures DropSpaces(s) == s[|s| - |DropSpaces(s)|..]
    decreases |s|
  {
    if s != [] && IsSpace(s[0]) {
      DropSpacesSuffix(s[1..]);
    }
  }

  /** What `DropTrailingSpaces` leaves is a prefix of its input. */
  lemma {:induction false} DropTrailingSpacesPrefix(s: string)
    ensures DropTrailingSpaces(s) == s[..|DropTrailingSpaces(s)|]
    decreases |s|
  {
    if s != [] && IsSpace(s[|s| - 1]) {
      DropTrailingSpacesPrefix(s[..|s| - 1]);
    }
  }

  /** `s.strip()`. */
  function Strip(s: string): (r: string)
    ensures r == [] || (!IsSpace(r[0]) && !IsSpace(r[|r| - 1]))
    ensures s == [] || (!IsSpace(s[0]) && !IsSpace(s[|s| - 1])) ==> r == s
  {
    var d := DropSpaces(s);
    DropTrailingSpacesPrefix(d);
    DropTrailingSpaces(d)
  }

  /** A token of `split()`: non-empty, no whitespace. */
  predicate IsWord(w: string) {
    w != [] && forall i | 0 <= i < |w| :: !IsSpace(w[i])
  }

  /** The longest whitespace-free prefix. */
  function TakeWord(s: string): (w: string)
    ensures |w| <= |s| && w == s[..|w|]
    ensures forall i | 0 <= i < |w| :: !IsSpace(w[i])
    ensures |w| < |s| ==> IsSpace(s[|w|])
  {
    if s == [] || IsSpace(s[0]) then [] else [s[0]] + TakeWord(s[1..])
  }

  /** `s.split()`: the maximal runs of non-whitespace, in order. */
  function Split(s: string): (ws: seq<string>)
    decreases |s|
  {
    var t := DropSpaces(s);
    if t == [] then []
    else
      var w := TakeWord(t);
      [w] + Split(t[|w|..])
  }

  /** `sep.join(ws)`. */
  function Join(ws: seq<string>, sep: string): string {
    if ws == [] then ""
    else if |ws| == 1 then ws[0]
    else ws[0] + sep + Join(ws[1..], sep)
  }

  function IsPrefix(p: string, s: string): bool {
    |p| <= |s| && s[..|p|] == p
  }

  /** Python's `p in s` on strings. */
  function Contains(s: string, p: string): bool
    decreases |s|
  {
    IsPrefix(p, s) || (s != [] && Contains(s[1..], p))
  }

  /** `s.replace(a, b)` for single characters `a` and `b`. */
  function ReplaceChar(s: string, a: char, b: char): (r: string)
    ensures |r| == |s|
    ensures forall i | 0 <= i < |s| :: r[i] == if s[i] == a then b else s[i]
  {
    seq(|s|, i requires 0 <= i < |s| => if s[i] == a then b else s[i])
  }

  /** `str(n)` for a natural number. */
  function NatToString(n: nat): (r: string)
    ensures r != [] && forall i | 0 <= i < |r| :: '0' <= r[i] <= '9'
    ensures IsDigitString(r)
  {
    var d := ['0' + (n % 10) as char];
    if n < 10 then d else NatToString(n / 10) + d
  }

  /** The number a string of ASCII decimal digits denotes. */
  function DecimalValue(s: string): nat
    requires forall i | 0 <= i < |s| :: '0' <= s[i] <= '9'
  {
    if s == [] then 0
    else 10 * DecimalValue(s[..|s| - 1]) + (s[|s| - 1] - '0') as nat
  }

  /** `str(n)` denotes `n` again. */
  lemma {:induction false} NatToStringValue(n: nat)
    ensures DecimalValue(NatToString(n)) == n
  {
    var r := NatToString(n);
    if n >= 10 {
      NatToStringValue(n / 10);
      assert r[..|r| - 1] == NatToString(n / 10);
    }
  }

  /** `str(n)` for an integer. */
  function IntToString(n: int): string {
    if n < 0 then "-" + NatToString(-n) else NatToString(n)
  }

  // ---------------------------------------------------------------------
  // Facts about split and join used by the normaliser
  // ---------------------------------------------------------------------

  /** Every whitespace character is a single blank between two non-blanks:
      no leading or trailing whitespace and no two in a row. */
  predicate SingleSpaced(r: string) {
    forall i | 0 <= i < |r| && IsSpace(r[i]) :: r[i] == ' ' && 0 < i < |r| - 1 && !IsSpace(r[i + 1])
  }

  lemma ConcatAssociative<T>(a: seq<T>, b: seq<T>, c: seq<T>)
    ensures a + b + c == a + (b + c)
  {
  }

  lemma ConcatEmpty<T>(s: seq<T>)
    ensures s + [] == s && [] + s == s
  {
  }

  lemma {:induction false} SplitWords(s: string)
    ensures forall w | w in Split(s) :: IsWord(w)
    ensures NoUpper(s) ==> forall w | w in Split(s) :: NoUpper(w)
    decreases |s|
  {
    var t := DropSpaces(s);
    if t != [] {
      var w := TakeWord(t);
      var rest := t[|w|..];
      SplitWords(rest);
      assert Split(s) == [w] + Split(rest);
      assert IsWord(w);
      if NoUpper(s) {
        DropSpacesSuffix(s);
        assert NoUpper(t);
        assert NoUpper(w);
        assert NoUpper(rest);
      }
    }
  }

  lemma {:induction false} TakeWordOfWord(w: string, u: string)
    requires IsWord(w)
    requires u == [] || IsSpace(u[0])
    ensures TakeWord(w + u) == w
    decreases |w|
  {
    assert (w + u)[1..] == w[1..] + u;
    if |w| > 1 {
      TakeWordOfWord(w[1..], u);
    } else {
      assert w[1..] + u == u;
    }
  }

  lemma SplitWordThen(w: string, u: string)
    requires IsWord(w)
    requires u == [] || IsSpace(u[0])
    ensures Split(w + u) == [w] + Split(u)
  {
    TakeWordOfWord(w, u);
    assert (w + u)[|w|..] == u;
  }

  lemma SplitOfWord(w: string)
    requires IsWord(w)
    ensures Split(w) == [w]
  {
    SplitWordThen(w, []);
    ConcatEmpty(w);
  }

  lemma SplitBlankThen(t: string)
    ensures Split(" " + t) == Split(t)
  {
    assert (" " + t)[1..] == t;
  }

  lemma SplitWordBlankThen(w: string, t: string)
    requires IsWord(w)
    ensures Split(w + " " + t) == [w] + Split(t)
  {
    assert w + " " + t == w + (" " + t);
    SplitWordThen(w, " " + t);
    SplitBlankThen(t);
  }

  lemma {:induction false} SplitJoin(ws: seq<string>)
    requires forall w | w in ws :: IsWord(w)
    ensures Split(Join(ws, " ")) == ws
  {
    if ws == [] {
    } else if |ws| == 1 {
      assert IsWord(ws[0]) by { assert ws[0] in ws; }
      SplitOfWord(ws[0]);
    } else {
      assert IsWord(ws[0]) by { assert ws[0] in ws; }
      var tail := ws[1..];
      var joined := Join(tail, " ");
      assert Join(ws, " ") == ws[0] + " " + joined;
      forall w | w in tail ensures IsWord(w) { assert w in ws; }
      SplitJoin(tail);
      SplitWordBlankThen(ws[0], joined);
      assert Split(Join(ws, " ")) == [ws[0]] + Split(joined);
      assert [ws[0]] + tail == ws;
    }
  }

  lemma {:induction false} JoinSingleSpaced(ws: seq<string>)
    requires forall w | w in ws :: IsWord(w)
    ensures SingleSpaced(Join(ws, " "))
    ensures Join(ws, " ") == [] <==> ws == []
  {
    if |ws| > 1 {
      var w, t := ws[0], Join(ws[1..], " ");
      assert ws[0] in ws;
      JoinSingleSpaced(ws[1..]);
      assert t != [];
      assert !IsSpace(t[0]);
      var r := w + " " + t;
      assert r == Join(ws, " ");
      forall i | 0 <= i < |r| && IsSpace(r[i])
        ensures r[i] == ' ' && 0 < i < |r| - 1 && !IsSpace(r[i + 1])
      {
        if i == |w| {
          assert r[i + 1] == t[0];
        } else {
          var j := i - |w| - 1;
          assert r[i] == t[j];
          assert IsSpace(t[j]);
          assert r[i + 1] == t[j + 1];
        }
      }
    } else if |ws| == 1 {
      assert ws[0] in ws;
    }
  }

  lemma {:induction false} JoinNoUpper(ws: seq<string>, sep: string)
    requires forall w | w in ws :: NoUpper(w)
    requires NoUpper(sep)
    ensures NoUpper(Join(ws, sep))
  {
    if |ws| > 1 {
      assert ws[0] in ws;
      JoinNoUpper(ws[1..], sep);
      var r := Join(ws, sep);
      var a, b := ws[0], Join(ws[1..], sep);
      assert NoUpper(a) && NoUpper(b);
      assert r == a + sep + b;
      forall i | 0 <= i < |r| ensures !IsUpper(r[i]) {
        if i < |a| { assert r[i] == a[i]; }
        else if i < |a| + |sep| { assert r[i] == sep[i - |a|]; }
        else { assert r[i] == b[i - |a| - |sep|]; }
      }
    } else if |ws| == 1 {
      assert ws[0] in ws;
    }
  }

  /** Lower-casing twice is lower-casing once. */
  lemma LowerIdempotent(s: string)
    ensures Lower(Lower(s)) == Lower(s)
  {
    var l := Lower(s);
    forall i | 0 <= i < |l| ensures Lower(l)[i] == l[i] {
      assert !IsUpper(l[i]);
    }
  }

  lemma LowerNoUpper(s: string)
    requires NoUpper(s)
    ensures Lower(s) == s
  {
  }

  lemma {:induction false} JoinStartsWithFirst(ws: seq<string>, sep: string)
    requires ws != []
    ensures IsPrefix(ws[0], Join(ws, sep))
  {
    if |ws| > 1 {
      assert Join(ws, sep) == ws[0] + (sep + Join(ws[1..], sep));
    }
  }

  /** No character of `s` is a letter. */
  predicate NoAlpha(s: string) {
    forall i | 0 <= i < |s| :: !IsAlpha(s[i])
  }

  /** The tokens of a text without letters have no letters either. */
  lemma {:induction false} NoAlphaSplit(s: string)
    requires NoAlpha(s)
    ensures forall w | w in Split(s) :: NoAlpha(w)
    decreases |s|
  {
    var t := DropSpaces(s);
    DropSpacesSuffix(s);
    assert NoAlpha(t) by {
      forall i | 0 <= i < |t| ensures !IsAlpha(t[i]) {
        assert t[i] == s[|s| - |t| + i];
      }
    }
    if t != [] {
      var w := TakeWord(t);
      var rest := t[|w|..];
      assert NoAlpha(w) by {
        forall i | 0 <= i < |w| ensures !IsAlpha(w[i]) {
          assert w[i] == t[i];
        }
      }
      assert NoAlpha(rest) by {
        forall i | 0 <= i < |rest| ensures !IsAlpha(rest[i]) {
          assert rest[i] == t[|w| + i];
        }
      }
      NoAlphaSplit(rest);
      assert Split(s) == [w] + Split(rest);
    }
  }

  /** Joining texts without letters by a separator without letters gives a
      text without letters. */
  lemma {:induction false} NoAlphaJoin(ws: seq<string>, sep: string)
    requires forall w | w in ws :: NoAlpha(w)
    requires NoAlpha(sep)
    ensures NoAlpha(Join(ws, sep))
  {
    if |ws| == 1 {
      assert ws[0] in ws;
    } else if |ws| > 1 {
      assert ws[0] in ws;
      forall w | w in ws[1..] ensures NoAlpha(w) {
        assert w in ws;
      }
      NoAlphaJoin(ws[1..], sep);
      var a, b := ws[0], Join(ws[1..], sep);
      var r := Join(ws, sep);
      assert r == a + sep + b;
      forall i | 0 <= i < |r| ensures !IsAlpha(r[i]) {
        if i < |a| {
          assert r[i] == a[i];
        } else if i < |a| + |sep| {
          assert r[i] == sep[i - |a|];
        } else {
          assert r[i] == b[i - |a| - |sep|];
        }
      }
    }
  }

  // ---------------------------------------------------------------------
  // split() ignores whitespace around the text
  // ---------------------------------------------------------------------

  lemma {:induction false} DropSpacesDropsSpace(s: string)
    ensures forall i | 0 <= i < |s| - |DropSpaces(s)| :: IsSpace(s[i])
    decreases |s|
  {
    if s != [] && IsSpace(s[0]) {
      var s' := s[1..];
      DropSpacesDropsSpace(s');
      assert DropSpaces(s) == DropSpaces(s');
      forall i | 1 <= i < |s| - |DropSpaces(s)| ensures IsSpace(s[i]) {
        assert s[i] == s'[i - 1];
      }
    }
  }

  lemma {:induction false} DropTrailingSpacesDropsSpace(s: string)
    ensures forall i | |DropTrailingSpaces(s)| <= i < |s| :: IsSpace(s[i])
    decreases |s|
  {
    if s != [] && IsSpace(s[|s| - 1]) {
      var s' := s[..|s| - 1];
      DropTrailingSpacesDropsSpace(s');
      assert DropTrailingSpaces(s) == DropTrailingSpaces(s');
      forall i | |DropTrailingSpaces(s)| <= i < |s| - 1 ensures IsSpace(s[i]) {
        assert s[i] == s'[i];
      }
    }
  }

  lemma StripBounds(s: string) returns (a: nat, b: nat)
    ensures a <= b <= |s| && Strip(s) == s[a..b]
    ensures forall i | 0 <= i < a :: IsSpace(s[i])
    ensures forall i | b <= i < |s| :: IsSpace(s[i])
  {
    var d := DropSpaces(s);
    DropSpacesSuffix(s);
    DropSpacesDropsSpace(s);
    a := |s| - |d|;
    var e := DropTrailingSpaces(d);
    DropTrailingSpacesPrefix(d);
    DropTrailingSpacesDropsSpace(d);
    b := a + |e|;
    assert e == s[a..b] by {
      assert d == s[a..];
      assert e == d[..|e|];
    }
    forall i | b <= i < |s| ensures IsSpace(s[i]) {
      assert s[i] == d[i - a];
    }
  }

  lemma DropSpacesOfAllSpace(s: string)
    ensures DropSpaces(s) == [] <==> AllSpace(s)
  {
    var r := DropSpaces(s);
    DropSpacesDropsSpace(s);
    if r == [] {
      assert s[..|s|] == s;
    }
  }

  lemma SplitEmpty(s: string)
    ensures Split(s) == [] <==> AllSpace(s)
  {
    DropSpacesOfAllSpace(s);
  }

  lemma {:induction false} SplitLeadingSpace(p: string, m: string)
    requires AllSpace(p)
    ensures Split(p + m) == Split(m)
    decreases |p|
  {
    if p == [] {
      assert p + m == m;
    } else {
      assert (p + m)[1..] == p[1..] + m;
      assert DropSpaces(p + m) == DropSpaces(p[1..] + m);
      SplitLeadingSpace(p[1..], m);
    }
  }

  lemma {:induction false} DropSpacesAppend(x: string, c: char)
    requires DropSpaces(x) != []
    ensures DropSpaces(x + [c]) == DropSpaces(x) + [c]
    decreases |x|
  {
    assert (x + [c])[1..] == x[1..] + [c];
    if IsSpace(x[0]) {
      DropSpacesAppend(x[1..], c);
    }
  }

  lemma {:induction false} TakeWordAppendSpace(t: string, c: char)
    requires IsSpace(c)
    ensures TakeWord(t + [c]) == TakeWord(t)
    decreases |t|
  {
    if t != [] {
      assert (t + [c])[1..] == t[1..] + [c];
      if !IsSpace(t[0]) {
        TakeWordAppendSpace(t[1..], c);
      }
    }
  }

  lemma {:induction false} SplitSpaceAppended(x: string, c: char)
    requires IsSpace(c)
    ensures Split(x + [c]) == Split(x)
    decreases |x|
  {
    var t := DropSpaces(x);
    if t == [] {
      assert DropSpaces(x + [c]) == [] by {
        DropSpacesOfAllSpace(x);
        assert AllSpace(x + [c]);
        DropSpacesOfAllSpace(x + [c]);
      }
    } else {
      var w := TakeWord(t);
      assert DropSpaces(x + [c]) == t + [c] by { DropSpacesAppend(x, c); }
      assert TakeWord(t + [c]) == w by { TakeWordAppendSpace(t, c); }
      assert (t + [c])[|w|..] == t[|w|..] + [c];
      SplitSpaceAppended(t[|w|..], c);
    }
  }

  lemma {:induction false} SplitTrailingSpace(m: string, q: string)
    requires AllSpace(q)
    ensures Split(m + q) == Split(m)
    decreases |q|
  {
    if q == [] {
      assert m + q == m;
    } else {
      var q' := q[..|q| - 1];
      assert m + q == (m + q') + [q[|q| - 1]];
      SplitSpaceAppended(m + q', q[|q| - 1]);
      SplitTrailingSpace(m, q');
    }
  }

  lemma ThreeParts(s: string, a: nat, b: nat)
    requires a <= b <= |s|
    ensures s == s[..a] + s[a..b] + s[b..]
  {
    assert s[a..] == s[a..b] + s[b..];
    assert s == s[..a] + s[a..];
  }

  /** Lower-casing works character by character, so it distributes over `+`. */
  lemma LowerAppend(x: string, y: string)
    ensures Lower(x + y) == Lower(x) + Lower(y)
  {
    var l, r := Lower(x + y), Lower(x) + Lower(y);
    forall i | 0 <= i < |l| ensures l[i] == r[i] {
      if i < |x| { assert (x + y)[i] == x[i]; }
      else { assert (x + y)[i] == y[i - |x|]; }
    }
  }

  lemma SplitLowerStrip(s: string)
    ensures Split(Lower(Strip(s))) == Split(Lower(s))
  {
    var a, b := StripBounds(s);
    var p, m, q := Lower(s[..a]), Lower(s[a..b]), Lower(s[b..]);
    assert AllSpace(p) by {
      forall i | 0 <= i < |p| ensures IsSpace(p[i]) { assert p[i] == LowerChar(s[i]); }
    }
    assert AllSpace(q) by {
      forall i | 0 <= i < |q| ensures IsSpace(q[i]) { assert q[i] == LowerChar(s[b + i]); }
    }
    ThreeParts(s, a, b);
    LowerAppend(s[..a], s[a..b]);
    LowerAppend(s[..a] + s[a..b], s[b..]);
    SplitTrailingSpace(p + m, q);
    SplitLeadingSpace(p, m);
  }

  // ---------------------------------------------------------------------
  // The substring test
  // ---------------------------------------------------------------------

  /** `p` is written in `s` starting at position `i`. */
  predicate OccursAt(s: string, p: string, i: nat) {
    i + |p| <= |s| && s[i..i + |p|] == p
  }

  /** `p in s` holds exactly when `p` occurs in `s` at some position. */
  lemma {:induction false} ContainsOccurs(s: string, p: string)
    ensures Contains(s, p) <==> exists i: nat :: OccursAt(s, p, i)
    decreases |s|
  {
    if IsPrefix(p, s) {
      assert OccursAt(s, p, 0);
    } else if s == [] {
    } else {
      ContainsOccurs(s[1..], p);
      if exists i: nat :: OccursAt(s, p, i) {
        var i: nat :| OccursAt(s, p, i);
        assert i != 0;
        assert s[1..][i - 1..i - 1 + |p|] == s[i..i + |p|];
        assert OccursAt(s[1..], p, i - 1);
      }
      if Contains(s[1..], p) {
        var i: nat :| OccursAt(s[1..], p, i);
        assert s[i + 1..i + 1 + |p|] == s[1..][i..i + |p|];
        assert OccursAt(s, p, i + 1);
      }
    }
  }

  /** A text contains whatever is written inside it. */
  lemma ContainsInfix(a: string, p: string, b: string)
    ensures Contains(a + p + b, p)
  {
    var s := a + p + b;
    assert s[|a|..|a| + |p|] == p;
    assert OccursAt(s, p, |a|);
    ContainsOccurs(s, p);
  }

  /** Text found in `b` is found in `a + b`. */
  lemma ContainsAfter(a: string, b: string, p: string)
    requires Contains(b, p)
    ensures Contains(a + b, p)
  {
    ContainsOccurs(b, p);
    var i: nat :| OccursAt(b, p, i);
    assert (a + b)[|a| + i..|a| + i + |p|] == b[i..i + |p|];
    assert OccursAt(a + b, p, |a| + i);
    ContainsOccurs(a + b, p);
  }

  /** Every item of a joined list occurs in the joined text. */
  lemma {:induction false} JoinContains(ws: seq<string>, sep: string, i: nat)
    requires i < |ws|
    ensures Contains(Join(ws, sep), ws[i])
  {
    if |ws| == 1 {
      ContainsInfix([], ws[0], []);
      assert [] + ws[0] + [] == ws[0];
    } else if i == 0 {
      ContainsInfix([], ws[0], sep + Join(ws[1..], sep));
      assert [] + ws[0] + (sep + Join(ws[1..], sep)) == Join(ws, sep);
    } else {
      JoinContains(ws[1..], sep, i - 1);
      ContainsAfter(ws[0] + sep, Join(ws[1..], sep), ws[i]);
    }
  }
}
