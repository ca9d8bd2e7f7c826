/** `soundex` (analise_marca.py): the screening-grade Soundex code of a
    name. The input is normalised, every non-letter is dropped, the first
    letter is kept upper-cased, and the remaining letters contribute their
    class digit when it is non-empty and differs from the class of the
    letter just before it. */
module Phonetic {
  import opened PyStr
  import opened Normalization

  /** The class digit of a letter (`mappings.get(ch, "")`); vowels, `h`, `w`,
      `y`, accented letters and every other character have none. Only
      lower-case ASCII letters occur here, since the input is normalised. */
  function Code(c: char): (d: string)
    ensures d == [] || (|d| == 1 && '1' <= d[0] <= '6')
  {
    if c == 'b' || c == 'f' || c == 'p' || c == 'v' then "1"
    else if c == 'c' || c == 'g' || c == 'j' || c == 'k' || c == 'q' || c == 's' || c == 'x' || c == 'z' then "2"
    else if c == 'd' || c == 't' then "3"
    else if c == 'l' then "4"
    else if c == 'm' || c == 'n' then "5"
    else if c == 'r' then "6"
    else ""
  }

  /** The letters of `s`, in order (`"".join(ch for ch in s if ch.isalpha())`). */
  function Letters(s: string): string {
    if s == [] then [] else (if IsAlpha(s[0]) then [s[0]] else []) + Letters(s[1..])
  }

  /** The digits contributed by `s` when the letter before it had class `previous`. */
  function Digits(previous: string, s: string): string
    decreases |s|
  {
    if s == [] then []
    else
      var c := Code(s[0]);
      (if c != [] && c != previous then c else []) + Digits(c, s[1..])
  }

  /** The four-character code `soundex` returns: "0000" without letters,
      otherwise the upper-cased first letter and the digits, padded with '0'
      and cut to four characters. */
  function SoundexCode(value: string): string {
    var letters := Letters(Normalize(value));
    if letters == [] then "0000"
    else (UpperChar(letters[0]) + Digits(Code(letters[0]), letters[1..]) + "000")[..4]
  }

  /** The loop of `soundex`, appending digits and updating the previous class. */
  method Soundex(value: string) returns (code: string)
    ensures code == SoundexCode(value)
  {
    var letters := Letters(Normalize(value));
    if letters == [] {
      return "0000";
    }
    var firstLetter := UpperChar(letters[0]);
    var encoded: string := [];
    var previousCode := Code(letters[0]);
    var rest := letters[1..];
    ghost var seed := previousCode;
    var i := 0;
    while i < |rest|
      invariant 0 <= i <= |rest|
      invariant encoded + Digits(previousCode, rest[i..]) == Digits(seed, rest)
    {
      var c := Code(rest[i]);
      ghost var before := encoded;
      ghost var step: string := if c != [] && c != previousCode then c else [];
      assert rest[i..][1..] == rest[i + 1..];
      assert Digits(previousCode, rest[i..]) == step + Digits(c, rest[i + 1..]);
      if c != [] && c != previousCode {
        encoded := encoded + c;
        ConcatAssociative(before, c, Digits(c, rest[i + 1..]));
      } else {
        assert step + Digits(c, rest[i + 1..]) == Digits(c, rest[i + 1..]);
      }
      previousCode := c;
      i := i + 1;
    }
    assert rest[i..] == [];
    assert encoded == Digits(seed, rest);
    code := (firstLetter + encoded + "000")[..4];
  }

  lemma {:induction false} DigitsAreClassDigits(previous: string, s: string)
    ensures |Digits(previous, s)| <= |s|
    ensures forall i | 0 <= i < |Digits(previous, s)| :: '1' <= Digits(previous, s)[i] <= '6'
    decreases |s|
  {
    if s != [] {
      DigitsAreClassDigits(Code(s[0]), s[1..]);
    }
  }

  /** The code always has four characters: "0000" when the normalised input
      has no letter, and otherwise the upper-cased first letter followed by
      class digits, then '0' padding only. */
  lemma SoundexShape(value: string)
    ensures |SoundexCode(value)| == 4
    ensures Letters(Normalize(value)) == [] ==> SoundexCode(value) == "0000"
    ensures Letters(Normalize(value)) != [] ==>
      var first := UpperChar(Letters(Normalize(value))[0]);
      SoundexCode(value)[..|first|] == first
      && (forall i | |first| <= i < 4 :: '0' <= SoundexCode(value)[i] <= '6')
      && (forall i, j | |first| <= i < j < 4 && SoundexCode(value)[i] == '0' :: SoundexCode(value)[j] == '0')
  {
    var letters := Letters(Normalize(value));
    if letters != [] {
      var first := UpperChar(letters[0]);
      var digits := Digits(Code(letters[0]), letters[1..]);
      DigitsAreClassDigits(Code(letters[0]), letters[1..]);
      PaddedShape(first, digits);
    }
  }

  /** The first letter, then the class digits, then only '0's. */
  lemma PaddedShape(first: string, digits: string)
    requires 1 <= |first| <= 2
    requires forall i | 0 <= i < |digits| :: '1' <= digits[i] <= '6'
    ensures var r := (first + digits + "000")[..4];
      |r| == 4 && r[..|first|] == first
      && (forall i | |first| <= i < 4 :: '0' <= r[i] <= '6')
      && (forall i, j | |first| <= i < j < 4 && r[i] == '0' :: r[j] == '0')
  {
    var full := first + digits + "000";
    forall i | |first| <= i < 4
      ensures '0' <= full[i] <= '6'
      ensures full[i] == '0' <==> i >= |first| + |digits|
    {
      if i < |first| + |digits| {
        assert full[i] == digits[i - |first|];
      } else {
        assert full[i] == "000"[i - |first| - |digits|];
      }
    }
  }

  /** A text without letters has no letters to code. */
  lemma {:induction false} LettersOfNoAlpha(s: string)
    requires NoAlpha(s)
    ensures Letters(s) == []
    decreases |s|
  {
    if s != [] {
      assert NoAlpha(s[1..]) by {
        forall i | 0 <= i < |s| - 1 ensures !IsAlpha(s[1..][i]) {
          assert s[1..][i] == s[i + 1];
        }
      }
      LettersOfNoAlpha(s[1..]);
    }
  }

  /** A name without letters is coded "0000". */
  lemma SoundexWithoutLetters(value: string)
    requires NoAlpha(value)
    ensures SoundexCode(value) == "0000"
  {
    NormalizeNoAlpha(value);
    LettersOfNoAlpha(Normalize(value));
  }

  /** Two letters of the same class in a row give one digit: the second one
      contributes nothing and leaves the previous class as it was. */
  lemma DigitsCollapseAdjacent(previous: string, a: char, b: char, s: string)
    requires Code(a) == Code(b)
    ensures Digits(previous, [a, b] + s) == Digits(previous, [a] + s)
  {
    assert ([a, b] + s)[1..] == [b] + s;
    assert ([b] + s)[1..] == s;
    assert ([a] + s)[1..] == s;
  }

  /** The first letter seeds the previous class: a second letter of the
      same class adds no digit (so "Pfizer" is coded like "Pizer", "P260"). */
  lemma FirstLetterSeeds(value: string, a: char, b: char, s: string)
    requires Letters(Normalize(value)) == [a, b] + s
    requires Code(a) == Code(b)
    ensures SoundexCode(value) == (UpperChar(a) + Digits(Code(a), s) + "000")[..4]
  {
    TwoLetters(a, b, s);
    DigitsSameClass(Code(a), b, s);
  }

  lemma TwoLetters(a: char, b: char, s: string)
    ensures ([a, b] + s)[0] == a && ([a, b] + s)[1..] == [b] + s
  {
    assert [a, b] + s == [a] + ([b] + s);
  }

  /** A letter of the previous class adds no digit and keeps the class. */
  lemma DigitsSameClass(previous: string, b: char, s: string)
    requires Code(b) == previous
    ensures Digits(previous, [b] + s) == Digits(previous, s)
  {
    assert ([b] + s)[1..] == s;
  }

  /** Names with the same lower-cased words get the same code: the code
      ignores case and surrounding or repeated whitespace. */
  lemma SoundexIgnoresCaseAndSpacing(x: string, y: string)
    requires Split(Lower(x)) == Split(Lower(y))
    ensures SoundexCode(x) == SoundexCode(y)
  {
    NormalizeIgnoresCaseAndSpacing(x, y);
  }

  /** Upper- and lower-case spellings of a name get the same code. */
  lemma SoundexIgnoresCase(x: string)
    ensures SoundexCode(Lower(x)) == SoundexCode(x)
  {
    NormalizeIgnoresCase(x);
  }
}
