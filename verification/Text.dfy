/** Letter case and searching in text, over ASCII letters. */
module Text {

  function UpperChar(c: char): char {
    if 'a' <= c <= 'z' then (c as int - 32) as char else c
  }

  function LowerChar(c: char): char {
    if 'A' <= c <= 'Z' then (c as int + 32) as char else c
  }

  function ToUpper(s: string): string {
    seq(|s|, i requires 0 <= i < |s| => UpperChar(s[i]))
  }

  function ToLower(s: string): string {
    seq(|s|, i requires 0 <= i < |s| => LowerChar(s[i]))
  }

  predicate EqualsIgnoreCase(a: string, b: string) {
    ToLower(a) == ToLower(b)
  }

  /** The text before the first `mark`, or all of it. */
  function Before(s: string, mark: char): string {
    if s == "" || s[0] == mark then "" else [s[0]] + Before(s[1..], mark)
  }

  predicate Contains(s: string, part: string) {
    exists i :: 0 <= i <= |s| && part <= s[i..]
  }

  /** A lower-cased text never equals one that contains an upper-case letter. */
  lemma LowerIsNotMixed(s: string, mixed: string, i: nat)
    requires i < |mixed| && 'A' <= mixed[i] <= 'Z'
    ensures ToLower(s) != mixed
  {
    assert i < |s| ==> ToLower(s)[i] == LowerChar(s[i]);
  }

  // ---------------------------------------------------------------- what they mean

  /** The same character, or the two cases of one ASCII letter. */
  predicate SameLetter(a: char, b: char) {
    || a == b
    || ('a' <= a <= 'z' && 'A' <= b <= 'Z' && a as int - 'a' as int == b as int - 'A' as int)
    || ('A' <= a <= 'Z' && 'a' <= b <= 'z' && a as int - 'A' as int == b as int - 'a' as int)
  }

  predicate SameText(a: string, b: string) {
    |a| == |b| && forall i :: 0 <= i < |a| ==> SameLetter(a[i], b[i])
  }

  /** Comparing in upper case and in lower case is comparing letter by letter, whatever the case. */
  lemma ComparesLetterByLetter(a: string, b: string)
    ensures ToUpper(a) == ToUpper(b) <==> SameText(a, b)
    ensures ToLower(a) == ToLower(b) <==> SameText(a, b)
    ensures EqualsIgnoreCase(a, b) <==> SameText(a, b)
  {
    forall i | 0 <= i < |a| && i < |b|
      ensures UpperChar(a[i]) == UpperChar(b[i]) <==> SameLetter(a[i], b[i])
      ensures LowerChar(a[i]) == LowerChar(b[i]) <==> SameLetter(a[i], b[i])
    {
      ComparesLetters(a[i], b[i]);
    }
    hide SameLetter, UpperChar, LowerChar;
    assert |ToUpper(a)| == |a| && |ToUpper(b)| == |b| && |ToLower(a)| == |a| && |ToLower(b)| == |b|;
    assert forall i :: 0 <= i < |a| ==> ToUpper(a)[i] == UpperChar(a[i]) && ToLower(a)[i] == LowerChar(a[i]);
    assert forall i :: 0 <= i < |b| ==> ToUpper(b)[i] == UpperChar(b[i]) && ToLower(b)[i] == LowerChar(b[i]);
  }

  lemma ComparesLetters(a: char, b: char)
    ensures UpperChar(a) == UpperChar(b) <==> SameLetter(a, b)
    ensures LowerChar(a) == LowerChar(b) <==> SameLetter(a, b)
  {
  }

  /** The part stands somewhere in the text. */
  ghost predicate StandsIn(part: string, s: string) {
    exists before: string, after: string :: s == before + part + after
  }

  lemma ContainsIffStandsIn(s: string, part: string)
    ensures Contains(s, part) <==> StandsIn(part, s)
  {
    if i :| 0 <= i <= |s| && part <= s[i..] {
      assert s == s[..i] + part + s[i..][|part|..];
    }
    if before, after :| s == before + part + after {
      assert s[|before|..] == part + after;
    }
  }

  /** Upper case has no small letters, and reads the same. */
  lemma UpperHasNoSmallLetters(s: string)
    ensures SameText(ToUpper(s), s) && forall i :: 0 <= i < |s| ==> !('a' <= ToUpper(s)[i] <= 'z')
  {
  }

  /** What is before a mark: all of a text without it, and else the text up to the first one. */
  predicate IsBefore(part: string, s: string, mark: char) {
    part <= s && mark !in part && (part == s || s[|part|] == mark)
  }

  lemma {:induction false} BeforeIsUpToTheMark(s: string, mark: char)
    ensures IsBefore(Before(s, mark), s, mark)
  {
    if s != "" && s[0] != mark {
      BeforeIsUpToTheMark(s[1..], mark);
      assert s == [s[0]] + s[1..];
    }
  }

  lemma OnePartBefore(a: string, b: string, s: string, mark: char)
    requires IsBefore(a, s, mark) && IsBefore(b, s, mark)
    ensures a == b
  {
    assert a == s[..|a|] && b == s[..|b|];
    assert |a| < |b| ==> b[|a|] == s[|a|];
    assert |b| < |a| ==> a[|b|] == s[|b|];
  }
}
