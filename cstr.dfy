/** C strings as the configuration parser sees them, and the three
    libc scanners it relies on: strspn and strcspn over the separator
    set " \t\n", and strncasecmp. */
module CStr {

  /** A NUL-terminated string, held without its terminator. */
  type CString = s: seq<char> | '\0' !in s

  /** Membership in the separator set " \t\n" used throughout conf_load. */
  predicate IsSep(c: char) { c == ' ' || c == '\t' || c == '\n' }

  /** The character at offset i, reading the terminator at offset |s|. */
  function At(s: CString, i: nat): char
  {
    if i < |s| then s[i] else '\0'
  }

  /** strspn(s + i, " \t\n"): the length of the run of separators at i. */
  function Strspn(s: CString, i: nat): (n: nat)
    requires i <= |s|
    ensures i + n <= |s|
    decreases |s| - i
  {
    if i < |s| && IsSep(s[i]) then 1 + Strspn(s, i + 1) else 0
  }

  /** strspn stops at the terminator or at a character that is no separator. */
  lemma {:induction false} StrspnStop(s: CString, i: nat)
    requires i <= |s|
    ensures i + Strspn(s, i) == |s| || !IsSep(s[i + Strspn(s, i)])
    decreases |s| - i
  {
    if i < |s| && IsSep(s[i]) {
      StrspnStop(s, i + 1);
    }
  }

  /** Every character strspn steps over is a separator. */
  lemma {:induction false} StrspnRun(s: CString, i: nat)
    requires i <= |s|
    ensures forall k :: i <= k < i + Strspn(s, i) ==> IsSep(s[k])
    decreases |s| - i
  {
    if i < |s| && IsSep(s[i]) {
      StrspnRun(s, i + 1);
    }
  }

  /** strcspn(s + i, " \t\n"): the length of the run of non-separators at i. */
  function Strcspn(s: CString, i: nat): (n: nat)
    requires i <= |s|
    ensures i + n <= |s|
    decreases |s| - i
  {
    if i < |s| && !IsSep(s[i]) then 1 + Strcspn(s, i + 1) else 0
  }

  /** strcspn stops at the terminator or at a separator. */
  lemma {:induction false} StrcspnStop(s: CString, i: nat)
    requires i <= |s|
    ensures i + Strcspn(s, i) == |s| || IsSep(s[i + Strcspn(s, i)])
    decreases |s| - i
  {
    if i < |s| && !IsSep(s[i]) {
      StrcspnStop(s, i + 1);
    }
  }

  /** Every character strcspn steps over belongs to the word. */
  lemma {:induction false} StrcspnRun(s: CString, i: nat)
    requires i <= |s|
    ensures forall k :: i <= k < i + Strcspn(s, i) ==> !IsSep(s[k])
    decreases |s| - i
  {
    if i < |s| && !IsSep(s[i]) {
      StrcspnRun(s, i + 1);
    }
  }

  /** The words of s from offset i on, in order. */
  function Words(s: CString, i: nat): seq<seq<char>>
    requires i <= |s|
    decreases |s| - i
  {
    var b := i + Strspn(s, i);
    var w := Strcspn(s, b);
    if w == 0 then [] else [s[b..b + w]] + Words(s, b + w)
  }

  /** Words takes the word after the separators, then the words after it. */
  lemma WordsStep(s: CString, i: nat)
    requires i <= |s|
    ensures var b := i + Strspn(s, i); var w := Strcspn(s, b);
      Words(s, i) == if w == 0 then [] else [s[b..b + w]] + Words(s, b + w)
  {
  }

  /** No word is left exactly when skipping separators reaches the end. */
  lemma WordsEmpty(s: CString, i: nat)
    requires i <= |s|
    ensures Words(s, i) == [] <==> i + Strspn(s, i) == |s|
  {
    StrspnStop(s, i);
  }

  /** tolower in the C locale. */
  function Lower(c: char): char
  {
    if 'A' <= c <= 'Z' then (c as int + 32) as char else c
  }

  /** strncasecmp(s + i, t + j, n) == 0: at most n characters are compared,
      case-insensitively, stopping early when both strings end together. */
  predicate StrncaseEq(s: CString, i: nat, t: CString, j: nat, n: nat)
    decreases n
  {
    n == 0 ||
    (Lower(At(s, i)) == Lower(At(t, j)) &&
     (At(s, i) == '\0' || StrncaseEq(s, i + 1, t, j + 1, n - 1)))
  }

  /** w characters of s at i equal, ignoring case, the w characters of t at j. */
  predicate CaseEqRun(s: seq<char>, i: nat, t: seq<char>, j: nat, w: nat)
    requires i + w <= |s| && j + w <= |t|
  {
    forall k :: i <= k < i + w ==> Lower(s[k]) == Lower(t[j + (k - i)])
  }

  /** Comparing a run of w characters of s (holding no terminator) against t
      succeeds exactly when t has w more characters that match it. So a word
      matches an option name exactly when it is a case-insensitive prefix of it. */
  lemma {:induction false} StrncaseEqRun(s: CString, i: nat, t: CString, j: nat, w: nat)
    requires i + w <= |s| && j <= |t|
    ensures StrncaseEq(s, i, t, j, w) <==> j + w <= |t| && CaseEqRun(s, i, t, j, w)
    decreases w
  {
    if w > 0 {
      assert s[i] in s;
      if j == |t| {
        assert Lower(At(t, j)) == '\0' && Lower(s[i]) != '\0';
      } else {
        assert t[j] in t;
        StrncaseEqRun(s, i + 1, t, j + 1, w - 1);
        if j + w <= |t| && CaseEqRun(s, i, t, j, w) {
          assert CaseEqRun(s, i + 1, t, j + 1, w - 1);
        }
        if StrncaseEq(s, i, t, j, w) {
          assert j + w <= |t| && CaseEqRun(s, i + 1, t, j + 1, w - 1);
        }
      }
    }
  }

  /** At the end of s no comparison of positive length against a non-empty
      name succeeds, whatever the length. */
  lemma AtEndNoMatch(s: CString, t: CString, n: nat)
    requires n > 0 && t != []
    ensures !StrncaseEq(s, |s|, t, 0, n)
  {
    assert t[0] in t;
  }
}
