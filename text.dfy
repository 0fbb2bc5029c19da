/**
 * The few Python string and regular-expression primitives the decoder relies on,
 * restricted to ASCII: str.strip(), str.upper(), re.sub("\\W", "", s), the
 * character classes "\\d" and "[A-Z]", slicing s[:n] / s[n:] and str.split(sep).
 */
module Text {

  /** str.isspace() on ASCII: space, \t \n \v \f \r and the separators 0x1C..0x1F. */
  predicate IsSpace(c: char) {
    c == ' ' || ('\t' <= c <= '\r') || ('\U{1C}' <= c <= '\U{1F}')
  }

  /** The regular-expression class "\\d" on ASCII. */
  predicate IsDigit(c: char) {
    '0' <= c <= '9'
  }

  /** The regular-expression class "[A-Z]". */
  predicate IsUpperLetter(c: char) {
    'A' <= c <= 'Z'
  }

  predicate IsLowerLetter(c: char) {
    'a' <= c <= 'z'
  }

  /** The regular-expression class "\\w" on ASCII: letters, digits and the underscore. */
  predicate IsWordChar(c: char) {
    IsUpperLetter(c) || IsLowerLetter(c) || IsDigit(c) || c == '_'
  }

  // ---------------------------------------------------------------------------
  // str.strip()

  /** str.lstrip(): drop leading whitespace. */
  function StripLeft(s: string): string {
    if s != [] && IsSpace(s[0]) then StripLeft(s[1..]) else s
  }

  /** str.rstrip(): drop trailing whitespace. */
  function StripRight(s: string): string {
    if s != [] && IsSpace(s[|s| - 1]) then StripRight(s[..|s| - 1]) else s
  }

  /** lstrip() keeps a suffix that does not start with whitespace, and what it drops is whitespace. */
  lemma {:induction false} StripLeftSpec(s: string)
    ensures var r := StripLeft(s);
      |r| <= |s| && r == s[|s| - |r|..] && (r == [] || !IsSpace(r[0])) &&
      forall i :: 0 <= i < |s| - |r| ==> IsSpace(s[i])
  {
    if s != [] && IsSpace(s[0]) {
      var t := s[1..];
      StripLeftSpec(t);
      var r := StripLeft(t);
      assert StripLeft(s) == r;
      assert t[|t| - |r|..] == s[|s| - |r|..];
      forall i | 0 <= i < |s| - |r|
        ensures IsSpace(s[i])
      {
        if i > 0 {
          assert s[i] == t[i - 1];
        }
      }
    }
  }

  /** rstrip() keeps a prefix that does not end with whitespace, and what it drops is whitespace. */
  lemma {:induction false} StripRightSpec(s: string)
    ensures var r := StripRight(s);
      |r| <= |s| && r == s[..|r|] && (r == [] || !IsSpace(r[|r| - 1])) &&
      forall i :: |r| <= i < |s| ==> IsSpace(s[i])
  {
    if s != [] && IsSpace(s[|s| - 1]) {
      var t := s[..|s| - 1];
      StripRightSpec(t);
      var r := StripRight(t);
      assert StripRight(s) == r;
      assert t[..|r|] == s[..|r|];
      forall i | |r| <= i < |s|
        ensures IsSpace(s[i])
      {
        if i < |s| - 1 {
          assert s[i] == t[i];
        }
      }
    }
  }

  /** str.strip(): drop leading and trailing whitespace. */
  function Strip(s: string): string {
    StripRight(StripLeft(s))
  }

  /** strip() leaves nothing that starts or ends with whitespace. */
  lemma StripTrims(s: string)
    ensures Strip(s) == [] || (!IsSpace(Strip(s)[0]) && !IsSpace(Strip(s)[|Strip(s)| - 1]))
  {
    var l := StripLeft(s);
    StripLeftSpec(s);
    StripRightSpec(l);
    var r := StripRight(l);
    if r != [] {
      assert r[0] == l[0];
    }
  }

  // ---------------------------------------------------------------------------
  // str.upper()

  function UpperChar(c: char): char {
    if IsLowerLetter(c) then (c as int - 32) as char else c
  }

  /** str.upper() on ASCII: lower-case letters become upper case, everything else is kept. */
  function Upper(s: string): (r: string)
    ensures |r| == |s|
    ensures forall i :: 0 <= i < |s| ==> r[i] == UpperChar(s[i])
  {
    if s == [] then [] else [UpperChar(s[0])] + Upper(s[1..])
  }

  // ---------------------------------------------------------------------------
  // re.sub("\\W", "", s)

  /** Delete every character outside "\\w". */
  function RemoveNonWord(s: string): (r: string)
    ensures |r| <= |s|
    ensures forall i :: 0 <= i < |r| ==> IsWordChar(r[i])
  {
    if s == [] then []
    else (if IsWordChar(s[0]) then [s[0]] else []) + RemoveNonWord(s[1..])
  }

  // ---------------------------------------------------------------------------
  // Slicing that never fails, as Python's s[:n] and s[n:] do.

  function Head(s: string, n: nat): (r: string)
    ensures |r| == if n <= |s| then n else |s|
  {
    if n <= |s| then s[..n] else s
  }

  function Tail(s: string, n: nat): (r: string)
    ensures |r| == if n <= |s| then |s| - n else 0
  {
    if n <= |s| then s[n..] else []
  }

  /** Python's s[lo:hi] for 0 <= lo <= hi: the characters at positions lo up to hi, as far as s reaches. */
  function Slice(s: string, lo: nat, hi: nat): (r: string)
    requires lo <= hi
    ensures |r| == if hi <= |s| then hi - lo else if lo <= |s| then |s| - lo else 0
    ensures forall i :: 0 <= i < |r| ==> r[i] == s[lo + i]
  {
    if |s| <= lo then [] else if hi <= |s| then s[lo..hi] else s[lo..]
  }

  // ---------------------------------------------------------------------------
  // str.split(sep) with a one-character separator

  function Split(s: string, sep: char): (parts: seq<string>)
    ensures |parts| >= 1
  {
    if s == [] then [""]
    else
      var rest := Split(s[1..], sep);
      if s[0] == sep then [""] + rest
      else [[s[0]] + rest[0]] + rest[1..]
  }

  /** sep.join(parts) */
  function JoinWith(parts: seq<string>, sep: char): string
    requires |parts| >= 1
  {
    if |parts| == 1 then parts[0] else parts[0] + [sep] + JoinWith(parts[1..], sep)
  }

  // ---------------------------------------------------------------------------
  // Properties of the primitives

  /** upper() works character by character, so it distributes over concatenation. */
  lemma UpperAppend(a: string, b: string)
    ensures Upper(a + b) == Upper(a) + Upper(b)
  {
    assert forall i | 0 <= i < |a + b| :: Upper(a + b)[i] == (Upper(a) + Upper(b))[i];
  }

  /** upper() is idempotent. */
  lemma UpperIdempotent(s: string)
    ensures Upper(Upper(s)) == Upper(s)
  {
    assert forall i | 0 <= i < |s| :: Upper(Upper(s))[i] == Upper(s)[i];
  }

  /** Deleting the non-word characters of a concatenation deletes them from each part. */
  lemma {:induction false} RemoveNonWordAppend(a: string, b: string)
    ensures RemoveNonWord(a + b) == RemoveNonWord(a) + RemoveNonWord(b)
  {
    if a == [] {
      assert a + b == b;
    } else {
      assert (a + b)[0] == a[0];
      assert (a + b)[1..] == a[1..] + b;
      RemoveNonWordAppend(a[1..], b);
    }
  }

  /** A string of word characters only is left as it is. */
  lemma {:induction false} RemoveNonWordKeepsWords(s: string)
    requires forall i :: 0 <= i < |s| ==> IsWordChar(s[i])
    ensures RemoveNonWord(s) == s
  {
    if s != [] {
      RemoveNonWordKeepsWords(s[1..]);
    }
  }

  /** A string with no word character disappears entirely. */
  lemma {:induction false} RemoveNonWordDropsNonWords(s: string)
    requires forall i :: 0 <= i < |s| ==> !IsWordChar(s[i])
    ensures RemoveNonWord(s) == []
  {
    if s != [] {
      RemoveNonWordDropsNonWords(s[1..]);
    }
  }

  /** Whitespace survives upper() and is then deleted. */
  lemma SpacesVanish(t: string)
    requires forall i :: 0 <= i < |t| ==> IsSpace(t[i])
    ensures RemoveNonWord(Upper(t)) == []
  {
    RemoveNonWordDropsNonWords(Upper(t));
  }

  /** upper() followed by the deletion of non-word characters distributes over concatenation. */
  lemma UpperRemoveAppend(a: string, b: string)
    ensures RemoveNonWord(Upper(a + b)) == RemoveNonWord(Upper(a)) + RemoveNonWord(Upper(b))
  {
    UpperAppend(a, b);
    RemoveNonWordAppend(Upper(a), Upper(b));
  }

  /** strip() cuts s into leading whitespace, the stripped text and trailing whitespace. */
  lemma StripParts(s: string) returns (front: string, back: string)
    ensures s == front + Strip(s) + back
    ensures forall i :: 0 <= i < |front| ==> IsSpace(front[i])
    ensures forall i :: 0 <= i < |back| ==> IsSpace(back[i])
  {
    var l := StripLeft(s);
    var r := StripRight(l);
    StripLeftSpec(s);
    StripRightSpec(l);
    front, back := s[..|s| - |l|], l[|r|..];
    assert s == front + l;
    assert l == r + back;
  }

  /** Deleting non-word characters after upper() ignores a padding of text that vanishes. */
  lemma UpperRemoveIgnoresPadding(front: string, mid: string, back: string)
    requires RemoveNonWord(Upper(front)) == [] && RemoveNonWord(Upper(back)) == []
    ensures RemoveNonWord(Upper(front + mid + back)) == RemoveNonWord(Upper(mid))
  {
    var tail := mid + back;
    assert front + mid + back == front + tail;
    UpperRemoveAppend(front, tail);
    UpperRemoveAppend(mid, back);
  }

  /** Whitespace is not a word character: strip() removes only what re.sub("\\W", "", .) would delete anyway. */
  lemma StripThenRemoveNonWord(s: string)
    ensures RemoveNonWord(Upper(Strip(s))) == RemoveNonWord(Upper(s))
  {
    var front, back := StripParts(s);
    SpacesVanish(front);
    SpacesVanish(back);
    UpperRemoveIgnoresPadding(front, Strip(s), back);
  }

  /** No part of a split contains the separator. */
  lemma {:induction false} SplitPartsLackSeparator(s: string, sep: char)
    ensures forall k, i :: 0 <= k < |Split(s, sep)| && 0 <= i < |Split(s, sep)[k]| ==> Split(s, sep)[k][i] != sep
  {
    if s != [] {
      SplitPartsLackSeparator(s[1..], sep);
    }
  }

  /** Joining the parts of a split with the separator gives back the string. */
  lemma {:induction false} JoinSplit(s: string, sep: char)
    ensures JoinWith(Split(s, sep), sep) == s
  {
    if s != [] {
      var rest := Split(s[1..], sep);
      JoinSplit(s[1..], sep);
      if s[0] == sep {
        assert Split(s, sep)[1..] == rest;
      } else {
        var parts := Split(s, sep);
        assert parts[0] == [s[0]] + rest[0];
        if |rest| == 1 {
          assert JoinWith(parts, sep) == parts[0];
        } else {
          assert parts[1..] == rest[1..];
          assert JoinWith(rest, sep) == rest[0] + [sep] + JoinWith(rest[1..], sep);
        }
      }
    }
  }

  /**
   * The last part of a split is the text after the last separator: the whole
   * string when there is no separator, otherwise a suffix preceded by one.
   */
  lemma {:induction false} SplitLast(s: string, sep: char)
    ensures var parts := Split(s, sep); var last := parts[|parts| - 1];
      |last| <= |s| && last == s[|s| - |last|..] &&
      if |parts| == 1 then last == s else |last| < |s| && s[|s| - |last| - 1] == sep
  {
    if s != [] {
      var t := s[1..];
      var rest := Split(t, sep);
      SplitLast(t, sep);
      var lastRest := rest[|rest| - 1];
      if s[0] == sep {
        assert Split(s, sep)[|Split(s, sep)| - 1] == lastRest;
      } else if |rest| == 1 {
        assert Split(s, sep) == [[s[0]] + rest[0]];
        assert [s[0]] + t == s;
      } else {
        assert Split(s, sep)[|Split(s, sep)| - 1] == lastRest;
      }
    }
  }

  /** Taking n characters after dropping m is the slice [m:m+n]. */
  lemma HeadOfTail(s: string, m: nat, n: nat)
    ensures Head(Tail(s, m), n) == Slice(s, m, m + n)
  {
  }

  /** Dropping m characters, then n more, drops m + n. */
  lemma TailOfTail(s: string, m: nat, n: nat)
    ensures Tail(Tail(s, m), n) == Tail(s, m + n)
  {
  }

  /** A string without lower-case letters is its own upper case. */
  lemma UpperOfUpperCase(s: string)
    requires forall i :: 0 <= i < |s| ==> !IsLowerLetter(s[i])
    ensures Upper(s) == s
  {
  }

  /** Deleting characters cannot introduce a lower-case letter. */
  lemma {:induction false} RemoveNonWordKeepsUpperCase(s: string)
    requires forall i :: 0 <= i < |s| ==> !IsLowerLetter(s[i])
    ensures forall i :: 0 <= i < |RemoveNonWord(s)| ==> !IsLowerLetter(RemoveNonWord(s)[i])
  {
    if s != [] {
      RemoveNonWordKeepsUpperCase(s[1..]);
    }
  }
}
