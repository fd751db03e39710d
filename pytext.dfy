/**
 * The two Python string operations the display-name fallback uses: `str.replace`
 * with one-character arguments and `str.title`, both over ASCII text.
 */
module PyText {

  /** A character with an upper- and a lower-case form (ASCII letters). */
  predicate IsCased(c: char)
  {
    'a' <= c <= 'z' || 'A' <= c <= 'Z'
  }

  function Upper(c: char): (u: char)
    ensures IsCased(u) == IsCased(c)
    ensures !IsCased(c) ==> u == c
    ensures !('a' <= u <= 'z')
  {
    if 'a' <= c <= 'z' then (c as int - 32) as char else c
  }

  function Lower(c: char): (l: char)
    ensures IsCased(l) == IsCased(c)
    ensures !IsCased(c) ==> l == c
    ensures !('A' <= l <= 'Z')
  {
    if 'A' <= c <= 'Z' then (c as int + 32) as char else c
  }

  /** `s.replace(from, to)` for single characters: every occurrence is replaced, nothing else moves. */
  function Replace(s: string, from: char, to: char): (r: string)
    ensures |r| == |s|
    ensures forall i :: 0 <= i < |s| ==> r[i] == if s[i] == from then to else s[i]
  {
    if s == [] then []
    else [if s[0] == from then to else s[0]] + Replace(s[1..], from, to)
  }

  /** What `title` does to the character at position i, looking only at that character and its predecessor. */
  function TitleAt(s: string, i: nat): char
    requires i < |s|
  {
    if i > 0 && IsCased(s[i - 1]) then Lower(s[i]) else Upper(s[i])
  }

  /**
   * `s.title()` as CPython computes it: one pass that lower-cases a character whose
   * predecessor was cased and title-cases (for ASCII, upper-cases) any other.
   * `previousCased` is the scanner's flag; past the first position the pass agrees
   * with the local rule `TitleAt`.
   */
  function TitleFrom(s: string, previousCased: bool): (t: string)
    ensures |t| == |s|
    ensures s != [] ==> t[0] == if previousCased then Lower(s[0]) else Upper(s[0])
    ensures forall i :: 0 < i < |s| ==> t[i] == TitleAt(s, i)
  {
    if s == [] then []
    else [if previousCased then Lower(s[0]) else Upper(s[0])] + TitleFrom(s[1..], IsCased(s[0]))
  }

  /** `title` keeps the length and acts position by position as `TitleAt` says. */
  function Title(s: string): (t: string)
    ensures |t| == |s|
    ensures forall i :: 0 <= i < |s| ==> t[i] == TitleAt(s, i)
  {
    TitleFrom(s, false)
  }

  /** Applying `title` twice gives what applying it once gives. */
  lemma TitleIdempotent(s: string)
    ensures Title(Title(s)) == Title(s)
  {
    var t := Title(s);
    forall i | 0 <= i < |s|
      ensures Title(t)[i] == t[i]
    {
      if i > 0 {
        assert IsCased(t[i - 1]) == IsCased(s[i - 1]);
      }
    }
  }

  /** `title` leaves the characters without case where they are: it never adds or removes one. */
  lemma TitleKeepsUncased(s: string, c: char)
    requires !IsCased(c)
    ensures c in Title(s) <==> c in s
  {
    if c in s {
      var i :| 0 <= i < |s| && s[i] == c;
      assert Title(s)[i] == c;
    }
    if c in Title(s) {
      var i :| 0 <= i < |Title(s)| && Title(s)[i] == c;
      assert s[i] == c;
    }
  }
}
