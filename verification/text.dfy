/**
 * String operations the source uses through the JavaScript standard library:
 * `String.prototype.trim`, the `\s` regular-expression class, `startsWith`,
 * `replace` with a string pattern, `toLowerCase` and case-insensitive
 * search, plus the hexadecimal character class of an ObjectId.
 */
module Text {
  import opened Base

  /**
   * The characters ECMAScript counts as WhiteSpace or LineTerminator. The
   * `\s` class and `String.prototype.trim` both use exactly this set.
   */
  const WhiteSpace: set<char> :=
    {'\t', '\n', '\U{B}', '\U{C}', '\r', ' ', '\U{A0}', '\U{1680}',
     '\U{2000}', '\U{2001}', '\U{2002}', '\U{2003}', '\U{2004}', '\U{2005}',
     '\U{2006}', '\U{2007}', '\U{2008}', '\U{2009}', '\U{200A}',
     '\U{2028}', '\U{2029}', '\U{202F}', '\U{205F}', '\U{3000}', '\U{FEFF}'}

  predicate IsSpace(c: char) {
    c in WhiteSpace
  }

  predicate AllSpace(s: string) {
    forall i :: 0 <= i < |s| ==> IsSpace(s[i])
  }

  /** The first position at or after `k` that is not white space, or `|s|`. */
  function SkipSpace(s: string, k: nat): (n: nat)
    requires k <= |s|
    ensures k <= n <= |s|
    ensures forall i :: k <= i < n ==> IsSpace(s[i])
    ensures n < |s| ==> !IsSpace(s[n])
    decreases |s| - k
  {
    if k == |s| || !IsSpace(s[k]) then k else SkipSpace(s, k + 1)
  }

  /** The position after the last character of `s[lo..hi]` that is not white space, or `lo`. */
  function SkipSpaceBack(s: string, lo: nat, hi: nat): (n: nat)
    requires lo <= hi <= |s|
    ensures lo <= n <= hi
    ensures forall i :: n <= i < hi ==> IsSpace(s[i])
    ensures n > lo ==> !IsSpace(s[n - 1])
    decreases hi - lo
  {
    if hi == lo || !IsSpace(s[hi - 1]) then hi else SkipSpaceBack(s, lo, hi - 1)
  }

  /** Length of the maximal run of white space at the front of `s`. */
  function LeadingSpace(s: string): (n: nat)
    ensures n <= |s|
    ensures forall i :: 0 <= i < n ==> IsSpace(s[i])
    ensures n < |s| ==> !IsSpace(s[n])
  {
    SkipSpace(s, 0)
  }

  /**
   * `String.prototype.trim`: the longest infix of `s` that neither starts nor
   * ends with white space, found by dropping the white space at both ends.
   */
  function Trim(s: string): (r: string)
    ensures |r| <= |s|
    ensures r == [] <==> AllSpace(s)
    ensures r != [] ==> !IsSpace(r[0]) && !IsSpace(r[|r| - 1])
    ensures LeadingSpace(s) + |r| <= |s|
    ensures r == s[LeadingSpace(s)..LeadingSpace(s) + |r|]
    ensures forall i :: LeadingSpace(s) + |r| <= i < |s| ==> IsSpace(s[i])
  {
    var lo := LeadingSpace(s);
    var hi := SkipSpaceBack(s, lo, |s|);
    assert lo == |s| ==> AllSpace(s);
    s[lo..hi]
  }

  /** A string with no white space at either end is its own trim. */
  lemma {:induction false} TrimOfTrimmed(s: string)
    requires s != [] ==> !IsSpace(s[0]) && !IsSpace(s[|s| - 1])
    ensures Trim(s) == s
  {
    assert LeadingSpace(s) == 0;
    assert SkipSpaceBack(s, 0, |s|) == |s|;
  }

  /** Trimming twice is trimming once. */
  lemma TrimIdempotent(s: string)
    ensures Trim(Trim(s)) == Trim(s)
  {
    TrimOfTrimmed(Trim(s));
  }

  /** `String.prototype.startsWith`. */
  predicate StartsWith(s: string, prefix: string) {
    |prefix| <= |s| && s[..|prefix|] == prefix
  }

  /** A string that starts with `prefix` agrees with it position by position. */
  lemma StartsWithAt(s: string, prefix: string, k: nat)
    ensures StartsWith(s, prefix) && k < |prefix| ==> s[k] == prefix[k]
  {
    if StartsWith(s, prefix) && k < |prefix| {
      assert s[k] == s[..|prefix|][k];
    }
  }

  /** `p` occurs in `s` at position `k`. */
  predicate MatchesAt(s: string, p: string, k: nat) {
    k + |p| <= |s| && s[k..k + |p|] == p
  }

  /** The first position at or after `k` where `p` occurs in `s`. */
  function IndexFrom(s: string, p: string, k: nat): (r: Option<nat>)
    requires k <= |s|
    ensures r.Some? ==> k <= r.value && MatchesAt(s, p, r.value)
    ensures r.Some? ==> forall j :: k <= j < r.value ==> !MatchesAt(s, p, j)
    ensures r.None? ==> forall j :: k <= j <= |s| ==> !MatchesAt(s, p, j)
    decreases |s| - k
  {
    if MatchesAt(s, p, k) then Some(k)
    else if k == |s| then None
    else IndexFrom(s, p, k + 1)
  }

  /** `String.prototype.indexOf`: the first position where `p` occurs in `s`. */
  function IndexOf(s: string, p: string): (r: Option<nat>)
    ensures r.Some? ==> r.value + |p| <= |s| && s[r.value..r.value + |p|] == p
    ensures r.Some? ==> forall k :: 0 <= k < r.value ==> !MatchesAt(s, p, k)
    ensures r.None? ==> forall k :: 0 <= k <= |s| ==> !MatchesAt(s, p, k)
  {
    IndexFrom(s, p, 0)
  }

  /**
   * `s.replace(p, rep)` with a string pattern: only the FIRST occurrence of
   * `p` is replaced; without an occurrence `s` is returned unchanged.
   */
  function ReplaceFirst(s: string, p: string, rep: string): (r: string)
    ensures IndexOf(s, p).None? ==> r == s
    ensures IndexOf(s, p).Some? ==>
      var k := IndexOf(s, p).value;
      |r| == |s| - |p| + |rep| && r[..k] == s[..k] && r[k..k + |rep|] == rep && r[k + |rep|..] == s[k + |p|..]
  {
    match IndexOf(s, p)
    case None => s
    case Some(k) =>
      var r := s[..k] + rep + s[k + |p|..];
      assert r[..k] == s[..k];
      assert r[k..k + |rep|] == rep;
      assert r[k + |rep|..] == s[k + |p|..];
      r
  }

  /** Removing a prefix the string starts with is dropping its first characters. */
  lemma ReplacePrefix(s: string, p: string)
    requires StartsWith(s, p)
    ensures ReplaceFirst(s, p, "") == s[|p|..]
  {
    assert MatchesAt(s, p, 0) by {
      assert s[0..|p|] == s[..|p|];
    }
    assert IndexFrom(s, p, 0) == Some(0);
    assert IndexOf(s, p) == Some(0);
    var r := ReplaceFirst(s, p, "");
    assert r[0..] == s[0 + |p|..];
    assert r[0..] == r;
  }

  /** ASCII case mapping; characters outside `A`-`Z` are left as they are. */
  function LowerChar(c: char): char {
    if 'A' <= c <= 'Z' then (c as int + 32) as char else c
  }

  /** `toLowerCase`, restricted to the ASCII letters. */
  function Lower(s: string): (r: string)
    ensures |r| == |s|
    ensures forall i :: 0 <= i < |s| ==> r[i] == LowerChar(s[i])
  {
    if |s| == 0 then [] else [LowerChar(s[0])] + Lower(s[1..])
  }

  /** `needle`, given in lower case, occurs in `s` at position `k` once the letters of `s` are lower-cased. */
  predicate MatchesAtIgnoringCase(s: string, needle: string, k: nat) {
    k + |needle| <= |s| && forall j :: 0 <= j < |needle| ==> LowerChar(s[k + j]) == needle[j]
  }

  /** A case-insensitive regular-expression search for the literal `needle`. */
  predicate ContainsIgnoringCase(s: string, needle: string) {
    exists k :: 0 <= k <= |s| - |needle| && MatchesAtIgnoringCase(s, needle, k)
  }

  /** The search agrees with looking for `needle` in the lower-cased text. */
  lemma ContainsIgnoringCaseIsIndexOfLower(s: string, needle: string)
    ensures ContainsIgnoringCase(s, needle) <==> IndexOf(Lower(s), needle).Some?
  {
    var low := Lower(s);
    forall k | 0 <= k <= |s| - |needle|
      ensures MatchesAtIgnoringCase(s, needle, k) <==> MatchesAt(low, needle, k)
    {
      if MatchesAtIgnoringCase(s, needle, k) {
        assert forall j :: 0 <= j < |needle| ==> low[k..k + |needle|][j] == needle[j];
      }
      if MatchesAt(low, needle, k) {
        forall j | 0 <= j < |needle| ensures LowerChar(s[k + j]) == needle[j] {
          assert low[k..k + |needle|][j] == needle[j];
        }
      }
    }
    if IndexOf(low, needle).Some? {
      assert MatchesAtIgnoringCase(s, needle, IndexOf(low, needle).value);
    }
  }

  /** An occurrence of a needle that has no upper-case letter is found by the case-insensitive search. */
  lemma OccurrenceFound(s: string, needle: string, k: nat)
    requires k + |needle| <= |s| && s[k..k + |needle|] == needle
    requires forall j :: 0 <= j < |needle| ==> !('A' <= needle[j] <= 'Z')
    ensures ContainsIgnoringCase(s, needle)
  {
    forall j | 0 <= j < |needle| ensures LowerChar(s[k + j]) == needle[j] {
      assert s[k..k + |needle|][j] == needle[j];
    }
    assert MatchesAtIgnoringCase(s, needle, k);
  }

  /** A lower-case letter of the needle whose two cases are both missing from `s` rules the match out. */
  lemma MissingLetter(s: string, needle: string, c: char)
    requires 'a' <= c <= 'z' && c in needle
    requires c !in s && (c as int - 32) as char !in s
    ensures !ContainsIgnoringCase(s, needle)
  {
    var j :| 0 <= j < |needle| && needle[j] == c;
    assert forall i :: 0 <= i < |s| ==> LowerChar(s[i]) != c;
    forall k | 0 <= k <= |s| - |needle| ensures !MatchesAtIgnoringCase(s, needle, k) {
      assert LowerChar(s[k + j]) != needle[j];
    }
  }

  predicate IsHexDigit(c: char) {
    '0' <= c <= '9' || 'a' <= c <= 'f' || 'A' <= c <= 'F'
  }

  /** `s` matches `^[0-9a-fA-F]{24}$`. */
  predicate IsHex24(s: string) {
    |s| == 24 && forall i :: 0 <= i < |s| ==> IsHexDigit(s[i])
  }
}
