/**
 * The hand-written parts of the note schema in `src/schema/note.ts`: the
 * content, date and tags validators, the pre-save sanitisation of content
 * and tags, and the `toJSON` transform. Clock readings are the parameter
 * `now`, in integer milliseconds.
 */
module NoteSchema {
  import opened Base
  import opened Text
  import Validators

  const MaxContent := 2000
  const DayMs := 24 * 60 * 60 * 1000
  const MaxTags := 10
  const MaxTagLength := 30

  // ----- Validators -----------------------------------------------------------------

  /** `validateContent`: non-empty, 1 to 2000 characters, not white space only. */
  function ValidateContent(content: string): (ok: bool)
    ensures ok <==> 1 <= |content| <= MaxContent && exists i :: 0 <= i < |content| && !IsSpace(content[i])
  {
    if content == [] then false
    else if |content| < 1 || |content| > MaxContent then false
    else if |Trim(content)| == 0 then false
    else true
  }

  /** The schema's content validator and the reusable `isValidContent` accept the same strings. */
  lemma ContentValidatorsAgree(content: string)
    ensures ValidateContent(content) == Validators.IsValidContent(content)
  {
  }

  /** A JavaScript `Date`: a time value in milliseconds, or an invalid date. */
  datatype Instant = At(ms: int) | InvalidDate

  /** `validateDate`: a valid date no more than a year ahead of `now` and no more than 50 years before it. */
  function ValidateDate(date: Instant, now: int): (ok: bool)
    ensures ok ==> date.At?
    ensures date.At? ==> (ok <==> now - 50 * 365 * DayMs <= date.ms <= now + 365 * DayMs)
  {
    match date
    case InvalidDate => false
    case At(t) =>
      var oneYearFromNow := now + 365 * DayMs;
      var fiftyYearsAgo := now - 50 * 365 * DayMs;
      if t > oneYearFromNow then false
      else if t < fiftyYearsAgo then false
      else true
  }

  /** The window moves with the clock: shifting the date and `now` alike never changes the answer. */
  lemma ValidateDateShift(t: int, now: int, d: int)
    ensures ValidateDate(At(t), now) == ValidateDate(At(t + d), now + d)
  {
  }

  /**
   * The window holds `now` and is closed at both ends: the instants exactly
   * one year ahead and exactly fifty 365-day years back are accepted, and
   * one millisecond further out on either side is not.
   */
  lemma ValidateDateWindow(now: int)
    ensures ValidateDate(At(now), now)
    ensures ValidateDate(At(now + 365 * DayMs), now) && !ValidateDate(At(now + 365 * DayMs + 1), now)
    ensures ValidateDate(At(now - 50 * 365 * DayMs), now) && !ValidateDate(At(now - 50 * 365 * DayMs - 1), now)
    ensures !ValidateDate(InvalidDate, now)
  {
  }

  /** What the tags validator demands of the list. */
  predicate TagsAccepted(tags: seq<string>) {
    && |tags| <= MaxTags
    && forall i :: 0 <= i < |tags| ==> |tags[i]| <= MaxTagLength && Trim(tags[i]) != []
  }

  /** The tags validator: the count, then each tag in turn, stopping at the first bad one. */
  method ValidateTags(tags: seq<string>) returns (ok: bool)
    ensures ok <==> TagsAccepted(tags)
  {
    if |tags| > MaxTags {
      return false;
    }
    var i := 0;
    while i < |tags|
      invariant 0 <= i <= |tags|
      invariant forall j :: 0 <= j < i ==> |tags[j]| <= MaxTagLength && Trim(tags[j]) != []
    {
      if |tags[i]| > MaxTagLength {
        return false;
      }
      if |Trim(tags[i])| == 0 {
        return false;
      }
      i := i + 1;
    }
    return true;
  }

  // ----- Content sanitisation -------------------------------------------------------

  /** Every white-space character of `s` is the plain blank. */
  predicate OnlyBlanks(s: string) {
    forall i :: 0 <= i < |s| && IsSpace(s[i]) ==> s[i] == ' '
  }

  /** No two neighbouring characters of `s` are both white space. */
  predicate NoAdjacentSpace(s: string) {
    forall i :: 0 <= i < |s| - 1 ==> !(IsSpace(s[i]) && IsSpace(s[i + 1]))
  }

  /** The shape of sanitised content. */
  predicate Sanitized(s: string) {
    && (s != [] ==> !IsSpace(s[0]) && !IsSpace(s[|s| - 1]))
    && NoAdjacentSpace(s)
    && OnlyBlanks(s)
    && '\n' !in s
  }

  /** The characters of `s` that are not white space, in order. */
  function NonSpace(s: string): (r: string)
    ensures |r| <= |s|
  {
    if |s| == 0 then [] else (if IsSpace(s[0]) then [] else [s[0]]) + NonSpace(s[1..])
  }

  /** The text of a concatenation is the text of its parts. */
  lemma {:induction false} NonSpaceAppend(a: string, b: string)
    ensures NonSpace(a + b) == NonSpace(a) + NonSpace(b)
    decreases |a|
  {
    if |a| == 0 {
      assert a + b == b;
    } else {
      assert (a + b)[1..] == a[1..] + b;
      NonSpaceAppend(a[1..], b);
    }
  }

  /** White space has no text. */
  lemma {:induction false} NonSpaceOfSpace(s: string)
    requires AllSpace(s)
    ensures NonSpace(s) == []
    decreases |s|
  {
    if |s| > 0 {
      NonSpaceOfSpace(s[1..]);
    }
  }

  /** Text padded with white space on both sides has the text's own characters. */
  lemma NonSpaceOfPadded(x: string, t: string, y: string)
    requires AllSpace(x) && AllSpace(y)
    ensures NonSpace(x + t + y) == NonSpace(t)
  {
    NonSpaceAppend(x, t);
    NonSpaceAppend(x + t, y);
    NonSpaceOfSpace(x);
    NonSpaceOfSpace(y);
  }

  /** A string is its three consecutive slices. */
  lemma SplitThree(s: string, lo: nat, hi: nat)
    requires lo <= hi <= |s|
    ensures s == s[..lo] + s[lo..hi] + s[hi..]
  {
  }

  /** Positions of white space make white-space slices. */
  lemma SpaceSlices(s: string, lo: nat, hi: nat)
    requires lo <= hi <= |s|
    requires forall i :: 0 <= i < lo ==> IsSpace(s[i])
    requires forall i :: hi <= i < |s| ==> IsSpace(s[i])
    ensures AllSpace(s[..lo]) && AllSpace(s[hi..])
  {
    assert forall i :: 0 <= i < lo ==> s[..lo][i] == s[i];
    assert forall i :: 0 <= i < |s| - hi ==> s[hi..][i] == s[hi + i];
  }

  /** Trimming removes white space only. */
  lemma TrimKeepsText(s: string)
    ensures NonSpace(Trim(s)) == NonSpace(s)
  {
    var lo := LeadingSpace(s);
    var hi := lo + |Trim(s)|;
    SplitThree(s, lo, hi);
    SpaceSlices(s, lo, hi);
    NonSpaceOfPadded(s[..lo], s[lo..hi], s[hi..]);
  }

  /**
   * `s.replace(/\s+/g, ' ')`: every maximal run of white space becomes one
   * blank, and every other character is kept, in order.
   */
  function CollapseSpace(s: string): (r: string)
    ensures |r| <= |s|
    ensures |r| == 0 <==> |s| == 0
    ensures |r| > 0 ==> (IsSpace(r[0]) <==> IsSpace(s[0]))
    ensures OnlyBlanks(r)
    ensures NoAdjacentSpace(r)
    decreases |s|
  {
    if |s| == 0 then []
    else if IsSpace(s[0]) then
      var rest := s[LeadingSpace(s)..];
      var tail := CollapseSpace(rest);
      assert tail != [] ==> !IsSpace(tail[0]);
      assert forall i :: 1 <= i < |tail| + 1 ==> ([' '] + tail)[i] == tail[i - 1];
      [' '] + tail
    else
      var tail := CollapseSpace(s[1..]);
      assert forall i :: 1 <= i < |tail| + 1 ==> ([s[0]] + tail)[i] == tail[i - 1];
      [s[0]] + tail
  }

  /** Collapsing keeps every character that is not white space, in order. */
  lemma {:induction false} CollapseSpaceKeepsText(s: string)
    ensures NonSpace(CollapseSpace(s)) == NonSpace(s)
    decreases |s|
  {
    if |s| > 0 {
      if IsSpace(s[0]) {
        var n := LeadingSpace(s);
        CollapseSpaceKeepsText(s[n..]);
        assert s == s[..n] + s[n..];
        NonSpaceAppend(s[..n], s[n..]);
        NonSpaceOfSpace(s[..n]);
        CollapseAtSpace(s);
        assert ([' '] + CollapseSpace(s[n..]))[1..] == CollapseSpace(s[n..]);
      } else {
        CollapseSpaceKeepsText(s[1..]);
        CollapseAtText(s);
        assert ([s[0]] + CollapseSpace(s[1..]))[1..] == CollapseSpace(s[1..]);
      }
    }
  }

  /** The first step of collapsing a string that starts with white space. */
  lemma CollapseAtSpace(s: string)
    requires s != [] && IsSpace(s[0])
    ensures CollapseSpace(s) == [' '] + CollapseSpace(s[LeadingSpace(s)..])
  {
  }

  /** The first step of collapsing a string that starts with another character. */
  lemma CollapseAtText(s: string)
    requires s != [] && !IsSpace(s[0])
    ensures CollapseSpace(s) == [s[0]] + CollapseSpace(s[1..])
  {
  }

  /** A leading run that ends inside `a` is the leading run of anything `a` starts. */
  lemma LeadingSpaceOfPrefix(a: string, t: string)
    requires LeadingSpace(a) < |a|
    ensures LeadingSpace(a + t) == LeadingSpace(a)
  {
    assert forall i :: 0 <= i < |a| ==> (a + t)[i] == a[i];
  }

  /** A run of white space followed by text that starts with none is the whole leading run. */
  lemma LeadingSpaceOfRun(w: string, b: string)
    requires AllSpace(w)
    requires b != [] ==> !IsSpace(b[0])
    ensures LeadingSpace(w + b) == |w|
  {
    assert forall i :: 0 <= i < |w| ==> (w + b)[i] == w[i];
    assert |w| < |w + b| ==> (w + b)[|w|] == b[0];
  }

  /** The run between `a` and `b` when `a` is empty. */
  lemma SplitsAtRun(w: string, b: string)
    requires w != [] && AllSpace(w)
    requires b != [] ==> !IsSpace(b[0])
    ensures CollapseSpace(w + b) == " " + CollapseSpace(b)
  {
    LeadingSpaceOfRun(w, b);
    assert (w + b)[|w|..] == b;
    CollapseAtSpace(w + b);
  }

  /** A string that ends in a character other than white space has its leading run end inside it. */
  lemma LeadingRunEndsInside(a: string)
    requires a != [] && !IsSpace(a[|a| - 1])
    ensures LeadingSpace(a) < |a|
  {
  }

  /** Every non-empty suffix ends where the whole string does. */
  lemma SuffixKeepsLast(a: string, k: nat)
    requires k <= |a| && (a != [] ==> !IsSpace(a[|a| - 1]))
    ensures a[k..] != [] ==> !IsSpace(a[k..][|a[k..]| - 1])
  {
  }

  /** Concatenation regroups around the blank. */
  lemma PrependAcrossBlank(x: string, p: string, q: string)
    ensures x + (p + " " + q) == x + p + " " + q
  {
  }

  /** The split when `a` starts with white space: past its leading run, by induction. */
  lemma {:induction false} SplitsPastSpace(a: string, w: string, b: string)
    requires a != [] && IsSpace(a[0]) && !IsSpace(a[|a| - 1])
    requires w != [] && AllSpace(w)
    requires b != [] ==> !IsSpace(b[0])
    ensures CollapseSpace(a + w + b) == CollapseSpace(a) + " " + CollapseSpace(b)
    decreases |a|, 0
  {
    var n := LeadingSpace(a);
    LeadingRunEndsInside(a);
    SuffixKeepsLast(a, n);
    CollapseSpaceSplits(a[n..], w, b);
    SpaceStep(a, w, b, n);
  }

  /** A leading run of white space, in front of a split that holds. */
  lemma SpaceStep(a: string, w: string, b: string, n: nat)
    requires n == LeadingSpace(a) && 0 < n < |a|
    requires CollapseSpace(a[n..] + w + b) == CollapseSpace(a[n..]) + " " + CollapseSpace(b)
    ensures CollapseSpace(a + w + b) == CollapseSpace(a) + " " + CollapseSpace(b)
  {
    var s := a + w + b;
    var p, q := CollapseSpace(a[n..]), CollapseSpace(b);
    assert s == a + (w + b);
    LeadingSpaceOfPrefix(a, w + b);
    assert s[n..] == a[n..] + w + b;
    CollapseAtSpace(s);
    assert CollapseSpace(s) == [' '] + (p + " " + q);
    CollapseAtSpace(a);
    PrependAcrossBlank([' '], p, q);
  }

  /** The split when `a` starts with another character: past that character, by induction. */
  lemma {:induction false} SplitsPastText(a: string, w: string, b: string)
    requires a != [] && !IsSpace(a[0]) && !IsSpace(a[|a| - 1])
    requires w != [] && AllSpace(w)
    requires b != [] ==> !IsSpace(b[0])
    ensures CollapseSpace(a + w + b) == CollapseSpace(a) + " " + CollapseSpace(b)
    decreases |a|, 0
  {
    SuffixKeepsLast(a, 1);
    CollapseSpaceSplits(a[1..], w, b);
    TextStep(a[0], a[1..] + w + b, a[1..], b);
    FirstAndRest(a, w, b);
  }

  /** A non-empty string is its first character and the rest, also in front of `w` and `b`. */
  lemma FirstAndRest(a: string, w: string, b: string)
    requires a != []
    ensures a == [a[0]] + a[1..]
    ensures a + w + b == [a[0]] + (a[1..] + w + b)
  {
  }

  /** One character that is not white space, in front of text `u` whose split holds. */
  lemma TextStep(c: char, u: string, t: string, b: string)
    requires !IsSpace(c)
    requires CollapseSpace(u) == CollapseSpace(t) + " " + CollapseSpace(b)
    ensures CollapseSpace([c] + u) == CollapseSpace([c] + t) + " " + CollapseSpace(b)
  {
    assert ([c] + u)[0] == c && ([c] + u)[1..] == u;
    CollapseAtText([c] + u);
    assert ([c] + t)[0] == c && ([c] + t)[1..] == t;
    CollapseAtText([c] + t);
    PrependAcrossBlank([c], CollapseSpace(t), CollapseSpace(b));
  }

  /**
   * A maximal run `w` of white space between `a` and `b` becomes exactly
   * one blank, and the text on either side is collapsed on its own.
   */
  lemma {:induction false} CollapseSpaceSplits(a: string, w: string, b: string)
    requires a != [] ==> !IsSpace(a[|a| - 1])
    requires w != [] && AllSpace(w)
    requires b != [] ==> !IsSpace(b[0])
    ensures CollapseSpace(a + w + b) == CollapseSpace(a) + " " + CollapseSpace(b)
    decreases |a|, 1
  {
    if |a| == 0 {
      assert a + w + b == w + b;
      SplitsAtRun(w, b);
    } else if IsSpace(a[0]) {
      SplitsPastSpace(a, w, b);
    } else {
      SplitsPastText(a, w, b);
    }
  }

  /** The last position of a line feed in `s`, if any. */
  function LastNewline(s: string): (r: Option<nat>)
    ensures r.Some? ==> r.value < |s| && s[r.value] == '\n'
    ensures r.None? ==> '\n' !in s
  {
    if |s| == 0 then None
    else if s[|s| - 1] == '\n' then Some(|s| - 1)
    else
      var r := LastNewline(s[..|s| - 1]);
      assert s == s[..|s| - 1] + [s[|s| - 1]];
      r
  }

  /**
   * The length of the match of `\n\s*\n` at the front of `s`: the greedy
   * `\s*` backs off to the last line feed of the white-space run after the
   * first line feed.
   */
  function BlankLineMatch(s: string): (r: Option<nat>)
    ensures r.Some? ==> 2 <= r.value <= |s| && s[0] == '\n' && s[r.value - 1] == '\n'
    ensures r.Some? ==> forall i :: 0 <= i < r.value ==> IsSpace(s[i])
  {
    if |s| == 0 || s[0] != '\n' then None
    else
      var run := s[1..][..LeadingSpace(s[1..])];
      match LastNewline(run)
      case None => None
      case Some(j) =>
        assert IsSpace('\n');
        assert forall i :: 1 <= i < j + 2 ==> s[i] == run[i - 1];
        Some(j + 2)
  }

  /**
   * `s.replace(/\n\s*\n/g, '\n')`, scanning left to right as a global
   * replace does: only white space is removed, and nothing is added.
   */
  function CollapseBlankLines(s: string): (r: string)
    ensures |r| <= |s|
    ensures r == [] <==> s == []
    decreases |s|
  {
    if |s| == 0 then []
    else match BlankLineMatch(s)
      case Some(k) => "\n" + CollapseBlankLines(s[k..])
      case None => [s[0]] + CollapseBlankLines(s[1..])
  }

  /** The blank-line replace removes white space only. */
  lemma {:induction false} CollapseBlankLinesKeepsText(s: string)
    ensures NonSpace(CollapseBlankLines(s)) == NonSpace(s)
    decreases |s|
  {
    if |s| > 0 {
      match BlankLineMatch(s)
      case Some(k) =>
        var tail := CollapseBlankLines(s[k..]);
        CollapseBlankLinesKeepsText(s[k..]);
        assert s == s[..k] + s[k..];
        NonSpaceAppend(s[..k], s[k..]);
        NonSpaceOfSpace(s[..k]);
        assert IsSpace('\n') && ("\n" + tail)[1..] == tail;
      case None =>
        var tail := CollapseBlankLines(s[1..]);
        CollapseBlankLinesKeepsText(s[1..]);
        assert ([s[0]] + tail)[1..] == tail;
    }
  }

  /** A string without line feeds has nothing for the blank-line replace to match. */
  lemma {:induction false} NoNewlineNoBlankLines(s: string)
    requires '\n' !in s
    ensures CollapseBlankLines(s) == s
    decreases |s|
  {
    if |s| > 0 {
      assert s[0] != '\n';
      assert '\n' !in s[1..] by {
        assert forall i :: 0 <= i < |s[1..]| ==> s[1..][i] == s[i + 1];
      }
      NoNewlineNoBlankLines(s[1..]);
      assert s == [s[0]] + s[1..];
    }
  }

  /** Collapsing white space leaves no line feed behind. */
  lemma CollapsedHasNoNewline(s: string)
    ensures '\n' !in CollapseSpace(s)
  {
    var r := CollapseSpace(s);
    assert IsSpace('\n');
    assert forall i :: 0 <= i < |r| ==> r[i] != '\n';
  }

  /**
   * The pre-save middleware's treatment of `content`; empty content is left
   * alone. Only white space is ever changed.
   */
  function Sanitize(content: string): (r: string)
    ensures NonSpace(r) == NonSpace(content)
    ensures |r| <= |content|
  {
    if content == [] then content
    else
      var collapsed := CollapseBlankLines(CollapseSpace(content));
      CollapseSpaceKeepsText(content);
      CollapseBlankLinesKeepsText(CollapseSpace(content));
      TrimKeepsText(collapsed);
      Trim(collapsed)
  }

  /** The second replace of the middleware never fires: the first one already removed every line feed. */
  lemma BlankLineReplaceIsDead(content: string)
    ensures CollapseBlankLines(CollapseSpace(content)) == CollapseSpace(content)
    ensures Sanitize(content) == Trim(CollapseSpace(content))
  {
    CollapsedHasNoNewline(content);
    NoNewlineNoBlankLines(CollapseSpace(content));
  }

  /** Any infix of a string keeps its inner shape. */
  lemma InfixKeepsShape(s: string, lo: nat, hi: nat)
    requires lo <= hi <= |s|
    requires NoAdjacentSpace(s) && OnlyBlanks(s) && '\n' !in s
    ensures NoAdjacentSpace(s[lo..hi]) && OnlyBlanks(s[lo..hi]) && '\n' !in s[lo..hi]
  {
    var t := s[lo..hi];
    assert forall i :: 0 <= i < |t| ==> t[i] == s[lo + i];
  }

  /**
   * Sanitised content has no white space at either end, no two white-space
   * characters in a row, no white space other than the blank, and no line feed.
   */
  lemma SanitizeShape(content: string)
    ensures Sanitized(Sanitize(content))
  {
    if content != [] {
      BlankLineReplaceIsDead(content);
      var c := CollapseSpace(content);
      CollapsedHasNoNewline(content);
      var t := Trim(c);
      InfixKeepsShape(c, LeadingSpace(c), LeadingSpace(c) + |t|);
    }
  }

  /** Content already in sanitised shape is unchanged by collapsing white space. */
  lemma {:induction false} CollapseKeepsSanitizedRuns(s: string)
    requires NoAdjacentSpace(s) && OnlyBlanks(s)
    ensures CollapseSpace(s) == s
    decreases |s|
  {
    if |s| > 0 {
      var rest := s[1..];
      assert NoAdjacentSpace(rest) && OnlyBlanks(rest) by {
        assert forall i :: 0 <= i < |rest| ==> rest[i] == s[i + 1];
      }
      CollapseKeepsSanitizedRuns(rest);
      if IsSpace(s[0]) {
        assert s[0] == ' ';
        assert LeadingSpace(s) == 1 by {
          if |s| > 1 {
            assert !IsSpace(s[1]);
            assert LeadingSpace(s[1..]) == 0;
          }
        }
      }
      assert s == [s[0]] + rest;
    }
  }

  /** Sanitising twice is sanitising once. */
  lemma SanitizeIdempotent(content: string)
    ensures Sanitize(Sanitize(content)) == Sanitize(content)
  {
    var r := Sanitize(content);
    SanitizeShape(content);
    if r != [] {
      CollapseKeepsSanitizedRuns(r);
      NoNewlineNoBlankLines(r);
      TrimOfTrimmed(r);
    }
  }

  // ----- Tag normalisation ----------------------------------------------------------

  /** No element occurs twice. */
  predicate Distinct<T(==)>(s: seq<T>) {
    forall i, j :: 0 <= i < j < |s| ==> s[i] != s[j]
  }

  /** The position of the first occurrence of `x` in `s`. */
  function FirstIndex<T(==)>(s: seq<T>, x: T): (k: nat)
    requires x in s
    ensures k < |s| && s[k] == x
    ensures forall j :: 0 <= j < k ==> s[j] != x
  {
    if s[0] == x then 0 else 1 + FirstIndex(s[1..], x)
  }

  /**
   * `[...new Set(s)]`: each element at its first occurrence, in order. Built
   * the way the set is filled, one element after the other.
   */
  function Dedup<T(==,!new)>(s: seq<T>): (r: seq<T>)
    ensures |r| <= |s|
    ensures forall x :: x in r <==> x in s
    ensures Distinct(r)
    decreases |s|
  {
    if |s| == 0 then []
    else
      var init := Dedup(s[..|s| - 1]);
      var x := s[|s| - 1];
      assert s == s[..|s| - 1] + [x];
      if x in init then init else init + [x]
  }

  /** The elements of `[...new Set(s)]` appear in the order of their first occurrence in `s`. */
  lemma {:induction false} DedupKeepsFirstOccurrenceOrder<T(!new)>(s: seq<T>)
    ensures forall i, j :: 0 <= i < j < |Dedup(s)| ==> FirstIndex(s, Dedup(s)[i]) < FirstIndex(s, Dedup(s)[j])
    decreases |s|
  {
    if |s| > 0 {
      var front := s[..|s| - 1];
      var x := s[|s| - 1];
      var init := Dedup(front);
      DedupKeepsFirstOccurrenceOrder(front);
      assert s == front + [x];
      // an element of the front keeps its first position in the whole sequence
      assert forall k :: 0 <= k < |front| ==> front[k] == s[k];
      forall y | y in front ensures FirstIndex(s, y) == FirstIndex(front, y) {
        var b := FirstIndex(front, y);
        assert s[b] == y;
      }
      if x !in init {
        assert FirstIndex(s, x) == |s| - 1;
      }
    }
  }

  /** One tag as the middleware stores it: trimmed, then lower-cased. */
  function NormalizeTag(tag: string): string {
    Lower(Trim(tag))
  }

  /** `tags.map(tag => tag.trim().toLowerCase())`. */
  function NormalizeEach(tags: seq<string>): (r: seq<string>)
    ensures |r| == |tags| && forall i :: 0 <= i < |tags| ==> r[i] == NormalizeTag(tags[i])
  {
    seq(|tags|, i requires 0 <= i < |tags| => NormalizeTag(tags[i]))
  }

  /** The normalised tags of the pre-save middleware. */
  function NormalizeTags(tags: seq<string>): (r: seq<string>)
    ensures |r| <= |tags|
    ensures Distinct(r)
    ensures forall i :: 0 <= i < |tags| ==> NormalizeTag(tags[i]) in r
    ensures forall t :: t in r ==> exists i :: 0 <= i < |tags| && t == NormalizeTag(tags[i])
  {
    var normalized := NormalizeEach(tags);
    var r := Dedup(normalized);
    assert forall i :: 0 <= i < |tags| ==> normalized[i] in r;
    assert forall t :: t in r ==> t in normalized;
    r
  }

  /** The stored tags keep the order in which their normalised forms first occur. */
  lemma NormalizeTagsKeepFirstOccurrenceOrder(tags: seq<string>)
    ensures var n := NormalizeEach(tags);
      var r := NormalizeTags(tags);
      forall i, j :: 0 <= i < j < |r| ==> FirstIndex(n, r[i]) < FirstIndex(n, r[j])
  {
    DedupKeepsFirstOccurrenceOrder(NormalizeEach(tags));
  }

  /** Every stored tag is trimmed and has no upper-case ASCII letter. */
  lemma NormalizedTagShape(tag: string)
    ensures var t := NormalizeTag(tag);
      && (t != [] ==> !IsSpace(t[0]) && !IsSpace(t[|t| - 1]))
      && forall i :: 0 <= i < |t| ==> !('A' <= t[i] <= 'Z')
  {
    var s := Trim(tag);
    var t := Lower(s);
    if t != [] {
      assert t[0] == LowerChar(s[0]);
      assert t[|t| - 1] == LowerChar(s[|s| - 1]);
    }
  }

  // ----- toJSON ---------------------------------------------------------------------

  /** A stored note as the transform receives it; `objectId` is `_id` already turned into a string. */
  datatype NoteDocument = NoteDocument(
    objectId: Option<string>,
    content: string,
    date: Instant,
    important: Option<bool>,
    createdAt: Option<int>,
    updatedAt: Option<int>)

  datatype NoteResponse = NoteResponse(
    id: string,
    content: string,
    date: Instant,
    important: bool,
    createdAt: Option<int>,
    updatedAt: Option<int>,
    timestamp: int)

  /** The `toJSON` transform; `now` stands for the `new Date()` of the last fallback. */
  function ToJson(doc: NoteDocument, now: int): (r: NoteResponse)
    ensures r.id == doc.objectId.GetOr("")
    ensures r.content == doc.content && r.date == doc.date
    ensures r.important <==> doc.important == Some(true)
    ensures r.createdAt == doc.createdAt && r.updatedAt == doc.updatedAt
    // the timestamp prefers the creation time, then the update time, then the clock
    ensures doc.createdAt.Some? ==> r.timestamp == doc.createdAt.value
    ensures doc.createdAt.None? && doc.updatedAt.Some? ==> r.timestamp == doc.updatedAt.value
    ensures doc.createdAt.None? && doc.updatedAt.None? ==> r.timestamp == now
  {
    var timestamp :=
      if doc.createdAt.Some? then doc.createdAt.value
      else if doc.updatedAt.Some? then doc.updatedAt.value
      else now;
    NoteResponse(doc.objectId.GetOr(""), doc.content, doc.date, doc.important.GetOr(false),
                 doc.createdAt, doc.updatedAt, timestamp)
  }
}
