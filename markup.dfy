/**
 * The mini-format of a chat message as the panel reads it: triple-backtick
 * code fences (`re.split(r'(```[\s\S]*?```)', s)`), bare URLs
 * (`re.finditer(r'(https?://[^\s]+)', line)`), and greedy word wrap.
 */
module Markup {
  import opened Wrappers
  import opened PyStr
  import opened Seqs

  const Fence := "```"

  // ---------------------------------------------------------------------------
  // Code fences

  /** The test the layout makes on each part: `part.startswith('```') and part.endswith('```')`. */
  predicate IsFencePart(part: string)
  {
    StartsWith(part, Fence) && EndsWith(part, Fence)
  }

  /** `part` has no occurrence of the fence at any position. */
  predicate NoFence(part: string)
  {
    forall j :: 0 <= j < |part| ==> !OccursAt(part, Fence, j)
  }

  /**
   * `re.split(r'(```[\s\S]*?```)', s)`: text and captured fenced regions
   * alternate, text first and last. A region runs from the leftmost fence to
   * the nearest fence after it (non-greedy).
   */
  function SplitFences(s: string): (parts: seq<string>)
    decreases |s|
    ensures |parts| % 2 == 1
  {
    match FindFrom(s, Fence, 0)
    case None => [s]
    case Some(p) =>
      match FindFrom(s, Fence, p + 3)
      case None => [s]
      case Some(q) => [s[..p], s[p..q + 3]] + SplitFences(s[q + 3..])
  }

  /** A captured region: at least two fences long, fenced at both ends, and no closing fence inside. */
  predicate IsRegion(part: string)
  {
    |part| >= 6 && IsFencePart(part)
    && forall j :: 3 <= j < |part| - 3 ==> !OccursAt(part, Fence, j)
  }

  lemma FirstSplitShape(s: string, p: nat, q: nat)
    requires FindFrom(s, Fence, 0) == Some(p) && FindFrom(s, Fence, p + 3) == Some(q)
    ensures NoFence(s[..p]) && IsRegion(s[p..q + 3])
  {
    PrefixHasNoFence(s, p);
    RegionBetween(s, p, q);
  }

  /** The text before the first fence holds no fence. */
  lemma PrefixHasNoFence(s: string, p: nat)
    requires p <= |s| && forall k :: 0 <= k < p ==> !OccursAt(s, Fence, k)
    ensures NoFence(s[..p])
  {
    forall j | 0 <= j < p && OccursAt(s[..p], Fence, j) ensures false {
      OccursInSlice(s, Fence, 0, p, j);
    }
  }

  /** From a fence to the nearest fence after it is a captured region. */
  lemma RegionBetween(s: string, p: nat, q: nat)
    requires p + 3 <= q && OccursAt(s, Fence, p) && OccursAt(s, Fence, q)
    requires forall k :: p + 3 <= k < q ==> !OccursAt(s, Fence, k)
    ensures IsRegion(s[p..q + 3])
  {
    var region := s[p..q + 3];
    forall j | 3 <= j < |region| - 3 && OccursAt(region, Fence, j) ensures false {
      OccursInSlice(s, Fence, p, q + 3, j);
    }
    assert region[..3] == s[p..p + 3];
    assert region[|region| - 3..] == s[q..q + 3];
  }

  /** No fence in `t` is followed, three or more characters later, by another: `t` holds no region. */
  predicate NoRegion(t: string)
  {
    forall i: nat, j: nat :: i + 3 <= j < |t| && OccursAt(t, Fence, i) ==> !OccursAt(t, Fence, j)
  }

  /** Text with no fence, then a region, then the same again, ending in text that holds no region. */
  predicate Alternating(parts: seq<string>)
    decreases |parts|
  {
    if |parts| < 3 then |parts| == 1 && NoRegion(parts[0])
    else NoFence(parts[0]) && IsRegion(parts[1]) && Alternating(parts[2..])
  }

  lemma {:induction false} SplitFencesShape(s: string)
    decreases |s|
    ensures Alternating(SplitFences(s))
  {
    match FindFrom(s, Fence, 0)
    case None =>
      NoRegionBetween(s, 0);
    case Some(p) =>
      match FindFrom(s, Fence, p + 3)
      case None =>
        NoRegionBetween(s, p);
      case Some(q) =>
        var rest := SplitFences(s[q + 3..]);
        var parts := [s[..p], s[p..q + 3]] + rest;
        assert SplitFences(s) == parts;
        FirstSplitShape(s, p, q);
        SplitFencesShape(s[q + 3..]);
        assert parts[0] == s[..p] && parts[1] == s[p..q + 3] && parts[2..] == rest;
  }

  /** A text whose fences all start in `[p, p + 3)` holds no region. */
  lemma NoRegionBetween(s: string, p: nat)
    requires forall k :: 0 <= k < p ==> !OccursAt(s, Fence, k)
    requires forall k :: p + 3 <= k ==> !OccursAt(s, Fence, k)
    ensures NoRegion(s)
  {
    forall i: nat, j: nat | i + 3 <= j < |s| && OccursAt(s, Fence, i) ensures !OccursAt(s, Fence, j) {
      assert p <= i;
    }
  }

  /**
   * Read by index: every odd-numbered part is a captured region, and every
   * even-numbered part but the last is text holding no fence at all.
   */
  lemma {:induction false} AlternatingAt(parts: seq<string>, k: nat)
    requires Alternating(parts) && k < |parts|
    decreases k
    ensures k % 2 == 1 ==> IsRegion(parts[k])
    ensures k % 2 == 0 && k < |parts| - 1 ==> NoFence(parts[k])
    ensures k == |parts| - 1 ==> NoRegion(parts[k])
  {
    if k >= 2 {
      AlternatingAt(parts[2..], k - 2);
      assert parts[2..][k - 2] == parts[k];
    }
  }

  /** Nothing is lost or reordered by the split: the parts concatenate back to the message. */
  lemma {:induction false} SplitFencesConcat(s: string)
    decreases |s|
    ensures Flatten(SplitFences(s)) == s
  {
    match FindFrom(s, Fence, 0)
    case None =>
    case Some(p) =>
      match FindFrom(s, Fence, p + 3)
      case None =>
      case Some(q) =>
        var rest := SplitFences(s[q + 3..]);
        SplitFencesConcat(s[q + 3..]);
        assert SplitFences(s) == [s[..p], s[p..q + 3]] + rest;
        FlattenAppend([s[..p], s[p..q + 3]], rest);
        assert Flatten([s[..p], s[p..q + 3]]) == s[..p] + s[p..q + 3];
        assert s == s[..p] + s[p..q + 3] + s[q + 3..];
  }

  /** Where the `k`-th part begins in the message. */
  function PartStart(parts: seq<string>, k: nat): nat
    requires k <= |parts|
  {
    |Flatten(parts[..k])|
  }

  /** `p` is where the first fence at or after `lo` starts. */
  predicate FirstFence(s: string, lo: nat, p: nat)
  {
    lo <= p && OccursAt(s, Fence, p) && forall k :: lo <= k < p ==> !OccursAt(s, Fence, k)
  }

  /** The first fence in the suffix `s[off..]` from `x` on is the first in `s` from `off + x` on. */
  lemma FirstFenceShift(s: string, off: nat, x: nat, y: nat)
    requires off <= |s| && FirstFence(s[off..], x, y)
    ensures FirstFence(s, off + x, off + y)
  {
    var u := s[off..];
    forall k | 0 <= k <= |u| ensures OccursAt(u, Fence, k) <==> OccursAt(s, Fence, off + k) {
      if k + 3 <= |u| {
        assert u[k..k + 3] == s[off + k..off + k + 3];
      }
    }
    forall k | off + x <= k < off + y ensures !OccursAt(s, Fence, k) {
      assert !OccursAt(u, Fence, k - off);
    }
  }

  /** Each text part but the last ends where the first fence at or after its start begins. */
  predicate Leftmost(s: string, parts: seq<string>)
  {
    forall k :: 0 <= k < |parts| - 1 && k % 2 == 0 ==>
      FirstFence(s, PartStart(parts, k), PartStart(parts, k) + |parts[k]|)
  }

  /**
   * The search is leftmost: each region starts at the first fence at or
   * after the start of the text before it, so the text before a region never
   * runs past a fence (not even one it only begins).
   */
  lemma {:induction false} SplitFencesLeftmost(s: string)
    decreases |s|
    ensures Leftmost(s, SplitFences(s))
  {
    match FindFrom(s, Fence, 0)
    case None =>
    case Some(p) =>
      match FindFrom(s, Fence, p + 3)
      case None =>
      case Some(q) =>
        var a, r, t := s[..p], s[p..q + 3], s[q + 3..];
        var rest := SplitFences(t);
        assert SplitFences(s) == [a, r] + rest;
        SplitFencesLeftmost(t);
        assert FirstFence(s, 0, |a|);
        assert |a| + |r| == q + 3;
        LeftmostCons(s, a, r, t, rest);
  }

  /** The first region is found from the start; the later ones are found in the text after it. */
  lemma LeftmostCons(s: string, a: string, r: string, t: string, rest: seq<string>)
    requires |a| + |r| <= |s| && t == s[|a| + |r|..] && FirstFence(s, 0, |a|)
    requires Leftmost(t, rest)
    ensures Leftmost(s, [a, r] + rest)
  {
    var parts := [a, r] + rest;
    forall k | 0 <= k < |parts| - 1 && k % 2 == 0
      ensures FirstFence(s, PartStart(parts, k), PartStart(parts, k) + |parts[k]|)
    {
      LeftmostAt(s, a, r, t, rest, k);
    }
  }

  /** The `k`-th part, for an even `k`: the first text is found from the start, a later one in the text after the first region. */
  lemma LeftmostAt(s: string, a: string, r: string, t: string, rest: seq<string>, k: nat)
    requires |a| + |r| <= |s| && t == s[|a| + |r|..] && FirstFence(s, 0, |a|)
    requires k < |rest| + 1 && k % 2 == 0
    requires k >= 2 ==> FirstFence(t, PartStart(rest, k - 2), PartStart(rest, k - 2) + |rest[k - 2]|)
    ensures FirstFence(s, PartStart([a, r] + rest, k), PartStart([a, r] + rest, k) + |([a, r] + rest)[k]|)
  {
    if k == 0 {
      assert ([a, r] + rest)[..0] == [];
    } else {
      var x := PartStart(rest, k - 2);
      PartStartCons(a, r, rest, k);
      assert ([a, r] + rest)[k] == rest[k - 2];
      FirstFenceShift(s, |a| + |r|, x, x + |rest[k - 2]|);
    }
  }

  lemma PartStartCons(a: string, r: string, rest: seq<string>, k: nat)
    requires 2 <= k <= |rest| + 2
    ensures PartStart([a, r] + rest, k) == |a| + |r| + PartStart(rest, k - 2)
  {
    assert ([a, r] + rest)[..k] == [a, r] + rest[..k - 2];
    FlattenAppend([a, r], rest[..k - 2]);
    assert Flatten([a, r]) == a + r by { assert [a, r][1..] == [r]; }
  }

  /** The rows of a code part: `part.strip('`').splitlines()`. */
  function CodeLines(part: string): seq<string>
  {
    SplitLines(StripChar(part, '`'))
  }

  lemma FenceIsBackticks()
    ensures forall k :: 0 <= k < |Fence| ==> Fence[k] == '`'
  {
  }

  /** `strip('`')` of a block fenced on both sides gives back the inside when it is not ticked at its ends. */
  lemma StripFences(y: string)
    requires y != [] && y[0] != '`' && y[|y| - 1] != '`'
    ensures StripChar(Fence + (y + Fence), '`') == y
  {
    FenceIsBackticks();
    assert (y + Fence)[0] == y[0];
    StripLeftRun(Fence, y + Fence, '`');
    StripRightRun(y, Fence, '`');
  }

  /** `('\n' + a + '\n' + b + '\n').splitlines()` is `['', a, b]`. */
  lemma TwoLinesAfterNewline(a: string, b: string)
    requires NoLineBreak(a) && NoLineBreak(b)
    ensures SplitLines("\n" + (a + ("\n" + (b + "\n")))) == ["", a, b]
  {
    var n := "\n";
    var t1 := b + n;
    SplitLinesCons(b, "");
    assert b + (n + "") == t1;
    var t2 := a + (n + t1);
    SplitLinesCons(a, t1);
    assert SplitLines(t2) == [a, b];
    SplitLinesCons("", t2);
    assert "" + (n + t2) == n + t2;
  }

  /**
   * A fenced block whose opening fence is followed by a newline: the newline
   * survives `strip('`')`, so its rows are `''` and then the two lines.
   */
  lemma FencedTwoLines(a: string, b: string)
    requires NoLineBreak(a) && NoLineBreak(b)
    ensures IsFencePart(Fence + "\n" + a + "\n" + b + "\n" + Fence)
    ensures CodeLines(Fence + "\n" + a + "\n" + b + "\n" + Fence) == ["", a, b]
  {
    var n := "\n";
    var y := n + (a + (n + (b + n)));
    var s := Fence + n + a + n + b + n + Fence;
    Regroup(Fence, n, a, n, b, n, Fence);
    assert s[..3] == Fence && s[|s| - 3..] == Fence;
    assert y[0] == '\n' && y[|y| - 1] == '\n';
    StripFences(y);
    TwoLinesAfterNewline(a, b);
  }

  // ---------------------------------------------------------------------------
  // URLs

  /** A match of `https?://[^\s]+` can start at `i`. */
  predicate UrlStartsAt(s: string, i: nat)
  {
    (OccursAt(s, "https://", i) && i + 8 < |s| && !IsSpace(s[i + 8]))
    || (OccursAt(s, "http://", i) && i + 7 < |s| && !IsSpace(s[i + 7]))
  }

  /** Where the run of non-whitespace that starts at `i` ends. */
  function RunEnd(s: string, i: nat): (e: nat)
    requires i <= |s|
    decreases |s| - i
    ensures i <= e <= |s|
    ensures e < |s| ==> IsSpace(s[e])
    ensures forall k :: i <= k < e ==> !IsSpace(s[k])
  {
    if i == |s| || IsSpace(s[i]) then i else RunEnd(s, i + 1)
  }

  function NextUrl(s: string, start: nat): (r: Option<nat>)
    decreases |s| - start
    ensures r.Some? ==> start <= r.value < |s| && UrlStartsAt(s, r.value)
    ensures r.Some? ==> forall k :: start <= k < r.value ==> !UrlStartsAt(s, k)
    ensures r.None? ==> forall k :: start <= k ==> !UrlStartsAt(s, k)
  {
    if start >= |s| then None
    else if UrlStartsAt(s, start) then Some(start)
    else NextUrl(s, start + 1)
  }

  /** A match `line[start:end]`. */
  datatype Span = Span(start: nat, end: nat)

  /** The span is a URL: a scheme, then non-whitespace up to whitespace or the end of the line. */
  predicate IsUrlSpan(s: string, m: Span)
  {
    m.start < m.end <= |s| && UrlStartsAt(s, m.start)
    && (forall k :: m.start <= k < m.end ==> !IsSpace(s[k]))
    && (m.end == |s| || IsSpace(s[m.end]))
  }

  /** `re.finditer(r'(https?://[^\s]+)', s)` from position `start`, as spans. */
  function UrlMatches(s: string, start: nat): (ms: seq<Span>)
    decreases |s| - start
    ensures forall k :: 0 <= k < |ms| ==> start <= ms[k].start && IsUrlSpan(s, ms[k])
    ensures forall k :: 0 <= k < |ms| - 1 ==> ms[k].end < ms[k + 1].start
  {
    match NextUrl(s, start)
    case None => []
    case Some(i) =>
      var e := RunEnd(s, i);
      var rest := UrlMatches(s, e);
      UrlMatchesCons(s, start, i, rest);
      [Span(i, e)] + rest
  }

  /** A URL starts with the `h` of its scheme. */
  lemma UrlStartIsNotSpace(s: string, i: nat)
    requires UrlStartsAt(s, i)
    ensures i < |s| && !IsSpace(s[i])
  {
    if OccursAt(s, "https://", i) {
      assert s[i..i + 8][0] == s[i];
    } else {
      assert s[i..i + 7][0] == s[i];
    }
  }

  /** A matched URL runs past its scheme and at least one more character. */
  lemma UrlSpanLength(s: string, m: Span)
    requires IsUrlSpan(s, m)
    ensures OccursAt(s, "https://", m.start) ==> m.start + 8 < m.end
    ensures OccursAt(s, "http://", m.start) ==> m.start + 7 < m.end
  {
    if OccursAt(s, "https://", m.start) || OccursAt(s, "http://", m.start) {
      var n := if OccursAt(s, "https://", m.start) then 8 else 7;
      var scheme := s[m.start..m.start + n];
      assert scheme[4] == s[m.start + 4];
      forall j | m.start <= j < m.start + n ensures !IsSpace(s[j]) {
        assert s[j] == scheme[j - m.start];
      }
      assert m.start + n < |s| && !IsSpace(s[m.start + n]);
    }
  }

  /** The first match, put in front of the matches after it, keeps them ordered and apart. */
  lemma UrlMatchesCons(s: string, start: nat, i: nat, rest: seq<Span>)
    requires start <= i < |s| && UrlStartsAt(s, i)
    requires var e := RunEnd(s, i);
      (forall k :: 0 <= k < |rest| ==> e <= rest[k].start && IsUrlSpan(s, rest[k]))
      && (forall k :: 0 <= k < |rest| - 1 ==> rest[k].end < rest[k + 1].start)
    ensures var ms := [Span(i, RunEnd(s, i))] + rest;
      (forall k :: 0 <= k < |ms| ==> start <= ms[k].start && IsUrlSpan(s, ms[k]))
      && (forall k :: 0 <= k < |ms| - 1 ==> ms[k].end < ms[k + 1].start)
  {
    var e := RunEnd(s, i);
    UrlStartIsNotSpace(s, i);
    var ms := [Span(i, e)] + rest;
    if rest != [] {
      UrlStartIsNotSpace(s, rest[0].start);
    }
    forall k | 0 <= k < |ms| - 1 ensures ms[k].end < ms[k + 1].start {
      if k > 0 {
        assert ms[k] == rest[k - 1] && ms[k + 1] == rest[k];
      }
    }
  }

  /**
   * No URL is missed: every position where a URL could start lies inside one
   * of the matches (either it starts one, or an earlier match swallowed it).
   */
  lemma {:induction false} UrlMatchesCover(s: string, start: nat, j: nat)
    requires start <= j < |s| && UrlStartsAt(s, j)
    decreases |s| - start
    ensures exists k :: (0 <= k < |UrlMatches(s, start)|
      && UrlMatches(s, start)[k].start <= j < UrlMatches(s, start)[k].end)
  {
    var ms := UrlMatches(s, start);
    match NextUrl(s, start)
    case None =>
      assert false;
    case Some(i) =>
      var e := RunEnd(s, i);
      assert ms == [Span(i, e)] + UrlMatches(s, e);
      if j < e {
        assert ms[0].start <= j < ms[0].end;
      } else {
        UrlMatchesCover(s, e, j);
        var k :| 0 <= k < |UrlMatches(s, e)| && UrlMatches(s, e)[k].start <= j < UrlMatches(s, e)[k].end;
        assert ms[k + 1] == UrlMatches(s, e)[k];
      }
  }

  // ---------------------------------------------------------------------------
  // Greedy word wrap

  /** The lines the wrap loop draws as it goes, and the line still open at the end. */
  datatype Wrapped = Wrapped(flushed: seq<string>, last: string)

  /**
   * The word loop: `test = (line + ' ' + w).strip()`; when `test` is wider
   * than `limit` and `line` is non-empty, `line` is drawn and `w` starts the
   * next one, otherwise `test` becomes the line.
   */
  function Wrap(width: string -> nat, limit: int, line: string, words: seq<string>): (r: Wrapped)
    decreases |words|
    ensures forall k :: 0 <= k < |r.flushed| ==> r.flushed[k] != ""
    ensures |r.flushed| <= |words|
  {
    if words == [] then Wrapped([], line)
    else
      var w := words[0];
      var test := Strip(line + " " + w);
      if width(test) > limit && line != "" then
        var rest := Wrap(width, limit, w, words[1..]);
        NonEmptyCons(line, rest.flushed);
        Wrapped([line] + rest.flushed, rest.last)
      else Wrap(width, limit, test, words[1..])
  }

  lemma NonEmptyCons(line: string, lines: seq<string>)
    requires line != "" && forall k :: 0 <= k < |lines| ==> lines[k] != ""
    ensures forall k :: 0 <= k < 1 + |lines| ==> ([line] + lines)[k] != ""
  {
    forall k | 0 < k < 1 + |lines| ensures ([line] + lines)[k] != "" {
      assert ([line] + lines)[k] == lines[k - 1];
    }
  }

  /** The tokens a wrap result holds, drawn lines first. */
  function WrappedTokens(r: Wrapped): seq<string>
  {
    FlatTokens(r.flushed) + Tokens(r.last)
  }

  /** The wrap keeps every token of every word, in order, and adds none. */
  lemma {:induction false} WrapTokens(width: string -> nat, limit: int, line: string, words: seq<string>)
    decreases |words|
    ensures WrappedTokens(Wrap(width, limit, line, words)) == Tokens(line) + FlatTokens(words)
  {
    if words != [] {
      var w := words[0];
      var test := Strip(line + " " + w);
      if width(test) > limit && line != "" {
        WrapTokens(width, limit, w, words[1..]);
        FlushStep(width, limit, line, words);
      } else {
        WrapTokens(width, limit, test, words[1..]);
        ExtendStep(width, limit, line, words);
      }
    }
  }

  lemma FlushStep(width: string -> nat, limit: int, line: string, words: seq<string>)
    requires words != [] && line != "" && width(Strip(line + " " + words[0])) > limit
    requires WrappedTokens(Wrap(width, limit, words[0], words[1..])) == Tokens(words[0]) + FlatTokens(words[1..])
    ensures WrappedTokens(Wrap(width, limit, line, words)) == Tokens(line) + FlatTokens(words)
  {
    var rest := Wrap(width, limit, words[0], words[1..]);
    var r := Wrap(width, limit, line, words);
    assert r.flushed == [line] + rest.flushed && r.last == rest.last;
    assert ([line] + rest.flushed)[1..] == rest.flushed;
    assert FlatTokens(r.flushed) == Tokens(line) + FlatTokens(rest.flushed);
    assert FlatTokens(words) == Tokens(words[0]) + FlatTokens(words[1..]);
    AppendAssoc(Tokens(line), FlatTokens(rest.flushed), Tokens(rest.last));
  }

  lemma ExtendStep(width: string -> nat, limit: int, line: string, words: seq<string>)
    requires words != [] && !(width(Strip(line + " " + words[0])) > limit && line != "")
    requires var test := Strip(line + " " + words[0]);
      WrappedTokens(Wrap(width, limit, test, words[1..])) == Tokens(test) + FlatTokens(words[1..])
    ensures WrappedTokens(Wrap(width, limit, line, words)) == Tokens(line) + FlatTokens(words)
  {
    var test := Strip(line + " " + words[0]);
    assert Wrap(width, limit, line, words) == Wrap(width, limit, test, words[1..]);
    TokensOfJoinedWord(line, words[0]);
    assert FlatTokens(words) == Tokens(words[0]) + FlatTokens(words[1..]);
    AppendAssoc(Tokens(line), Tokens(words[0]), FlatTokens(words[1..]));
  }

  /** Adding the word `w` to `line` gives a test line wider than `limit`. */
  predicate Overflows(width: string -> nat, limit: int, line: string, w: string)
  {
    width(Strip(line + " " + w)) > limit
  }

  /**
   * The `k`-th drawn line was drawn because the word `words[i]` overflows it,
   * and the lines after it hold exactly the tokens from that word on.
   */
  predicate BrokeBefore(width: string -> nat, limit: int, r: Wrapped, words: seq<string>, k: nat, i: nat)
    requires k < |r.flushed| && i < |words|
  {
    Overflows(width, limit, r.flushed[k], words[i])
    && WrappedTokens(Wrapped(r.flushed[k + 1..], r.last)) == FlatTokens(words[i..])
  }

  /** Some word broke the `k`-th drawn line. */
  predicate LineBroke(width: string -> nat, limit: int, r: Wrapped, words: seq<string>, k: nat)
    requires k < |r.flushed|
  {
    exists i :: 0 <= i < |words| && BrokeBefore(width, limit, r, words, k, i)
  }

  /** Greedy: every drawn line was drawn only because the word after it did not fit on it. */
  predicate Greedy(width: string -> nat, limit: int, r: Wrapped, words: seq<string>)
  {
    forall k :: 0 <= k < |r.flushed| ==> LineBroke(width, limit, r, words, k)
  }

  /** The wrap is greedy: a line is drawn only when the next word would overflow it. */
  lemma {:induction false} WrapGreedy(width: string -> nat, limit: int, line: string, words: seq<string>)
    decreases |words|
    ensures Greedy(width, limit, Wrap(width, limit, line, words), words)
  {
    if words != [] {
      var w := words[0];
      var test := Strip(line + " " + w);
      if width(test) > limit && line != "" {
        var rest := Wrap(width, limit, w, words[1..]);
        WrapGreedy(width, limit, w, words[1..]);
        WrapTokens(width, limit, w, words[1..]);
        assert Wrap(width, limit, line, words) == Wrapped([line] + rest.flushed, rest.last);
        GreedyFlush(width, limit, line, rest, words);
      } else {
        WrapGreedy(width, limit, test, words[1..]);
        assert Wrap(width, limit, line, words) == Wrap(width, limit, test, words[1..]);
        GreedyLater(width, limit, Wrap(width, limit, test, words[1..]), words);
      }
    }
  }

  /** What is greedy for the later words is greedy for all of them. */
  lemma GreedyLater(width: string -> nat, limit: int, r: Wrapped, words: seq<string>)
    requires words != [] && Greedy(width, limit, r, words[1..])
    ensures Greedy(width, limit, r, words)
  {
    forall k | 0 <= k < |r.flushed| ensures LineBroke(width, limit, r, words, k) {
      assert LineBroke(width, limit, r, words[1..], k);
      var i :| 0 <= i < |words| - 1 && BrokeBefore(width, limit, r, words[1..], k, i);
      assert words[1..][i] == words[i + 1] && words[1..][i..] == words[i + 1..];
      assert BrokeBefore(width, limit, r, words, k, i + 1);
    }
  }

  /** Drawing `line` because the first word overflows it, in front of a greedy wrap of all the words. */
  lemma GreedyFlush(width: string -> nat, limit: int, line: string, rest: Wrapped, words: seq<string>)
    requires words != [] && Overflows(width, limit, line, words[0])
    requires WrappedTokens(rest) == Tokens(words[0]) + FlatTokens(words[1..])
    requires Greedy(width, limit, rest, words[1..])
    ensures Greedy(width, limit, Wrapped([line] + rest.flushed, rest.last), words)
  {
    GreedyLater(width, limit, rest, words);
    var r := Wrapped([line] + rest.flushed, rest.last);
    forall k | 0 <= k < |r.flushed| ensures LineBroke(width, limit, r, words, k) {
      if k == 0 {
        assert Wrapped(r.flushed[1..], r.last) == rest && words[0..] == words;
        assert BrokeBefore(width, limit, r, words, 0, 0);
      } else {
        assert LineBroke(width, limit, rest, words, k - 1);
        var i :| 0 <= i < |words| && BrokeBefore(width, limit, rest, words, k - 1, i);
        BrokeCons(width, limit, line, rest, words, k, i);
      }
    }
  }

  lemma BrokeCons(width: string -> nat, limit: int, line: string, rest: Wrapped, words: seq<string>, k: nat, i: nat)
    requires 0 < k <= |rest.flushed| && i < |words| && BrokeBefore(width, limit, rest, words, k - 1, i)
    ensures BrokeBefore(width, limit, Wrapped([line] + rest.flushed, rest.last), words, k, i)
  {
    var fl := [line] + rest.flushed;
    assert fl[k] == rest.flushed[k - 1] && fl[k + 1..] == rest.flushed[k..];
  }

  /** `ln` is one of the words, as it is or stripped. */
  predicate OneWord(ln: string, ctx: seq<string>)
  {
    exists w :: w in ctx && (ln == w || ln == Strip(w))
  }

  /** A line fits, or is empty, or is a single word. */
  predicate Fits(width: string -> nat, limit: int, ln: string, ctx: seq<string>)
  {
    ln == "" || width(ln) <= limit || OneWord(ln, ctx)
  }

  /** Every line of a wrap result fits the limit unless it is a single word. */
  predicate AllFit(width: string -> nat, limit: int, r: Wrapped, ctx: seq<string>)
  {
    Fits(width, limit, r.last, ctx) && forall k :: 0 <= k < |r.flushed| ==> Fits(width, limit, r.flushed[k], ctx)
  }

  /** Every line the wrap produces fits the limit unless it is a single word. */
  lemma {:induction false} WrapFits(width: string -> nat, limit: int, line: string, words: seq<string>, ctx: seq<string>)
    requires Fits(width, limit, line, ctx)
    requires forall k :: 0 <= k < |words| ==> words[k] in ctx
    decreases |words|
    ensures AllFit(width, limit, Wrap(width, limit, line, words), ctx)
  {
    if words != [] {
      var w := words[0];
      assert w in ctx;
      var test := Strip(line + " " + w);
      if width(test) > limit && line != "" {
        assert OneWord(w, ctx);
        WrapFits(width, limit, w, words[1..], ctx);
        FitsFlushStep(width, limit, line, words, ctx);
      } else {
        FitsExtend(width, limit, line, w, ctx);
        WrapFits(width, limit, test, words[1..], ctx);
        assert Wrap(width, limit, line, words) == Wrap(width, limit, test, words[1..]);
      }
    }
  }

  lemma FitsFlushStep(width: string -> nat, limit: int, line: string, words: seq<string>, ctx: seq<string>)
    requires words != [] && line != "" && width(Strip(line + " " + words[0])) > limit
    requires Fits(width, limit, line, ctx)
    requires AllFit(width, limit, Wrap(width, limit, words[0], words[1..]), ctx)
    ensures AllFit(width, limit, Wrap(width, limit, line, words), ctx)
  {
    var rest := Wrap(width, limit, words[0], words[1..]);
    assert Wrap(width, limit, line, words) == Wrapped([line] + rest.flushed, rest.last);
    AllFitCons(width, limit, line, rest, ctx);
  }

  /** A fitting line drawn before a result whose lines all fit. */
  lemma AllFitCons(width: string -> nat, limit: int, line: string, rest: Wrapped, ctx: seq<string>)
    requires Fits(width, limit, line, ctx) && AllFit(width, limit, rest, ctx)
    ensures AllFit(width, limit, Wrapped([line] + rest.flushed, rest.last), ctx)
  {
    var fl := [line] + rest.flushed;
    forall k | 0 <= k < |fl| ensures Fits(width, limit, fl[k], ctx) {
      if k > 0 { assert fl[k] == rest.flushed[k - 1]; }
    }
  }

  /** The extended line `(line + ' ' + w).strip()` fits, or the line was empty and it is `w` stripped. */
  lemma FitsExtend(width: string -> nat, limit: int, line: string, w: string, ctx: seq<string>)
    requires w in ctx
    requires !(width(Strip(line + " " + w)) > limit && line != "")
    ensures Fits(width, limit, Strip(line + " " + w), ctx)
  {
    if line == "" {
      assert line + " " + w == [' '] + w;
      StripSpaceCons(w);
      assert OneWord(Strip(line + " " + w), ctx);
    }
  }
}
