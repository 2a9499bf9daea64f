/**
 * The parts of Python's `str` that the chat window relies on, over code points
 * (`string` is `seq<char>`, a char being a Unicode scalar value).
 */
module PyStr {
  import opened Wrappers
  import opened Seqs

  /** `c.isspace()`, which is also what `strip()`, `split()` and the regex class `\s` use. */
  predicate IsSpace(c: char)
  {
    var n := c as int;
    (9 <= n <= 13) || (28 <= n <= 32) || n == 0x85 || n == 0xA0 || n == 0x1680
    || (0x2000 <= n <= 0x200A) || n == 0x2028 || n == 0x2029 || n == 0x202F
    || n == 0x205F || n == 0x3000
  }

  predicate AllSpace(s: string)
  {
    forall i :: 0 <= i < |s| ==> IsSpace(s[i])
  }

  function TrimLeft(s: string): (r: string)
    ensures |r| <= |s| && r == s[|s| - |r|..]
    ensures AllSpace(s[..|s| - |r|])
    ensures r == [] || !IsSpace(r[0])
  {
    if s != [] && IsSpace(s[0]) then
      var r := TrimLeft(s[1..]);
      assert s[..|s| - |r|] == [s[0]] + s[1..][..|s| - 1 - |r|];
      r
    else s
  }

  function TrimRight(s: string): (r: string)
    ensures |r| <= |s| && r == s[..|r|]
    ensures AllSpace(s[|r|..])
    ensures r == [] || !IsSpace(r[|r| - 1])
  {
    if s != [] && IsSpace(s[|s| - 1]) then
      var r := TrimRight(s[..|s| - 1]);
      assert s[|r|..] == s[..|s| - 1][|r|..] + [s[|s| - 1]];
      r
    else s
  }

  /** `s.strip()`: drops leading and trailing whitespace. */
  function Strip(s: string): (r: string)
    ensures |r| <= |s|
    ensures r == [] <==> AllSpace(s)
    ensures r != [] ==> !IsSpace(r[0]) && !IsSpace(r[|r| - 1])
  {
    var l := TrimLeft(s);
    var r := TrimRight(l);
    assert r == [] ==> AllSpace(l[|r|..]) && l[|r|..] == l;
    r
  }

  /** No whitespace at either end. */
  predicate Trimmed(r: string)
  {
    r == [] || (!IsSpace(r[0]) && !IsSpace(r[|r| - 1]))
  }

  /** `if s.strip():` holds exactly when `s` has a non-whitespace character. */
  lemma StripNonEmpty(s: string)
    ensures Strip(s) != "" <==> !AllSpace(s)
  {
    assert Strip(s) == [] <==> AllSpace(s);
  }

  /** `strip()` returns a contiguous piece of its input. */
  lemma StripIsSlice(s: string)
    ensures exists i, j :: 0 <= i <= j <= |s| && Strip(s) == s[i..j]
  {
    var l := TrimLeft(s);
    var r := TrimRight(l);
    var i := |s| - |l|;
    assert r == l[..|r|] && l == s[i..];
    assert Strip(s) == s[i..i + |r|];
  }

  /** A leading space does not change what `strip` returns. */
  lemma StripSpaceCons(w: string)
    ensures Strip([' '] + w) == Strip(w)
  {
    assert ([' '] + w)[1..] == w;
    assert TrimLeft([' '] + w) == TrimLeft(w);
  }

  /** ASCII lower-casing of one character (`str.lower` restricted to ASCII). */
  function LowerChar(c: char): char
  {
    if 'A' <= c <= 'Z' then (c as int + 32) as char else c
  }

  function Lower(s: string): (r: string)
    ensures |r| == |s|
    ensures forall i :: 0 <= i < |s| ==> r[i] == LowerChar(s[i])
  {
    if s == [] then [] else [LowerChar(s[0])] + Lower(s[1..])
  }

  predicate StartsWith(s: string, p: string)
  {
    |p| <= |s| && s[..|p|] == p
  }

  predicate EndsWith(s: string, p: string)
  {
    |p| <= |s| && s[|s| - |p|..] == p
  }

  /** `t` occurs in `s` at index `i`. */
  predicate OccursAt(s: string, t: string, i: nat)
  {
    i + |t| <= |s| && s[i..i + |t|] == t
  }

  /** An occurrence inside a slice is an occurrence in the whole string. */
  lemma OccursInSlice(s: string, t: string, a: nat, b: nat, j: nat)
    requires a <= b <= |s| && OccursAt(s[a..b], t, j)
    ensures OccursAt(s, t, a + j)
  {
    var u := s[a..b];
    assert u[j..j + |t|] == t;
    forall i | 0 <= i < |t| ensures s[a + j + i] == t[i] {
      assert u[j + i] == s[a + j + i];
    }
    assert s[a + j..a + j + |t|] == t;
  }

  /** `s.find(t, start)`: the first occurrence at or after `start`. */
  function FindFrom(s: string, t: string, start: nat): (r: Option<nat>)
    decreases |s| - start
    ensures r.Some? ==> start <= r.value && OccursAt(s, t, r.value)
    ensures r.Some? ==> forall k :: start <= k < r.value ==> !OccursAt(s, t, k)
    ensures r.None? ==> forall k :: start <= k ==> !OccursAt(s, t, k)
  {
    if start + |t| > |s| then None
    else if OccursAt(s, t, start) then Some(start)
    else FindFrom(s, t, start + 1)
  }

  /** `t in s` on strings (a substring test). */
  predicate Contains(s: string, t: string)
  {
    FindFrom(s, t, 0).Some?
  }

  lemma ContainsMeansOccurs(s: string, t: string)
    ensures Contains(s, t) <==> exists k :: OccursAt(s, t, k)
  {
    if !Contains(s, t) {
      assert forall k :: 0 <= k ==> !OccursAt(s, t, k);
    }
  }

  /** Index of the first `c` in `s`, or `|s|` when there is none. */
  function IndexOf(s: string, c: char): (i: nat)
    ensures i <= |s|
    ensures i < |s| ==> s[i] == c
    ensures forall k :: 0 <= k < i ==> s[k] != c
  {
    if s == [] then 0 else if s[0] == c then 0 else 1 + IndexOf(s[1..], c)
  }

  /** `s.split(sep)` for a one-character separator: keeps empty fields. */
  function Split(s: string, sep: char): (r: seq<string>)
    decreases |s|
    ensures |r| >= 1
  {
    var i := IndexOf(s, sep);
    if i == |s| then [s] else [s[..i]] + Split(s[i + 1..], sep)
  }

  /** No field of `s.split(sep)` holds the separator. */
  lemma {:induction false} SplitFields(s: string, sep: char)
    decreases |s|
    ensures forall k :: 0 <= k < |Split(s, sep)| ==> sep !in Split(s, sep)[k]
  {
    var i := IndexOf(s, sep);
    if i < |s| {
      SplitFields(s[i + 1..], sep);
      var r := Split(s, sep);
      assert r == [s[..i]] + Split(s[i + 1..], sep);
      forall k | 0 <= k < |r| ensures sep !in r[k] {
        if k == 0 {
          assert forall j :: 0 <= j < i ==> s[..i][j] == s[j];
        } else {
          assert r[k] == Split(s[i + 1..], sep)[k - 1];
        }
      }
    }
  }

  /** `sep.join(parts)` */
  function Join(parts: seq<string>, sep: char): string
  {
    if parts == [] then []
    else if |parts| == 1 then parts[0]
    else parts[0] + [sep] + Join(parts[1..], sep)
  }

  lemma {:induction false} JoinSplit(s: string, sep: char)
    decreases |s|
    ensures Join(Split(s, sep), sep) == s
  {
    var i := IndexOf(s, sep);
    if i < |s| {
      JoinSplit(s[i + 1..], sep);
      JoinSplitStep(s, sep, i);
    }
  }

  /** One field of `s.split(sep)` and its separator, put back in front of the rest. */
  lemma JoinSplitStep(s: string, sep: char, i: nat)
    requires i == IndexOf(s, sep) && i < |s|
    requires Join(Split(s[i + 1..], sep), sep) == s[i + 1..]
    ensures Join(Split(s, sep), sep) == s
  {
    var t := s[i + 1..];
    SplitAt(s, sep, i);
    JoinCons(s[..i], Split(t, sep), sep);
    AroundIndex(s, i);
  }

  /** `Split` unfolded at the first separator. */
  lemma SplitAt(s: string, sep: char, i: nat)
    requires i == IndexOf(s, sep) && i < |s|
    ensures Split(s, sep) == [s[..i]] + Split(s[i + 1..], sep)
  {
  }

  lemma JoinCons(p: string, parts: seq<string>, sep: char)
    requires |parts| >= 1
    ensures Join([p] + parts, sep) == p + [sep] + Join(parts, sep)
  {
    assert ([p] + parts)[1..] == parts;
  }

  lemma {:induction false} SplitJoin(parts: seq<string>, sep: char)
    requires |parts| >= 1
    requires forall k :: 0 <= k < |parts| ==> sep !in parts[k]
    ensures Split(Join(parts, sep), sep) == parts
  {
    var s := Join(parts, sep);
    if |parts| == 1 {
      assert IndexOf(s, sep) == |s|;
    } else {
      var p := parts[0];
      var rest := Join(parts[1..], sep);
      assert s == p + [sep] + rest;
      assert s[|p|] == sep;
      forall k | 0 <= k < |p| ensures s[k] != sep {
        assert s[k] == p[k];
      }
      assert IndexOf(s, sep) == |p|;
      assert s[..|p|] == p;
      assert s[|p| + 1..] == rest;
      SplitJoin(parts[1..], sep);
      assert Split(s, sep) == [p] + Split(rest, sep);
    }
  }

  /** `s.split(sep, 1)[1]` when `sep in s`: what follows the first `sep`. */
  function AfterFirst(s: string, sep: char): (r: string)
    requires sep in s
    ensures exists i :: 0 <= i < |s| && s[i] == sep && sep !in s[..i] && r == s[i + 1..]
  {
    var i := IndexOf(s, sep);
    assert sep !in s[..i];
    s[i + 1..]
  }

  function StripCharLeft(s: string, c: char): (r: string)
    ensures |r| <= |s| && r == s[|s| - |r|..]
    ensures forall k :: 0 <= k < |s| - |r| ==> s[k] == c
    ensures r == [] || r[0] != c
  {
    if s != [] && s[0] == c then StripCharLeft(s[1..], c) else s
  }

  function StripCharRight(s: string, c: char): (r: string)
    ensures |r| <= |s| && r == s[..|r|]
    ensures forall k :: |r| <= k < |s| ==> s[k] == c
    ensures r == [] || r[|r| - 1] != c
  {
    if s != [] && s[|s| - 1] == c then StripCharRight(s[..|s| - 1], c) else s
  }

  /** `s.strip(c)` for one character `c`: drops every leading and trailing `c`. */
  function StripChar(s: string, c: char): (r: string)
  {
    StripCharRight(StripCharLeft(s, c), c)
  }

  /** A run of `c` in front of a string that does not start with `c` is all `strip` drops there. */
  lemma {:induction false} StripLeftRun(p: string, t: string, c: char)
    requires forall k :: 0 <= k < |p| ==> p[k] == c
    requires t == [] || t[0] != c
    decreases |p|
    ensures StripCharLeft(p + t, c) == t
  {
    if p != [] {
      assert (p + t)[1..] == p[1..] + t;
      StripLeftRun(p[1..], t, c);
    }
  }

  /** A run of `c` after a string that does not end with `c` is all `strip` drops there. */
  lemma {:induction false} StripRightRun(t: string, p: string, c: char)
    requires forall k :: 0 <= k < |p| ==> p[k] == c
    requires t == [] || t[|t| - 1] != c
    decreases |p|
    ensures StripCharRight(t + p, c) == t
  {
    if p != [] {
      assert (t + p)[..|t + p| - 1] == t + p[..|p| - 1];
      StripRightRun(t, p[..|p| - 1], c);
    }
  }

  // ---------------------------------------------------------------------------
  // str.split() with no argument: whitespace-separated tokens

  function FirstSpace(s: string): (i: nat)
    ensures i <= |s|
    ensures i < |s| ==> IsSpace(s[i])
    ensures forall k :: 0 <= k < i ==> !IsSpace(s[k])
  {
    if s == [] || IsSpace(s[0]) then 0 else 1 + FirstSpace(s[1..])
  }

  /** `s.split()`: the maximal runs of non-whitespace, in order. */
  function Tokens(s: string): (r: seq<string>)
    decreases |s|
    ensures forall k :: 0 <= k < |r| ==> r[k] != []
    ensures forall k, j :: 0 <= k < |r| && 0 <= j < |r[k]| ==> !IsSpace(r[k][j])
  {
    var i := FirstSpace(s);
    (if i > 0 then [s[..i]] else []) + (if i < |s| then Tokens(s[i + 1..]) else [])
  }

  /** A single word with no whitespace in it is its own only token. */
  lemma TokensOfWord(w: string)
    requires w != [] && forall k :: 0 <= k < |w| ==> !IsSpace(w[k])
    ensures Tokens(w) == [w]
  {
    FirstSpaceIs(w, |w|);
    assert w[..|w|] == w;
  }

  /** The tokens of a list of strings, end to end. */
  function FlatTokens(ws: seq<string>): seq<string>
  {
    if ws == [] then [] else Tokens(ws[0]) + FlatTokens(ws[1..])
  }

  /** `FirstSpace` is the only index with its two properties. */
  lemma FirstSpaceIs(s: string, i: nat)
    requires i <= |s| && (i < |s| ==> IsSpace(s[i]))
    requires forall k :: 0 <= k < i ==> !IsSpace(s[k])
    ensures FirstSpace(s) == i
  {
  }

  /** `Tokens` unfolded at an index known to be the first whitespace. */
  lemma TokensSplitAt(s: string, i: nat)
    requires i <= |s| && (i < |s| ==> IsSpace(s[i]))
    requires forall k :: 0 <= k < i ==> !IsSpace(s[k])
    ensures Tokens(s) == (if i > 0 then [s[..i]] else []) + (if i < |s| then Tokens(s[i + 1..]) else [])
  {
    FirstSpaceIs(s, i);
  }

  /** `a + [c] + b` with `c` a space, seen from its first whitespace, which lies at or before `c`. */
  lemma AroundSplit(a: string, c: char, b: string, ia: nat)
    requires IsSpace(c) && ia == FirstSpace(a)
    ensures var s := a + [c] + b;
      ia < |s| && IsSpace(s[ia]) && (forall k :: 0 <= k < ia ==> !IsSpace(s[k]))
      && s[..ia] == a[..ia]
      && s[ia + 1..] == if ia == |a| then b else a[ia + 1..] + [c] + b
  {
    var s := a + [c] + b;
    forall k | 0 <= k < ia ensures !IsSpace(s[k]) {
      assert s[k] == a[k];
    }
  }

  lemma {:induction false} TokensAround(a: string, c: char, b: string)
    requires IsSpace(c)
    decreases |a|
    ensures Tokens(a + [c] + b) == Tokens(a) + Tokens(b)
  {
    var s := a + [c] + b;
    var ia := FirstSpace(a);
    var h: seq<string> := if ia > 0 then [a[..ia]] else [];
    AroundSplit(a, c, b, ia);
    TokensSplitAt(s, ia);
    TokensSplitAt(a, ia);
    if ia < |a| {
      var rest := a[ia + 1..];
      TokensAround(rest, c, b);
      calc {
        Tokens(s);
        h + Tokens(rest + [c] + b);
        h + (Tokens(rest) + Tokens(b));
        { AppendAssoc(h, Tokens(rest), Tokens(b)); }
        h + Tokens(rest) + Tokens(b);
        Tokens(a) + Tokens(b);
      }
    } else {
      calc {
        Tokens(s);
        h + Tokens(b);
        { assert Tokens(a) == h + [] == h; }
        Tokens(a) + Tokens(b);
      }
    }
  }

  lemma {:induction false} TokensOfSpaces(s: string)
    requires AllSpace(s)
    decreases |s|
    ensures Tokens(s) == []
  {
    if s != [] {
      assert FirstSpace(s) == 0;
      TokensOfSpaces(s[1..]);
    }
  }

  lemma {:induction false} TokensTrimLeft(s: string)
    decreases |s|
    ensures Tokens(TrimLeft(s)) == Tokens(s)
  {
    if s != [] && IsSpace(s[0]) {
      assert FirstSpace(s) == 0;
      TokensTrimLeft(s[1..]);
    }
  }

  lemma {:induction false} TokensTrimRight(s: string)
    decreases |s|
    ensures Tokens(TrimRight(s)) == Tokens(s)
  {
    if s != [] && IsSpace(s[|s| - 1]) {
      var p := s[..|s| - 1];
      assert s == p + [s[|s| - 1]] + [];
      TokensAround(p, s[|s| - 1], []);
      TokensOfSpaces([]);
      TokensTrimRight(p);
    }
  }

  /** Stripping never changes the tokens of a string. */
  lemma TokensStrip(s: string)
    ensures Tokens(Strip(s)) == Tokens(s)
  {
    TokensTrimLeft(s);
    TokensTrimRight(TrimLeft(s));
  }

  /** `(line + ' ' + w).strip()` has the tokens of `line` followed by those of `w`. */
  lemma TokensOfJoinedWord(line: string, w: string)
    ensures Tokens(Strip(line + " " + w)) == Tokens(line) + Tokens(w)
  {
    TokensStrip(line + " " + w);
    assert line + " " + w == line + [' '] + w;
    TokensAround(line, ' ', w);
  }

  /** The tokens of the words joined by single spaces are the words' tokens. */
  lemma {:induction false} TokensJoin(ws: seq<string>)
    ensures Tokens(Join(ws, ' ')) == FlatTokens(ws)
  {
    if ws == [] {
      TokensOfSpaces([]);
    } else if |ws| == 1 {
      assert FlatTokens(ws[1..]) == [];
    } else {
      TokensAround(ws[0], ' ', Join(ws[1..], ' '));
      TokensJoin(ws[1..]);
    }
  }

  // ---------------------------------------------------------------------------
  // str.splitlines()

  /** The line boundaries `str.splitlines` recognises (`\r\n` is handled as one). */
  predicate IsLineBreak(c: char)
  {
    var n := c as int;
    (10 <= n <= 13) || (28 <= n <= 30) || n == 0x85 || n == 0x2028 || n == 0x2029
  }

  function FirstBreak(s: string): (i: nat)
    ensures i <= |s|
    ensures i < |s| ==> IsLineBreak(s[i])
    ensures forall k :: 0 <= k < i ==> !IsLineBreak(s[k])
  {
    if s == [] || IsLineBreak(s[0]) then 0 else 1 + FirstBreak(s[1..])
  }

  /** Length of the line boundary that starts at `s[i]`. */
  function BreakLength(s: string, i: nat): nat
    requires i < |s|
  {
    if s[i] == '\r' && i + 1 < |s| && s[i + 1] == '\n' then 2 else 1
  }

  /** `s.splitlines()`: no trailing empty line, and `''` gives no lines at all. */
  function SplitLines(s: string): (r: seq<string>)
    decreases |s|
  {
    if s == [] then []
    else
      var i := FirstBreak(s);
      if i == |s| then [s] else [s[..i]] + SplitLines(s[i + BreakLength(s, i)..])
  }

  predicate NoLineBreak(s: string)
  {
    forall k :: 0 <= k < |s| ==> !IsLineBreak(s[k])
  }

  lemma FirstBreakIs(s: string, i: nat)
    requires i < |s| && IsLineBreak(s[i]) && NoLineBreak(s[..i])
    ensures FirstBreak(s) == i
  {
    assert forall k :: 0 <= k < i ==> s[k] == s[..i][k];
  }

  /** A line without a boundary, ended by `\n`, is the first line. */
  lemma SplitLinesCons(a: string, rest: string)
    requires NoLineBreak(a)
    ensures SplitLines(a + ("\n" + rest)) == [a] + SplitLines(rest)
  {
    var s := a + ("\n" + rest);
    assert s[|a|] == '\n' && s[..|a|] == a && s[|a| + 1..] == rest;
    FirstBreakIs(s, |a|);
    assert BreakLength(s, |a|) == 1;
    assert SplitLines(s) == [s[..|a|]] + SplitLines(s[|a| + 1..]);
  }

  /** No line of `splitlines` holds a line boundary. */
  lemma {:induction false} SplitLinesNoBreak(s: string)
    decreases |s|
    ensures var r := SplitLines(s);
      forall k, j :: 0 <= k < |r| && 0 <= j < |r[k]| ==> !IsLineBreak(r[k][j])
  {
    if s != [] {
      var i := FirstBreak(s);
      if i < |s| {
        var t := s[i + BreakLength(s, i)..];
        SplitLinesNoBreak(t);
        var r := SplitLines(s);
        assert r == [s[..i]] + SplitLines(t);
        forall k, j | 0 < k < |r| && 0 <= j < |r[k]| ensures !IsLineBreak(r[k][j]) {
          assert r[k] == SplitLines(t)[k - 1];
        }
      }
    }
  }

  /** The boundary that ended each line of `SplitLines(s)` (`""` for a last line without one). */
  function LineEnds(s: string): (r: seq<string>)
    decreases |s|
    ensures |r| == |SplitLines(s)|
    ensures EndsOfLines(r)
  {
    if s == [] then []
    else
      var i := FirstBreak(s);
      if i == |s| then [""]
      else
        var e := s[i..i + BreakLength(s, i)];
        var rest := LineEnds(s[i + BreakLength(s, i)..]);
        BreakIsLineEnd(s, i);
        EndsCons(e, rest);
        [e] + rest
  }

  /** A line boundary as `splitlines` consumes it: `\r\n`, or one boundary character. */
  predicate IsLineEnd(e: string)
  {
    e == "\r\n" || (|e| == 1 && IsLineBreak(e[0]))
  }

  /** The ends of the lines: boundaries, except that the last line may have none. */
  predicate EndsOfLines(r: seq<string>)
  {
    forall k :: 0 <= k < |r| ==> IsLineEnd(r[k]) || (r[k] == "" && k == |r| - 1)
  }

  lemma BreakIsLineEnd(s: string, i: nat)
    requires i < |s| && IsLineBreak(s[i])
    ensures IsLineEnd(s[i..i + BreakLength(s, i)])
  {
    if BreakLength(s, i) == 2 {
      assert s[i..i + 2] == [s[i], s[i + 1]];
    } else {
      assert s[i..i + 1] == [s[i]];
    }
  }

  lemma EndsCons(e: string, rest: seq<string>)
    requires IsLineEnd(e) && EndsOfLines(rest)
    ensures EndsOfLines([e] + rest)
  {
    forall k | 0 < k < 1 + |rest| ensures IsLineEnd(([e] + rest)[k]) || (([e] + rest)[k] == "" && k == |rest|) {
      assert ([e] + rest)[k] == rest[k - 1];
    }
  }

  /** Each line followed by its boundary, end to end: `''.join(s.splitlines(keepends=True))`. */
  function Rejoin(lines: seq<string>, ends: seq<string>): string
    requires |lines| == |ends|
  {
    if lines == [] then [] else lines[0] + ends[0] + Rejoin(lines[1..], ends[1..])
  }

  /** Nothing is lost by `splitlines`: the lines and their boundaries give back the string. */
  lemma {:induction false} SplitLinesRejoin(s: string)
    decreases |s|
    ensures Rejoin(SplitLines(s), LineEnds(s)) == s
  {
    if s != [] {
      var i := FirstBreak(s);
      if i < |s| {
        var n := BreakLength(s, i);
        var t := s[i + n..];
        assert SplitLines(s) == [s[..i]] + SplitLines(t);
        assert LineEnds(s) == [s[i..i + n]] + LineEnds(t);
        SplitLinesRejoin(t);
        RejoinCons(s[..i], SplitLines(t), s[i..i + n], LineEnds(t));
        Slices3(s, i, i + n);
      } else {
        RejoinCons(s, [], "", []);
      }
    }
  }

  lemma RejoinCons(line: string, lines: seq<string>, end: string, ends: seq<string>)
    requires |lines| == |ends|
    ensures Rejoin([line] + lines, [end] + ends) == line + end + Rejoin(lines, ends)
  {
    assert ([line] + lines)[1..] == lines && ([end] + ends)[1..] == ends;
  }

  // ---------------------------------------------------------------------------
  // repr() of a str, and str() of a bool

  function HexDigit(d: nat): char
    requires d < 16
  {
    if d < 10 then ('0' as int + d) as char else ('a' as int + d - 10) as char
  }

  /** The quote `repr` puts around `s`: double quotes only when `s` has a `'` and no `"`. */
  function ReprQuote(s: string): char
  {
    if '\'' in s && '"' !in s then '"' else '\''
  }

  function ReprChar(c: char, q: char): string
  {
    var n := c as int;
    if c == q || c == '\\' then ['\\', c]
    else if c == '\t' then "\\t"
    else if c == '\n' then "\\n"
    else if c == '\r' then "\\r"
    else if n < 32 || (0x7F <= n <= 0xA0) || n == 0xAD then ['\\', 'x', HexDigit(n / 16), HexDigit(n % 16)]
    else [c]
  }

  function ReprBody(s: string, q: char): string
  {
    if s == [] then [] else ReprChar(s[0], q) + ReprBody(s[1..], q)
  }

  /** `repr(s)` for a str. */
  function Repr(s: string): (r: string)
    ensures |r| >= 2 && r[0] == r[|r| - 1] == ReprQuote(s)
  {
    var q := ReprQuote(s);
    [q] + ReprBody(s, q) + [q]
  }

  /** `str(b)` for a bool. */
  function BoolText(b: bool): string
  {
    if b then "True" else "False"
  }
}
