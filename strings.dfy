/** Text primitives with the semantics of the Python `str` operations the
    pipeline relies on: `isspace`, `strip`, `lower`, `startswith`, `in`,
    `replace`, `split()`, `splitlines()`, `join` and the ordering `<`. */
module Strings {

  /** Python's `str.isspace` on a single character (the full Unicode set). */
  predicate IsSpace(c: char) {
    c == ' ' || c == '\t' || c == '\n' || c == '\r' || c == '\U{B}' || c == '\U{C}'
    || ('\U{1C}' <= c <= '\U{1F}') || c == '\U{85}' || c == '\U{A0}' || c == '\U{1680}'
    || ('\U{2000}' <= c <= '\U{200A}') || c == '\U{2028}' || c == '\U{2029}'
    || c == '\U{202F}' || c == '\U{205F}' || c == '\U{3000}'
  }

  /** The characters at which Python's `str.splitlines` ends a line. */
  predicate IsLineBreak(c: char) {
    c == '\n' || c == '\r' || c == '\U{B}' || c == '\U{C}' || c == '\U{1C}' || c == '\U{1D}'
    || c == '\U{1E}' || c == '\U{85}' || c == '\U{2028}' || c == '\U{2029}'
  }

  predicate NoSpace(s: string) {
    forall i | 0 <= i < |s| :: !IsSpace(s[i])
  }

  predicate AllSpace(s: string) {
    forall i | 0 <= i < |s| :: IsSpace(s[i])
  }

  predicate NoLineBreak(s: string) {
    forall i | 0 <= i < |s| :: !IsLineBreak(s[i])
  }

  predicate StartsWith(s: string, prefix: string) {
    |prefix| <= |s| && s[..|prefix|] == prefix
  }

  lemma StartsWithAt(s: string, prefix: string, j: nat)
    requires StartsWith(s, prefix) && j < |prefix|
    ensures s[j] == prefix[j]
  {
    assert s[..|prefix|][j] == s[j];
  }

  predicate EndsWith(s: string, suffix: string) {
    |suffix| <= |s| && s[|s| - |suffix|..] == suffix
  }

  /** Python's `sub in s`. */
  predicate Contains(s: string, sub: string) {
    StartsWith(s, sub) || (s != [] && Contains(s[1..], sub))
  }

  lemma {:induction false} ContainsAt(s: string, sub: string, i: nat)
    requires i + |sub| <= |s| && s[i..i + |sub|] == sub
    ensures Contains(s, sub)
  {
    if i > 0 {
      assert s[1..][i - 1..i - 1 + |sub|] == sub;
      ContainsAt(s[1..], sub, i - 1);
    }
  }

  /** Where `sub in s` holds, `sub` occurs at some index of `s`. */
  lemma {:induction false} ContainsWitness(s: string, sub: string) returns (i: nat)
    requires Contains(s, sub)
    ensures i + |sub| <= |s| && s[i..i + |sub|] == sub
  {
    if StartsWith(s, sub) {
      i := 0;
    } else {
      var j := ContainsWitness(s[1..], sub);
      i := j + 1;
      assert s[i..i + |sub|] == s[1..][j..j + |sub|];
    }
  }

  /** Length of the longest prefix of `s` none of whose characters satisfies `stop`. */
  function Span(s: string, stop: char -> bool): (n: nat)
    ensures n <= |s|
    ensures forall i | 0 <= i < n :: !stop(s[i])
    ensures n < |s| ==> stop(s[n])
  {
    if s == [] || stop(s[0]) then 0 else 1 + Span(s[1..], stop)
  }

  /** Python's `str.lstrip()`. */
  function LStrip(s: string): (r: string)
    ensures r == [] || !IsSpace(r[0])
  {
    if s != [] && IsSpace(s[0]) then LStrip(s[1..]) else s
  }

  /** Python's `str.rstrip()`. */
  function RStrip(s: string): (r: string)
    ensures |r| <= |s| && r == s[..|r|]
    ensures AllSpace(s[|r|..])
    ensures r == [] || !IsSpace(r[|r| - 1])
  {
    if s != [] && IsSpace(s[|s| - 1]) then
      var init := s[..|s| - 1];
      var r := RStrip(init);
      assert s[..|r|] == init[..|r|];
      assert s[|r|..] == init[|r|..] + [s[|s| - 1]];
      r
    else s
  }

  /** Trailing white space after a last non-space character is exactly what `rstrip` removes. */
  lemma {:induction false} RStripPadded(a: string, pad: string)
    requires AllSpace(pad) && (a == [] || !IsSpace(a[|a| - 1]))
    ensures RStrip(a + pad) == a
    decreases |pad|
  {
    if pad == [] {
      assert a + pad == a;
    } else {
      var s := a + pad;
      assert s[..|s| - 1] == a + pad[..|pad| - 1];
      RStripPadded(a, pad[..|pad| - 1]);
    }
  }

  /** Python's `str.strip()`. */
  function Strip(s: string): string {
    RStrip(LStrip(s))
  }

  /** `strip` leaves nothing of an all-space string, and otherwise a string that
      neither starts nor ends with white space. */
  lemma StripShape(s: string)
    ensures Strip(s) == [] <==> AllSpace(s)
    ensures Strip(s) != [] ==> !IsSpace(Strip(s)[0]) && !IsSpace(Strip(s)[|Strip(s)| - 1])
    ensures |Strip(s)| <= |s|
  {
    var a, b := StripBounds(s);
    if Strip(s) != [] {
      assert Strip(s)[0] == LStrip(s)[0];
      assert Strip(s)[0] == s[a];
    }
  }

  /** A non-empty `strip` ends with a visible character. */
  lemma StripLast(s: string)
    requires Strip(s) != []
    ensures !IsSpace(Strip(s)[|Strip(s)| - 1])
  {
  }

  /** A string with no surrounding white space is its own strip. */
  lemma StripUnpadded(s: string)
    requires s != [] && !IsSpace(s[0]) && !IsSpace(s[|s| - 1])
    ensures Strip(s) == s
  {
  }

  function LowerChar(c: char): char {
    if 'A' <= c <= 'Z' then (c as int + 32) as char else c
  }

  /** Python's `str.lower()`, restricted to the ASCII letters. */
  function Lower(s: string): (r: string)
    ensures |r| == |s|
    ensures forall i | 0 <= i < |s| :: r[i] == LowerChar(s[i])
  {
    seq(|s|, i requires 0 <= i < |s| => LowerChar(s[i]))
  }

  /** Lower-casing never turns a non-space into a space or back. */
  lemma LowerCharSpace(c: char)
    ensures IsSpace(LowerChar(c)) <==> IsSpace(c)
  {
  }

  lemma {:induction false} LStripBounds(s: string) returns (a: nat)
    ensures a <= |s| && LStrip(s) == s[a..]
    ensures forall k | 0 <= k < a :: IsSpace(s[k])
  {
    if s != [] && IsSpace(s[0]) {
      var a' := LStripBounds(s[1..]);
      a := a' + 1;
      assert s[1..][a'..] == s[a..];
      forall k | 1 <= k < a ensures IsSpace(s[k]) {
        assert s[1..][k - 1] == s[k];
      }
    } else {
      a := 0;
    }
  }

  lemma {:induction false} RStripBounds(s: string) returns (b: nat)
    ensures b <= |s| && RStrip(s) == s[..b]
    ensures forall k | b <= k < |s| :: IsSpace(s[k])
  {
    if s != [] && IsSpace(s[|s| - 1]) {
      var init := s[..|s| - 1];
      b := RStripBounds(init);
      assert init[..b] == s[..b];
      forall k | b <= k < |s| - 1 ensures IsSpace(s[k]) {
        assert init[k] == s[k];
      }
    } else {
      b := |s|;
    }
  }

  /** Stripping a line leaves a line. */
  lemma StripNoLineBreak(s: string)
    requires NoLineBreak(s)
    ensures NoLineBreak(Strip(s))
  {
    var a := LStripBounds(s);
    var l := s[a..];
    var b := RStripBounds(l);
    forall q | 0 <= q < b ensures !IsLineBreak(Strip(s)[q]) {
      assert Strip(s)[q] == s[a + q];
    }
  }

  /** `strip` cuts a slice out of `s` with only white space outside it. */
  lemma StripBounds(s: string) returns (a: nat, b: nat)
    ensures a <= b <= |s| && Strip(s) == s[a..b]
    ensures forall k | 0 <= k < a :: IsSpace(s[k])
    ensures forall k | b <= k < |s| :: IsSpace(s[k])
  {
    var l := LStrip(s);
    a := LStripBounds(s);
    b := TrimBounds(s, a, l, RStrip(l));
  }

  /** A suffix `l == s[a..]` after white space, and `r` cut from the start of `l` before
      white space, is a slice of `s` with white space outside it. */
  lemma TrimBounds(s: string, a: nat, l: string, r: string) returns (b: nat)
    requires a <= |s| && l == s[a..] && forall k | 0 <= k < a :: IsSpace(s[k])
    requires |r| <= |l| && r == l[..|r|] && AllSpace(l[|r|..])
    ensures a <= b <= |s| && r == s[a..b]
    ensures forall k | b <= k < |s| :: IsSpace(s[k])
  {
    b := a + |r|;
    SliceOfSuffix(s, a, |r|);
    SpaceSuffix(s, a, |r|);
  }

  lemma SliceOfSuffix(s: string, a: nat, c: nat)
    requires a + c <= |s|
    ensures s[a..][..c] == s[a..a + c]
  {
  }

  lemma SpaceSuffix(s: string, a: nat, c: nat)
    requires a + c <= |s| && AllSpace(s[a..][c..])
    ensures forall k | a + c <= k < |s| :: IsSpace(s[k])
  {
    forall k | a + c <= k < |s| ensures IsSpace(s[k]) {
      assert s[a..][c..][k - a - c] == s[k];
    }
  }

  lemma LowerSlice(s: string, a: nat, b: nat)
    requires a <= b <= |s|
    ensures Lower(s[a..b]) == Lower(s)[a..b]
  {
  }

  /** The first and the last character of an occurrence found by `ContainsWitness`. */
  lemma OccurrenceEnds(t: string, sub: string, i: nat)
    requires sub != [] && i + |sub| <= |t| && t[i..i + |sub|] == sub
    ensures t[i] == sub[0] && t[i + |sub| - 1] == sub[|sub| - 1]
  {
    assert t[i..i + |sub|][0] == t[i];
    assert t[i..i + |sub|][|sub| - 1] == t[i + |sub| - 1];
  }

  lemma LowerNotSpace(s: string, i: nat)
    requires i < |s| && !IsSpace(Lower(s)[i])
    ensures !IsSpace(s[i])
  {
    LowerCharSpace(s[i]);
  }

  /** A non-space character lies inside the bounds `strip` keeps. */
  lemma InsideStrip(s: string, a: nat, b: nat, i: nat)
    requires a <= b <= |s| && i < |s| && !IsSpace(s[i])
    requires forall k | 0 <= k < a :: IsSpace(s[k])
    requires forall k | b <= k < |s| :: IsSpace(s[k])
    ensures a <= i < b
  {
  }

  /** `strip` keeps everything from one non-space character to another. */
  lemma StripKeeps(s: string, i: nat, j: nat) returns (a: nat, b: nat)
    requires i <= j < |s| && !IsSpace(s[i]) && !IsSpace(s[j])
    ensures a <= i && j < b <= |s| && Strip(s) == s[a..b]
  {
    a, b := StripBounds(s);
    InsideStrip(s, a, b, i);
    InsideStrip(s, a, b, j);
  }

  /** A lower-cased occurrence of a word with non-space ends survives `strip`:
      `sub in s.lower()` gives `sub in s.strip().lower()`. */
  lemma ContainsLowerStrip(s: string, sub: string)
    requires sub != [] && !IsSpace(sub[0]) && !IsSpace(sub[|sub| - 1])
    requires Contains(Lower(s), sub)
    ensures Contains(Lower(Strip(s)), sub)
  {
    var i := VisibleOccurrence(s, sub);
    var j := OccurrenceSurvivesStrip(s, sub, i);
    ContainsAt(Lower(Strip(s)), sub, j);
  }

  /** An occurrence, in the lower-cased text, of a word with non-space ends starts and
      ends on non-space characters of the text itself. */
  lemma VisibleOccurrence(s: string, sub: string) returns (i: nat)
    requires sub != [] && !IsSpace(sub[0]) && !IsSpace(sub[|sub| - 1])
    requires Contains(Lower(s), sub)
    ensures i + |sub| <= |s| && Lower(s)[i..i + |sub|] == sub
    ensures !IsSpace(s[i]) && !IsSpace(s[i + |sub| - 1])
  {
    var ls := Lower(s);
    i := ContainsWitness(ls, sub);
    OccurrenceEnds(ls, sub, i);
    LowerNotSpace(s, i);
    LowerNotSpace(s, i + |sub| - 1);
  }

  /** An occurrence with non-space ends lies inside what `strip` keeps, so it is found
      in the lower-cased stripped text too. */
  lemma OccurrenceSurvivesStrip(s: string, sub: string, i: nat) returns (j: nat)
    requires sub != [] && i + |sub| <= |s| && Lower(s)[i..i + |sub|] == sub
    requires !IsSpace(s[i]) && !IsSpace(s[i + |sub| - 1])
    ensures j + |sub| <= |Lower(Strip(s))| && Lower(Strip(s))[j..j + |sub|] == sub
  {
    var a, b := StripKeeps(s, i, i + |sub| - 1);
    LowerStripSlice(s, a, b);
    j := OccurrenceShift(Lower(s), Lower(Strip(s)), sub, a, b, i);
  }

  lemma LowerStripSlice(s: string, a: nat, b: nat)
    requires a <= b <= |s| && Strip(s) == s[a..b]
    ensures Lower(Strip(s)) == Lower(s)[a..b]
  {
    LowerSlice(s, a, b);
  }

  /** An occurrence inside `t[a..b]` sits `a` places earlier in that slice. */
  lemma OccurrenceShift(t: string, u: string, sub: string, a: nat, b: nat, i: nat) returns (j: nat)
    requires a <= i && i + |sub| <= b <= |t| && u == t[a..b] && t[i..i + |sub|] == sub
    ensures j + |sub| <= |u| && u[j..j + |sub|] == sub
  {
    j := i - a;
    forall k | 0 <= k < |sub|
      ensures u[j..j + |sub|][k] == sub[k]
    {
      assert u[j..j + |sub|][k] == t[a..b][j + k] == t[i + k] == t[i..i + |sub|][k];
    }
    assert u[j..j + |sub|] == sub;
  }

  /** Python's `s.replace(pat, rep)`: every non-overlapping occurrence, left to right. */
  function Replace(s: string, pat: string, rep: string): string
    requires pat != []
    decreases |s|
  {
    if |s| < |pat| then s
    else if s[..|pat|] == pat then rep + Replace(s[|pat|..], pat, rep)
    else [s[0]] + Replace(s[1..], pat, rep)
  }

  /** A string that does not contain the pattern is left unchanged. */
  lemma {:induction false} ReplaceAbsent(s: string, pat: string, rep: string)
    requires pat != [] && !Contains(s, pat)
    ensures Replace(s, pat, rep) == s
  {
    if |s| >= |pat| {
      ReplaceAbsent(s[1..], pat, rep);
    }
  }

  /** Replacing single characters keeps the length and leaves no occurrence behind. */
  lemma {:induction false} ReplaceChar(s: string, pat: char, rep: char)
    requires pat != rep
    ensures |Replace(s, [pat], [rep])| == |s|
    ensures forall i | 0 <= i < |s| :: Replace(s, [pat], [rep])[i] == if s[i] == pat then rep else s[i]
  {
    if |s| >= 1 {
      ReplaceChar(s[1..], pat, rep);
    }
  }

  /** Python's `s.rfind(c)`: the last index of `c` in `s`, or -1. */
  function RFind(s: string, c: char): (r: int)
    ensures -1 <= r < |s|
    ensures r >= 0 ==> s[r] == c
    ensures forall j | r < j < |s| :: s[j] != c
  {
    if s == [] then -1
    else if s[|s| - 1] == c then |s| - 1
    else RFind(s[..|s| - 1], c)
  }

  /** Python's `s.find(c)`: the first index of `c` in `s`, or -1. */
  function Find(s: string, c: char): (r: int)
    ensures -1 <= r < |s|
    ensures r >= 0 ==> s[r] == c
    ensures forall j | 0 <= j < |s| && (r < 0 || j < r) :: s[j] != c
  {
    if s == [] then -1
    else if s[0] == c then 0
    else
      var r := Find(s[1..], c);
      if r < 0 then -1 else r + 1
  }

  /** Python's `sep.join(parts)`. */
  function Join(parts: seq<string>, sep: string): string {
    if parts == [] then ""
    else if |parts| == 1 then parts[0]
    else parts[0] + sep + Join(parts[1..], sep)
  }

  lemma JoinAppend(parts: seq<string>, last: string, sep: string)
    ensures Join(parts + [last], sep) == if parts == [] then last else Join(parts, sep) + sep + last
  {
    if |parts| > 1 {
      assert (parts + [last])[1..] == parts[1..] + [last];
      JoinAppend(parts[1..], last, sep);
    } else if |parts| == 1 {
      assert (parts + [last])[1..] == [last];
    }
  }

  /** Python's `str.split()` with no separator: maximal runs of non-space characters. */
  function Words(s: string): (r: seq<string>)
    ensures forall k | 0 <= k < |r| :: r[k] != [] && NoSpace(r[k])
    decreases |s|
  {
    if s == [] then []
    else if IsSpace(s[0]) then Words(s[1..])
    else
      var n := Span(s, IsSpace);
      [s[..n]] + Words(s[n..])
  }

  lemma Associative<T>(p: seq<T>, x: seq<T>, y: seq<T>)
    ensures p + (x + y) == (p + x) + y
  {
  }

  /** Unfolds `Words` at a word: the word up to the first space, then the rest. */
  lemma WordsSplit(s: string, n: nat)
    requires s != [] && !IsSpace(s[0]) && n == Span(s, IsSpace)
    ensures Words(s) == [s[..n]] + Words(s[n..])
  {
  }

  lemma SliceOfSeparated(a: string, sp: char, b: string, k: nat)
    requires k <= |a|
    ensures (a + [sp] + b)[..k] == a[..k]
    ensures (a + [sp] + b)[k..] == a[k..] + [sp] + b
  {
  }

  /** Words separated by white space split apart: `(a + " " + b).split() == a.split() + b.split()`. */
  lemma {:induction false} WordsConcat(a: string, sp: char, b: string)
    requires IsSpace(sp)
    ensures Words(a + [sp] + b) == Words(a) + Words(b)
    decreases |a|
  {
    var s := a + [sp] + b;
    if a == [] {
      assert s[1..] == b;
    } else if IsSpace(a[0]) {
      SliceOfSeparated(a, sp, b, 1);
      WordsConcat(a[1..], sp, b);
    } else {
      var n := Span(a, IsSpace);
      assert s == a + ([sp] + b);
      SpanConcat(a, [sp] + b, IsSpace);
      SliceOfSeparated(a, sp, b, n);
      WordsSplit(s, n);
      WordsSplit(a, n);
      WordsConcat(a[n..], sp, b);
      Associative([a[..n]], Words(a[n..]), Words(b));
    }
  }

  /** A run that stops inside `a` stops at the same place in `a + b`. */
  lemma {:induction false} SpanConcat(a: string, b: string, stop: char -> bool)
    requires Span(a, stop) < |a| || (b != [] && stop(b[0]))
    ensures Span(a + b, stop) == Span(a, stop)
  {
    if a != [] && !stop(a[0]) {
      assert (a + b)[1..] == a[1..] + b;
      SpanConcat(a[1..], b, stop);
    }
  }

  /** A non-empty string without white space is a single word. */
  lemma WordsSingle(w: string)
    requires w != [] && NoSpace(w)
    ensures Words(w) == [w]
  {
    var n := Span(w, IsSpace);
    assert !IsSpace(w[0]);
    assert n == |w|;
    assert w[..n] == w && w[n..] == [];
  }

  /** Trailing white space adds no word. */
  lemma {:induction false} WordsTrailing(a: string, pad: string)
    requires AllSpace(pad)
    ensures Words(a + pad) == Words(a)
    decreases |pad|
  {
    if pad == [] {
      assert a + pad == a;
    } else {
      var init := pad[..|pad| - 1];
      var last := pad[|pad| - 1];
      assert AllSpace(init);
      assert IsSpace(last);
      WordsConcat(a + init, last, []);
      assert a + init + [last] + [] == a + pad;
      WordsTrailing(a, init);
    }
  }

  /** `s.lstrip().split() == s.split()`. */
  lemma {:induction false} WordsLStrip(s: string)
    ensures Words(LStrip(s)) == Words(s)
    decreases |s|
  {
    if s != [] && IsSpace(s[0]) {
      WordsLStrip(s[1..]);
    }
  }

  /** `s.rstrip().split() == s.split()`. */
  lemma {:induction false} WordsRStrip(s: string)
    ensures Words(RStrip(s)) == Words(s)
    decreases |s|
  {
    if s != [] && IsSpace(s[|s| - 1]) {
      var init := s[..|s| - 1];
      WordsRStrip(init);
      WordsConcat(init, s[|s| - 1], []);
      assert init + [s[|s| - 1]] + [] == s;
    }
  }

  /** `s.strip().split() == s.split()`. */
  lemma WordsStrip(s: string)
    ensures Words(Strip(s)) == Words(s)
  {
    WordsLStrip(s);
    WordsRStrip(LStrip(s));
    assert Strip(s) == RStrip(LStrip(s));
  }

  /** Python's `str.splitlines()`: a line break ends a line, `"\r\n"` counts as one,
      and a break at the very end does not start an empty last line. */
  function SplitLines(s: string): (r: seq<string>)
    ensures forall k | 0 <= k < |r| :: NoLineBreak(r[k])
    decreases |s|
  {
    if s == [] then []
    else
      var n := Span(s, IsLineBreak);
      if n == |s| then [s]
      else
        var skip := if s[n] == '\r' && n + 1 < |s| && s[n + 1] == '\n' then 2 else 1;
        [s[..n]] + SplitLines(s[n + skip..])
  }

  /** A line followed by `"\n"` is split off as the first line. */
  lemma SplitLinesCons(line: string, rest: string)
    requires NoLineBreak(line)
    ensures SplitLines(line + "\n" + rest) == [line] + SplitLines(rest)
  {
    var s := line + "\n" + rest;
    SpanConcat(line, "\n" + rest, IsLineBreak);
    assert line + "\n" + rest == line + ("\n" + rest);
    assert s[..|line|] == line;
    assert s[|line| + 1..] == rest;
  }

  /** The text of `lines`, each ended by `"\n"`. */
  function Terminated(lines: seq<string>): string {
    if lines == [] then "" else lines[0] + "\n" + Terminated(lines[1..])
  }

  /** Lines joined by `"\n"`, with one more `"\n"` at the end, are the lines terminated. */
  lemma {:induction false} JoinTerminated(lines: seq<string>)
    requires lines != []
    ensures Join(lines, "\n") + "\n" == Terminated(lines)
  {
    if |lines| > 1 {
      JoinTerminated(lines[1..]);
      Associative(lines[0] + "\n", Join(lines[1..], "\n"), "\n");
    }
  }

  /** `splitlines` gives back the lines of a terminated text. */
  lemma {:induction false} SplitLinesTerminated(lines: seq<string>)
    requires forall k | 0 <= k < |lines| :: NoLineBreak(lines[k])
    ensures SplitLines(Terminated(lines)) == lines
  {
    if lines != [] {
      SplitLinesTerminated(lines[1..]);
      SplitLinesCons(lines[0], Terminated(lines[1..]));
    }
  }

  /** Python's ordering `a < b` on strings: lexicographic by code point. */
  predicate Less(a: string, b: string) {
    if a == [] then b != []
    else if b == [] then false
    else a[0] < b[0] || (a[0] == b[0] && Less(a[1..], b[1..]))
  }

  lemma {:induction false} LessIrreflexive(a: string)
    ensures !Less(a, a)
  {
    if a != [] {
      LessIrreflexive(a[1..]);
    }
  }

  lemma {:induction false} LessTransitive(a: string, b: string, c: string)
    requires Less(a, b) && Less(b, c)
    ensures Less(a, c)
  {
    if a != [] && b != [] && c != [] && a[0] == b[0] == c[0] {
      LessTransitive(a[1..], b[1..], c[1..]);
    }
  }

  lemma {:induction false} LessTotal(a: string, b: string)
    requires a != b
    ensures Less(a, b) || Less(b, a)
  {
    if a != [] && b != [] && a[0] == b[0] {
      assert a == [a[0]] + a[1..] && b == [b[0]] + b[1..];
      LessTotal(a[1..], b[1..]);
    }
  }

  lemma LessAsymmetric(a: string, b: string)
    requires Less(a, b)
    ensures !Less(b, a)
  {
    if Less(b, a) {
      LessTransitive(a, b, a);
      LessIrreflexive(a);
    }
  }

  /** `s` is in non-decreasing order of `key`. */
  ghost predicate SortedBy<T>(s: seq<T>, key: T -> string) {
    forall i, j | 0 <= i < j < |s| :: !Less(key(s[j]), key(s[i]))
  }

  /** `s` is in strictly increasing order of `key` (so no key occurs twice). */
  ghost predicate StrictlySortedBy<T>(s: seq<T>, key: T -> string) {
    forall i, j | 0 <= i < j < |s| :: Less(key(s[i]), key(s[j]))
  }

  /** `s` is in strictly increasing string order (so no element occurs twice). */
  ghost predicate StrictlyIncreasing(s: seq<string>) {
    forall i, j | 0 <= i < j < |s| :: Less(s[i], s[j])
  }

  ghost predicate DistinctKeys<T>(s: seq<T>, key: T -> string) {
    forall i, j | 0 <= i < j < |s| :: key(s[i]) != key(s[j])
  }

  /** `a <= b <= c` gives `a <= c`, where `x <= y` is written `!Less(y, x)`. */
  lemma NotLessTransitive(a: string, b: string, c: string)
    requires !Less(b, a) && !Less(c, b)
    ensures !Less(c, a)
  {
    if Less(c, a) && a != b {
      LessTotal(a, b);
      LessTransitive(c, a, b);
    }
  }

  function Insert<T>(x: T, s: seq<T>, key: T -> string): seq<T> {
    if s == [] then [x]
    else if Less(key(s[0]), key(x)) then [s[0]] + Insert(x, s[1..], key)
    else [x] + s
  }

  lemma {:induction false} InsertPermutes<T>(x: T, s: seq<T>, key: T -> string)
    ensures multiset(Insert(x, s, key)) == multiset(s) + multiset{x}
  {
    if s != [] && Less(key(s[0]), key(x)) {
      InsertPermutes(x, s[1..], key);
      assert s == [s[0]] + s[1..];
    }
  }

  lemma {:induction false} InsertSorted<T>(x: T, s: seq<T>, key: T -> string)
    requires SortedBy(s, key)
    ensures SortedBy(Insert(x, s, key), key)
  {
    if s == [] {
    } else if Less(key(s[0]), key(x)) {
      var t := Insert(x, s[1..], key);
      InsertSorted(x, s[1..], key);
      InsertPermutes(x, s[1..], key);
      forall j | 0 <= j < |t| ensures !Less(key(t[j]), key(s[0])) {
        assert t[j] in multiset(t);
        if t[j] == x {
          LessAsymmetric(key(s[0]), key(x));
        } else {
          var k := InTail(s, t[j]);
        }
      }
      assert Insert(x, s, key) == [s[0]] + t;
    } else {
      forall j | 0 <= j < |s| ensures !Less(key(s[j]), key(x)) {
        if j > 0 {
          NotLessTransitive(key(x), key(s[0]), key(s[j]));
        }
      }
    }
  }

  /** An element of the tail of `s` sits at some position after the first. */
  lemma InTail<T>(s: seq<T>, y: T) returns (k: nat)
    requires s != [] && y in multiset(s[1..])
    ensures 0 < k < |s| && s[k] == y
  {
    assert y in s[1..];
    var i :| 0 <= i < |s| - 1 && s[1..][i] == y;
    k := i + 1;
  }

  function Identity(s: string): string {
    s
  }

  /** What Python's `sorted(s, key=...)` returns, by insertion. */
  function SortBy<T>(s: seq<T>, key: T -> string): (r: seq<T>)
    ensures multiset(r) == multiset(s)
    ensures SortedBy(r, key)
  {
    if s == [] then []
    else
      var t := SortBy(s[1..], key);
      InsertPermutes(s[0], t, key);
      InsertSorted(s[0], t, key);
      assert s == [s[0]] + s[1..];
      Insert(s[0], t, key)
  }

  /** Sorted and with distinct keys means strictly sorted. */
  lemma SortedDistinctIsStrict<T>(s: seq<T>, key: T -> string)
    requires SortedBy(s, key) && DistinctKeys(s, key)
    ensures StrictlySortedBy(s, key)
  {
    forall i, j | 0 <= i < j < |s| ensures Less(key(s[i]), key(s[j])) {
      LessTotal(key(s[i]), key(s[j]));
    }
  }

  lemma {:induction false} InsertDistinct<T>(x: T, s: seq<T>, key: T -> string)
    requires DistinctKeys(s, key)
    requires forall j | 0 <= j < |s| :: key(s[j]) != key(x)
    ensures DistinctKeys(Insert(x, s, key), key)
  {
    if s != [] && Less(key(s[0]), key(x)) {
      var t := Insert(x, s[1..], key);
      InsertDistinct(x, s[1..], key);
      InsertPermutes(x, s[1..], key);
      forall j | 0 <= j < |t| ensures key(t[j]) != key(s[0]) {
        assert t[j] in multiset(t);
        if t[j] != x {
          var k := InTail(s, t[j]);
        }
      }
      assert Insert(x, s, key) == [s[0]] + t;
    }
  }

  /** Sorting keeps keys distinct. */
  lemma {:induction false} SortByDistinct<T>(s: seq<T>, key: T -> string)
    requires DistinctKeys(s, key)
    ensures DistinctKeys(SortBy(s, key), key)
  {
    if s != [] {
      var t := SortBy(s[1..], key);
      SortByDistinct(s[1..], key);
      forall j | 0 <= j < |t| ensures key(t[j]) != key(s[0]) {
        assert t[j] in multiset(t);
        var k := InTail(s, t[j]);
      }
      InsertDistinct(s[0], t, key);
    }
  }

  /** Sorting a sequence with distinct keys gives a strictly increasing one. */
  lemma SortByStrict<T>(s: seq<T>, key: T -> string)
    requires DistinctKeys(s, key)
    ensures StrictlySortedBy(SortBy(s, key), key)
  {
    SortByDistinct(s, key);
    SortedDistinctIsStrict(SortBy(s, key), key);
  }

  /** The keys of the elements of `s` that `keep` accepts, in order. */
  function KeysWhere<T>(s: seq<T>, keep: T -> bool, key: T -> string): seq<string> {
    if s == [] then []
    else
      var last := s[|s| - 1];
      KeysWhere(s[..|s| - 1], keep, key) + (if keep(last) then [key(last)] else [])
  }

  /** `[f(x) for x in xs]`, built from the left like a loop that appends. */
  function Mapped<T>(xs: seq<T>, f: T -> string): (r: seq<string>)
    ensures |r| == |xs|
  {
    if xs == [] then [] else Mapped(xs[..|xs| - 1], f) + [f(xs[|xs| - 1])]
  }

  /** The `i`-th entry of the mapped list is `f` of the `i`-th element. */
  lemma {:induction false} MappedAt<T>(xs: seq<T>, f: T -> string, i: nat)
    requires i < |xs|
    ensures Mapped(xs, f)[i] == f(xs[i])
  {
    var init := xs[..|xs| - 1];
    if i < |init| {
      MappedAt(init, f, i);
    }
  }

  /** One more element mapped. */
  lemma MappedStep<T>(xs: seq<T>, f: T -> string, i: nat)
    requires i < |xs|
    ensures Mapped(xs[..i + 1], f) == Mapped(xs[..i], f) + [f(xs[i])]
  {
    assert xs[..i + 1][..i] == xs[..i];
  }

  /** The concatenation of `f(x)` for the elements `x` of `xs`, built from the left. */
  function Flattened<T>(xs: seq<T>, f: T -> seq<string>): seq<string> {
    if xs == [] then [] else Flattened(xs[..|xs| - 1], f) + f(xs[|xs| - 1])
  }

  /** One more element's lines appended. */
  lemma FlattenedStep<T>(xs: seq<T>, f: T -> seq<string>, i: nat)
    requires i < |xs|
    ensures Flattened(xs[..i + 1], f) == Flattened(xs[..i], f) + f(xs[i])
  {
    assert xs[..i + 1][..i] == xs[..i];
  }

  /** One more element filtered: its key is appended when it is kept. */
  lemma KeysWhereStep<T>(s: seq<T>, i: nat, keep: T -> bool, key: T -> string)
    requires i < |s|
    ensures KeysWhere(s[..i + 1], keep, key)
      == KeysWhere(s[..i], keep, key) + (if keep(s[i]) then [key(s[i])] else [])
  {
    assert s[..i + 1][..i] == s[..i];
  }

  /** Filtering distributes over concatenation. */
  lemma {:induction false} KeysWhereAppend<T>(a: seq<T>, b: seq<T>, keep: T -> bool, key: T -> string)
    ensures KeysWhere(a + b, keep, key) == KeysWhere(a, keep, key) + KeysWhere(b, keep, key)
    decreases |b|
  {
    if b == [] {
      assert a + b == a;
    } else {
      var init := b[..|b| - 1];
      assert (a + b)[..|a + b| - 1] == a + init;
      KeysWhereAppend(a, init, keep, key);
    }
  }

  /** A key is kept exactly when some accepted element carries it. */
  lemma {:induction false} KeysWhereMembership<T>(s: seq<T>, keep: T -> bool, key: T -> string, n: string)
    ensures n in KeysWhere(s, keep, key) <==> exists k | 0 <= k < |s| :: keep(s[k]) && key(s[k]) == n
  {
    if s != [] {
      var init := s[..|s| - 1];
      KeysWhereMembership(init, keep, key, n);
      if n in KeysWhere(init, keep, key) {
        var k :| 0 <= k < |init| && keep(init[k]) && key(init[k]) == n;
        assert s[k] == init[k];
      }
      if exists k | 0 <= k < |s| :: keep(s[k]) && key(s[k]) == n {
        var k :| 0 <= k < |s| && keep(s[k]) && key(s[k]) == n;
        if k < |init| {
          assert init[k] == s[k];
        }
      }
    }
  }

  /** Keys kept from a sequence with distinct keys are distinct. */
  lemma {:induction false} KeysWhereDistinct<T>(s: seq<T>, keep: T -> bool, key: T -> string)
    requires DistinctKeys(s, key)
    ensures DistinctKeys(KeysWhere(s, keep, key), Identity)
  {
    if s != [] {
      var init := s[..|s| - 1];
      var last := s[|s| - 1];
      var r := KeysWhere(init, keep, key);
      KeysWhereDistinct(init, keep, key);
      if keep(last) {
        forall i | 0 <= i < |r| ensures r[i] != key(last) {
          KeysWhereMembership(init, keep, key, r[i]);
          var k :| 0 <= k < |init| && keep(init[k]) && key(init[k]) == r[i];
          assert s[k] == init[k];
        }
      }
    }
  }

  /** Keys kept from a strictly key-ordered sequence are strictly increasing. */
  lemma {:induction false} KeysWhereIncreasing<T>(s: seq<T>, keep: T -> bool, key: T -> string)
    requires StrictlySortedBy(s, key)
    ensures StrictlyIncreasing(KeysWhere(s, keep, key))
  {
    if s != [] {
      var init := s[..|s| - 1];
      var last := s[|s| - 1];
      var r := KeysWhere(init, keep, key);
      KeysWhereIncreasing(init, keep, key);
      if keep(last) {
        forall i | 0 <= i < |r| ensures Less(r[i], key(last)) {
          KeysWhereMembership(init, keep, key, r[i]);
          var k :| 0 <= k < |init| && keep(init[k]) && key(init[k]) == r[i];
          assert s[k] == init[k];
        }
      }
    }
  }

  /** The elements of `s` with repetitions dropped, first occurrences kept in order. */
  function Unique<T(==,!new)>(s: seq<T>): (r: seq<T>)
    ensures forall x :: x in r <==> x in s
    ensures forall i, j | 0 <= i < j < |r| :: r[i] != r[j]
  {
    if s == [] then []
    else
      var r := Unique(s[..|s| - 1]);
      assert s == s[..|s| - 1] + [s[|s| - 1]];
      if s[|s| - 1] in r then r else r + [s[|s| - 1]]
  }
}
