/**
 * The handful of Python `str` operations the chatbot's string rules are built
 * from: `strip()`, `split("\n")`, `split()`, `replace(old, new)`, `lower()`,
 * `sep.join(parts)` and the substring test `t in s`.
 *
 * Whitespace and case are modelled over ASCII only: `IsSpace` is the set of
 * ASCII characters Python's `str.isspace()` accepts, and `Lower` maps 'A'..'Z'.
 */
module PyStr {

  /** The ASCII characters for which Python's `str.isspace()` holds. */
  predicate IsSpace(c: char) {
    c == ' ' || c == '\t' || c == '\n' || c == '\r' || c == '\U{B}' || c == '\U{C}'
    || ('\U{1C}' <= c <= '\U{1F}')
  }

  // ---------------------------------------------------------------------------
  // Substrings

  predicate StartsWith(s: string, prefix: string) {
    |prefix| <= |s| && s[..|prefix|] == prefix
  }

  /** Python's `t in s`: `t` occurs somewhere in `s` (the empty string always does). */
  predicate Contains(s: string, t: string)
    decreases |s|
  {
    StartsWith(s, t) || (s != [] && Contains(s[1..], t))
  }

  lemma {:induction false} ContainsAt(s: string, t: string, i: nat)
    requires i + |t| <= |s| && s[i..i + |t|] == t
    ensures Contains(s, t)
    decreases i
  {
    if i > 0 {
      assert s[1..][i - 1..i - 1 + |t|] == s[i..i + |t|];
      ContainsAt(s[1..], t, i - 1);
    }
  }

  lemma {:induction false} ContainsIndex(s: string, t: string) returns (i: nat)
    requires Contains(s, t)
    ensures i + |t| <= |s| && s[i..i + |t|] == t
    decreases |s|
  {
    if StartsWith(s, t) {
      i := 0;
    } else {
      var j := ContainsIndex(s[1..], t);
      assert s[1..][j..j + |t|] == s[j + 1..j + 1 + |t|];
      i := j + 1;
    }
  }

  /** `t` occurs in `a + t + b`. */
  lemma ContainsInfix(a: string, t: string, b: string)
    ensures Contains(a + t + b, t)
  {
    assert (a + t + b)[|a|..|a| + |t|] == t;
    ContainsAt(a + t + b, t, |a|);
  }

  /** The substring relation is transitive. */
  lemma ContainsTransitive(s: string, t: string, u: string)
    requires Contains(s, t) && Contains(t, u)
    ensures Contains(s, u)
  {
    var i := ContainsIndex(s, t);
    var j := ContainsIndex(t, u);
    assert forall m :: 0 <= m < |u| ==> s[i + j + m] == t[j + m] == u[m];
    assert s[i + j..i + j + |u|] == u;
    ContainsAt(s, u, i + j);
  }

  /** A pattern whose first character never appears in `s` does not occur in `s`. */
  lemma {:induction false} NotContainsHead(s: string, t: string)
    requires t != [] && t[0] !in s
    ensures !Contains(s, t)
    decreases |s|
  {
    if s != [] {
      assert s[0] != t[0];
      NotContainsHead(s[1..], t);
    }
  }

  // ---------------------------------------------------------------------------
  // lower()

  function LowerChar(c: char): char {
    if 'A' <= c <= 'Z' then (c as int + 32) as char else c
  }

  /** Python's `s.lower()` restricted to ASCII letters. */
  function Lower(s: string): (r: string)
    ensures |r| == |s|
  {
    seq(|s|, i requires 0 <= i < |s| => LowerChar(s[i]))
  }

  lemma LowerConcat(a: string, b: string)
    ensures Lower(a + b) == Lower(a) + Lower(b)
  {
  }

  lemma LowerKeepsSpace(s: string)
    ensures forall k :: 0 <= k < |s| ==> (IsSpace(Lower(s)[k]) <==> IsSpace(s[k]))
  {
  }

  /** Lower-casing both sides preserves an occurrence (Python: `t in s` implies `t.lower() in s.lower()`). */
  lemma ContainsLower(s: string, t: string)
    requires Contains(s, t)
    ensures Contains(Lower(s), Lower(t))
  {
    var i := ContainsIndex(s, t);
    assert Lower(s)[i..i + |t|] == Lower(s[i..i + |t|]);
    ContainsAt(Lower(s), Lower(t), i);
  }

  // ---------------------------------------------------------------------------
  // strip()

  function TrimStart(s: string): string
    decreases |s|
  {
    if s != [] && IsSpace(s[0]) then TrimStart(s[1..]) else s
  }

  /** lstrip() removes a leading run of whitespace and stops at the first other character. */
  lemma {:induction false} TrimStartFacts(s: string)
    ensures var r := TrimStart(s);
      && |r| <= |s| && r == s[|s| - |r|..]
      && (r == [] || !IsSpace(r[0]))
      && (forall k :: 0 <= k < |s| - |r| ==> IsSpace(s[k]))
    decreases |s|
  {
    if s != [] && IsSpace(s[0]) {
      TrimStartFacts(s[1..]);
    }
  }

  function TrimEnd(s: string): string
    decreases |s|
  {
    if s != [] && IsSpace(s[|s| - 1]) then TrimEnd(s[..|s| - 1]) else s
  }

  /** rstrip() removes a trailing run of whitespace and stops at the last other character. */
  lemma {:induction false} TrimEndFacts(s: string)
    ensures var r := TrimEnd(s);
      && |r| <= |s| && r == s[..|r|]
      && (r == [] || !IsSpace(r[|r| - 1]))
      && (forall k :: |r| <= k < |s| ==> IsSpace(s[k]))
    decreases |s|
  {
    if s != [] && IsSpace(s[|s| - 1]) {
      TrimEndFacts(s[..|s| - 1]);
    }
  }

  /** Python's `s.strip()`: leading and trailing whitespace removed. */
  function Strip(s: string): string {
    TrimEnd(TrimStart(s))
  }

  /**
   * What strip() leaves: no whitespace at either end, nothing at all exactly
   * when `s` is all whitespace, and `s` itself when it has none at its ends.
   */
  lemma StripFacts(s: string)
    ensures var r := Strip(s);
      && (r == [] || (!IsSpace(r[0]) && !IsSpace(r[|r| - 1])))
      && (r == [] <==> forall k :: 0 <= k < |s| ==> IsSpace(s[k]))
      && ((s == [] || (!IsSpace(s[0]) && !IsSpace(s[|s| - 1]))) ==> r == s)
  {
    var t := TrimStart(s);
    var r := TrimEnd(t);
    TrimStartFacts(s);
    TrimEndFacts(t);
    assert r == s[|s| - |t|..|s| - |t| + |r|];
  }

  /** Every character of `s` is whitespace (true of the empty string). */
  predicate AllSpace(s: string) {
    forall k :: 0 <= k < |s| ==> IsSpace(s[k])
  }

  /** rstrip() stops inside `y` when `y` holds a non-blank character, so a prefix `x` is kept. */
  lemma {:induction false} TrimEndConcat(x: string, y: string)
    requires !AllSpace(y)
    ensures TrimEnd(x + y) == x + TrimEnd(y)
    decreases |y|
  {
    var s := x + y;
    if IsSpace(y[|y| - 1]) {
      var y' := y[..|y| - 1];
      assert s[..|s| - 1] == x + y';
      assert !AllSpace(y') by {
        var k :| 0 <= k < |y| && !IsSpace(y[k]);
        assert k < |y| - 1 && y'[k] == y[k];
      }
      TrimEndConcat(x, y');
    } else {
      assert s[|s| - 1] == y[|y| - 1];
    }
  }

  /** rstrip() removes an all-blank suffix together with whatever blanks precede it. */
  lemma {:induction false} TrimEndWhitespace(x: string, w: string)
    requires AllSpace(w)
    ensures TrimEnd(x + w) == TrimEnd(x)
    decreases |w|
  {
    if w == [] {
      assert x + w == x;
    } else {
      var s := x + w;
      assert s[|s| - 1] == w[|w| - 1];
      assert s[..|s| - 1] == x + w[..|w| - 1];
      TrimEndWhitespace(x, w[..|w| - 1]);
    }
  }

  /** lstrip() stops inside `x` when `x` holds a non-blank character, so a suffix `y` is kept. */
  lemma {:induction false} TrimStartConcat(x: string, y: string)
    requires !AllSpace(x)
    ensures TrimStart(x + y) == TrimStart(x) + y
    decreases |x|
  {
    var s := x + y;
    assert s[0] == x[0];
    if IsSpace(x[0]) {
      assert s[1..] == x[1..] + y;
      assert !AllSpace(x[1..]) by {
        var k :| 0 <= k < |x| && !IsSpace(x[k]);
        assert k > 0 && x[1..][k - 1] == x[k];
      }
      TrimStartConcat(x[1..], y);
    }
  }

  /** lstrip() of an all-blank string is empty. */
  lemma {:induction false} TrimStartAllSpace(s: string)
    requires AllSpace(s)
    ensures TrimStart(s) == []
    decreases |s|
  {
    if s != [] {
      assert AllSpace(s[1..]) by {
        assert forall k :: 0 <= k < |s| - 1 ==> s[1..][k] == s[k + 1];
      }
      TrimStartAllSpace(s[1..]);
    }
  }

  /** A concatenation of blanks is blank. */
  lemma AllSpaceConcat(x: string, w: string)
    requires AllSpace(x) && AllSpace(w)
    ensures AllSpace(x + w)
  {
    forall k | 0 <= k < |x + w|
      ensures IsSpace((x + w)[k])
    {
      if k < |x| {
        assert (x + w)[k] == x[k];
      } else {
        assert (x + w)[k] == w[k - |x|];
      }
    }
  }

  /** strip() ignores an all-blank suffix. */
  lemma StripDropsTrailingSpace(x: string, w: string)
    requires AllSpace(w)
    ensures Strip(x + w) == Strip(x)
  {
    if AllSpace(x) {
      AllSpaceConcat(x, w);
      TrimStartAllSpace(x + w);
      TrimStartAllSpace(x);
    } else {
      TrimStartConcat(x, w);
      TrimEndWhitespace(TrimStart(x), w);
    }
  }

  /** Stripping takes no character in, so a character absent from `s` is absent from `Strip(s)`. */
  lemma StripKeepsAbsent(s: string, c: char)
    requires c !in s
    ensures c !in Strip(s)
  {
    var t := TrimStart(s);
    TrimStartFacts(s);
    AbsentFromSlice(s, c, |s| - |t|, |s|);
    TrimEndFacts(t);
    AbsentFromSlice(t, c, 0, |TrimEnd(t)|);
  }

  /** Proof helper for StripKeepsAbsent, modelling nothing: a slice holds no character its text lacks. */
  lemma AbsentFromSlice(s: string, c: char, i: nat, j: nat)
    requires c !in s && i <= j <= |s|
    ensures c !in s[i..j]
  {
    assert forall k :: 0 <= k < j - i ==> s[i..j][k] == s[i + k];
  }

  // ---------------------------------------------------------------------------
  // replace(pattern, replacement)

  /**
   * Python's `s.replace(pattern, replacement)` for a non-empty pattern: the
   * occurrences found scanning left to right, without overlap, are replaced.
   */
  function Replace(s: string, pattern: string, replacement: string): (r: string)
    requires pattern != []
    ensures !Contains(s, pattern) ==> r == s
    ensures replacement == [] ==> |r| <= |s|
    decreases |s|
  {
    if |s| < |pattern| then s
    else if s[..|pattern|] == pattern then replacement + Replace(s[|pattern|..], pattern, replacement)
    else [s[0]] + Replace(s[1..], pattern, replacement)
  }

  /** An occurrence at the very start is replaced, and scanning resumes after it. */
  lemma ReplaceLeading(pattern: string, t: string, replacement: string)
    requires pattern != []
    ensures Replace(pattern + t, pattern, replacement) == replacement + Replace(t, pattern, replacement)
  {
    assert (pattern + t)[..|pattern|] == pattern;
    assert (pattern + t)[|pattern|..] == t;
  }

  /** No occurrence of `pattern` in `a + pattern + b` starts inside `a`. */
  predicate FirstOccurrence(a: string, pattern: string, b: string) {
    forall j {:trigger StartsWith(a[j..] + pattern + b, pattern)} ::
      0 <= j < |a| ==> !StartsWith(a[j..] + pattern + b, pattern)
  }

  /**
   * The leftmost occurrence is the one replaced: when the occurrence of
   * `pattern` after `a` is its first in `a + pattern + b`, `Replace` keeps
   * `a`, substitutes that occurrence and carries on with `b`. With the first
   * ensures of `Replace` this determines the result on every string.
   */
  lemma {:induction false} ReplaceFirst(a: string, pattern: string, b: string, replacement: string)
    requires pattern != []
    requires FirstOccurrence(a, pattern, b)
    ensures Replace(a + pattern + b, pattern, replacement) == a + replacement + Replace(b, pattern, replacement)
    decreases |a|
  {
    if a == [] {
      assert a + pattern + b == pattern + b;
      ReplaceLeading(pattern, b, replacement);
    } else {
      FirstOccurrenceShift(a, pattern, b);
      ReplaceFirst(a[1..], pattern, b, replacement);
      ReplaceSkipsHead(a, pattern, b, replacement);
      ConsRegroup(a, replacement, Replace(b, pattern, replacement));
    }
  }

  /** A text that contains `pattern` splits at its first occurrence. */
  lemma {:induction false} FirstOccurrenceExists(s: string, pattern: string)
    requires pattern != [] && Contains(s, pattern)
    ensures exists a, b :: s == a + pattern + b && FirstOccurrence(a, pattern, b)
    decreases |s|
  {
    if StartsWith(s, pattern) {
      var b := s[|pattern|..];
      assert s == [] + pattern + b;
      assert FirstOccurrence([], pattern, b);
    } else {
      FirstOccurrenceExists(s[1..], pattern);
      var a', b :| s[1..] == a' + pattern + b && FirstOccurrence(a', pattern, b);
      var a := [s[0]] + a';
      ConsSplit(s, a', pattern, b);
      FirstOccurrenceCons(s[0], a', pattern, b);
      assert s == a + pattern + b && FirstOccurrence(a, pattern, b);
    }
  }

  /** Proof helper for FirstOccurrenceExists, modelling nothing: re-attaches the head character. */
  lemma ConsSplit(s: string, a: string, pattern: string, b: string)
    requires s != [] && s[1..] == a + pattern + b
    ensures s == ([s[0]] + a) + pattern + b && s == [s[0]] + a + pattern + b
  {
    assert s == [s[0]] + s[1..];
  }

  /** A character that starts no occurrence may be put in front of a first occurrence. */
  lemma FirstOccurrenceCons(c: char, a: string, pattern: string, b: string)
    requires FirstOccurrence(a, pattern, b)
    requires !StartsWith([c] + a + pattern + b, pattern)
    ensures FirstOccurrence([c] + a, pattern, b)
  {
    var a' := [c] + a;
    forall j | 0 <= j < |a'|
      ensures !StartsWith(a'[j..] + pattern + b, pattern)
    {
      if j == 0 {
        assert a'[j..] + pattern + b == [c] + a + pattern + b;
      } else {
        assert a'[j..] == a[j - 1..];
      }
    }
  }

  /** The first occurrence after `a` is also the first after `a[1..]`. */
  lemma FirstOccurrenceShift(a: string, pattern: string, b: string)
    requires a != [] && FirstOccurrence(a, pattern, b)
    ensures FirstOccurrence(a[1..], pattern, b)
  {
    forall j | 0 <= j < |a| - 1
      ensures !StartsWith(a[1..][j..] + pattern + b, pattern)
    {
      assert a[1..][j..] == a[j + 1..];
    }
  }

  /** A first character that starts no occurrence is kept. */
  lemma ReplaceSkipsHead(a: string, pattern: string, b: string, replacement: string)
    requires pattern != [] && a != [] && FirstOccurrence(a, pattern, b)
    ensures Replace(a + pattern + b, pattern, replacement)
         == [a[0]] + Replace(a[1..] + pattern + b, pattern, replacement)
  {
    var s := a + pattern + b;
    assert a[0..] == a;
    assert !StartsWith(a[0..] + pattern + b, pattern);
    assert s[1..] == a[1..] + pattern + b;
  }

  /** Proof helper for ReplaceFirst, modelling nothing: regroups a concatenation around its head. */
  lemma ConsRegroup(a: string, x: string, y: string)
    requires a != []
    ensures [a[0]] + (a[1..] + x + y) == a + x + y
  {
    assert a == [a[0]] + a[1..];
  }

  // ---------------------------------------------------------------------------
  // sep.join(parts)

  /** Python's `sep.join(parts)`. */
  function Join(parts: seq<string>, sep: string): string
    decreases |parts|
  {
    if parts == [] then []
    else if |parts| == 1 then parts[0]
    else parts[0] + sep + Join(parts[1..], sep)
  }

  /** Every part occurs in the joined string. */
  lemma {:induction false} JoinContainsPart(parts: seq<string>, sep: string, k: nat)
    requires k < |parts|
    ensures Contains(Join(parts, sep), parts[k])
    decreases |parts|
  {
    if |parts| == 1 {
      ContainsInfix([], parts[0], []);
      assert [] + parts[0] + [] == parts[0];
    } else if k == 0 {
      ContainsInfix([], parts[0], sep + Join(parts[1..], sep));
      assert [] + parts[0] + (sep + Join(parts[1..], sep)) == Join(parts, sep);
    } else {
      JoinContainsPart(parts[1..], sep, k - 1);
      var rest := Join(parts[1..], sep);
      var i := ContainsIndex(rest, parts[k]);
      var whole := parts[0] + sep + rest;
      assert whole[|parts[0] + sep| + i..|parts[0] + sep| + i + |parts[k]|] == rest[i..i + |parts[k]|];
      ContainsAt(whole, parts[k], |parts[0] + sep| + i);
    }
  }

  // ---------------------------------------------------------------------------
  // split(sep) with a one-character separator

  /**
   * Python's `s.split(sep)` for a one-character `sep`: the pieces between
   * separators, so there is always at least one (`"".split("\n") == [""]`),
   * and joining them back with `sep` gives `s`.
   */
  function SplitOn(s: string, sep: char): (r: seq<string>)
    ensures |r| >= 1
    ensures forall k :: 0 <= k < |r| ==> sep !in r[k]
    ensures Join(r, [sep]) == s
    decreases |s|
  {
    if s == [] then [[]]
    else
      var rest := SplitOn(s[1..], sep);
      if s[0] == sep then
        assert Join([[]] + rest, [sep]) == [] + [sep] + Join(rest, [sep]);
        [[]] + rest
      else
        var r := [[s[0]] + rest[0]] + rest[1..];
        assert sep !in r[0];
        assert Join(r, [sep]) == [s[0]] + Join(rest, [sep]) by {
          if |rest| > 1 {
            assert r[1..] == rest[1..];
          }
        }
        r
  }

  lemma {:induction false} SplitOnWithoutSep(a: string, sep: char)
    requires sep !in a
    ensures SplitOn(a, sep) == [a]
    decreases |a|
  {
    if a != [] {
      SplitOnWithoutSep(a[1..], sep);
      assert [a[0]] + a[1..] == a;
    }
  }

  /** The first piece is everything before the first separator. */
  lemma {:induction false} SplitOnFirst(a: string, sep: char, b: string)
    requires sep !in a
    ensures SplitOn(a + [sep] + b, sep) == [a] + SplitOn(b, sep)
    decreases |a|
  {
    var s := a + [sep] + b;
    if a == [] {
      assert s[1..] == b;
    } else {
      assert s[1..] == a[1..] + [sep] + b;
      SplitOnFirst(a[1..], sep, b);
      assert [a[0]] + a[1..] == a;
    }
  }

  /** Splitting inverts joining: separator-free parts come back exactly. */
  lemma {:induction false} SplitOnJoin(parts: seq<string>, sep: char)
    requires |parts| >= 1
    requires forall k :: 0 <= k < |parts| ==> sep !in parts[k]
    ensures SplitOn(Join(parts, [sep]), sep) == parts
    decreases |parts|
  {
    if |parts| == 1 {
      SplitOnWithoutSep(parts[0], sep);
    } else {
      SplitOnJoin(parts[1..], sep);
      SplitOnFirst(parts[0], sep, Join(parts[1..], [sep]));
      assert [parts[0]] + parts[1..] == parts;
    }
  }

  // ---------------------------------------------------------------------------
  // split() with no argument

  /** Length of the run of non-whitespace characters at the start of `s`. */
  function WordLength(s: string): (n: nat)
    ensures n <= |s|
    ensures forall k :: 0 <= k < n ==> !IsSpace(s[k])
    ensures n == |s| || IsSpace(s[n])
    decreases |s|
  {
    if s == [] || IsSpace(s[0]) then 0 else 1 + WordLength(s[1..])
  }

  /** `s` holds no whitespace character. */
  predicate NoSpace(s: string) {
    forall k :: 0 <= k < |s| ==> !IsSpace(s[k])
  }

  /** A whitespace-free run followed by the end or a blank has exactly its own length. */
  lemma {:induction false} WordLengthOfRun(w: string, rest: string)
    requires NoSpace(w)
    requires rest == [] || IsSpace(rest[0])
    ensures WordLength(w + rest) == |w|
    decreases |w|
  {
    if w != [] {
      assert (w + rest)[0] == w[0];
      assert (w + rest)[1..] == w[1..] + rest;
      WordLengthOfRun(w[1..], rest);
    } else {
      assert w + rest == rest;
    }
  }

  /**
   * Python's `s.split()`: the maximal runs of non-whitespace characters, in
   * order. Each is non-empty, contains no whitespace and occurs in `s`; there
   * are none exactly when `s` is all whitespace.
   */
  function Words(s: string): (r: seq<string>)
    ensures forall k :: 0 <= k < |r| ==> r[k] != [] && Contains(s, r[k])
    ensures forall k, j :: 0 <= k < |r| && 0 <= j < |r[k]| ==> !IsSpace(r[k][j])
    ensures r == [] <==> forall k :: 0 <= k < |s| ==> IsSpace(s[k])
    decreases |s|
  {
    if s == [] then []
    else if IsSpace(s[0]) then
      var r := Words(s[1..]);
      assert forall k :: 0 <= k < |s| - 1 ==> s[1..][k] == s[k + 1];
      r
    else
      var n := WordLength(s);
      var rest := Words(s[n..]);
      var r := [s[..n]] + rest;
      assert Contains(s, s[..n]) by { assert StartsWith(s, s[..n]); }
      forall k | 1 <= k < |r| ensures Contains(s, r[k]) {
        assert s[n..] == s[n..n + |s[n..]|];
        ContainsAt(s, s[n..], n);
        ContainsTransitive(s, s[n..], r[k]);
      }
      r
  }

  /** Leading whitespace yields no token: runs of blanks only separate. */
  lemma {:induction false} WordsSkipsBlanks(blanks: string, s: string)
    requires AllSpace(blanks)
    ensures Words(blanks + s) == Words(s)
    decreases |blanks|
  {
    if blanks != [] {
      assert (blanks + s)[0] == blanks[0];
      assert (blanks + s)[1..] == blanks[1..] + s;
      assert AllSpace(blanks[1..]) by {
        assert forall k :: 0 <= k < |blanks| - 1 ==> blanks[1..][k] == blanks[k + 1];
      }
      WordsSkipsBlanks(blanks[1..], s);
    } else {
      assert blanks + s == s;
    }
  }

  /**
   * A maximal whitespace-free run at the start, ended by the end of the
   * string or by a blank, is the first token, and the tokens of the rest
   * follow it. With `WordsSkipsBlanks` and `Words([]) == []` this fixes the
   * tokens of every string: exactly its maximal runs, in order.
   */
  lemma WordsLeadingRun(w: string, rest: string)
    requires w != [] && NoSpace(w)
    requires rest == [] || IsSpace(rest[0])
    ensures Words(w + rest) == [w] + Words(rest)
  {
    WordLengthOfRun(w, rest);
    assert (w + rest)[..|w|] == w;
    assert (w + rest)[|w|..] == rest;
  }
}
