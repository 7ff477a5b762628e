/** A model of Python's `re.sub` for patterns that never match the empty string.

    A pattern is a matcher `m(prev, t)`: the length of the match of the pattern at the start of
    `t` (0 when it does not match there), where `prev` is the character of the original text just
    before `t` ('\n' at the start of the text, which is what `^` in MULTILINE mode and a
    look-behind see there). The scan goes left to right; after a match it resumes right behind
    the match, otherwise it copies one character. */
module Rewrite {
  import opened Strings

  type Matcher = (char, string) -> nat

  /** A matcher never claims more text than there is. */
  ghost predicate Sound(m: Matcher) {
    forall c, t :: m(c, t) <= |t|
  }

  function Sub(prev: char, s: string, m: Matcher, r: string -> string): string
    requires Sound(m)
    decreases |s|
  {
    if s == [] then []
    else
      var n := m(prev, s);
      if n > 0 then r(s[..n]) + Sub(s[n - 1], s[n..], m, r)
      else [s[0]] + Sub(s[0], s[1..], m, r)
  }

  /** `re.sub(pattern, repl, s)`. */
  function ReSub(s: string, m: Matcher, r: string -> string): string
    requires Sound(m)
  {
    Sub('\n', s, m, r)
  }

  /** The character the matcher sees before position `i` of `s`. */
  function Ctx(prev: char, s: string, i: nat): char
    requires i <= |s|
  {
    if i == 0 then prev else s[i - 1]
  }

  /** Whether the matcher matches at position `i` of `s`. */
  predicate MatchesAt(prev: char, s: string, m: Matcher, i: nat)
    requires i <= |s|
  {
    m(Ctx(prev, s, i), s[i..]) > 0
  }

  lemma CtxShift(prev: char, s: string, n: nat, j: nat)
    requires 0 < n <= |s| && j <= |s| - n
    ensures Ctx(s[n - 1], s[n..], j) == Ctx(prev, s, j + n)
    ensures s[n..][j..] == s[j + n..]
  {
  }

  // ---------------------------------------------------------------------------
  // Character-level predicates
  // ---------------------------------------------------------------------------

  /** No character of `s` satisfies `bad`. */
  predicate NoneOf(s: string, bad: char -> bool) {
    forall i :: 0 <= i < |s| ==> !bad(s[i])
  }

  /** No character satisfying `a` is directly followed by one satisfying `b`. */
  predicate NoPair(s: string, a: char -> bool, b: char -> bool) {
    forall i :: 0 <= i < |s| - 1 ==> !(a(s[i]) && b(s[i + 1]))
  }

  lemma NoneOfSlice(s: string, bad: char -> bool, k: nat, l: nat)
    requires NoneOf(s, bad) && k <= l <= |s|
    ensures NoneOf(s[k..l], bad)
  {
    forall i | 0 <= i < l - k ensures !bad(s[k..l][i]) { assert s[k..l][i] == s[k + i]; }
  }

  lemma NoPairSlice(s: string, a: char -> bool, b: char -> bool, k: nat, l: nat)
    requires NoPair(s, a, b) && k <= l <= |s|
    ensures NoPair(s[k..l], a, b)
  {
    forall i | 0 <= i < l - k - 1 ensures !(a(s[k..l][i]) && b(s[k..l][i + 1])) {
      assert s[k..l][i] == s[k + i] && s[k..l][i + 1] == s[k + i + 1];
    }
  }

  /** `r` read off `s` from position `k` on keeps what `s` excludes. */
  lemma ShiftedClean(s: string, r: string, k: nat, bad: char -> bool, a: char -> bool, b: char -> bool)
    requires k + |r| <= |s| && forall j :: 0 <= j < |r| ==> r[j] == s[k + j]
    requires NoneOf(s, bad) && NoPair(s, a, b)
    ensures NoneOf(r, bad) && NoPair(r, a, b)
  {
    forall j | 0 <= j < |r| - 1 ensures !(a(r[j]) && b(r[j + 1])) {
      assert r[j + 1] == s[k + j + 1];
    }
  }

  /** Stripping keeps a text free of `bad` characters and of `a`-`b` pairs. */
  lemma StripKeepsClean(s: string, bad: char -> bool, a: char -> bool, b: char -> bool)
    requires NoneOf(s, bad) && NoPair(s, a, b)
    ensures NoneOf(Strip(s), bad) && NoPair(Strip(s), a, b)
  {
    StripSlice(s);
    ShiftedClean(s, Strip(s), |s| - |LStrip(s)|, bad, a, b);
  }

  lemma NoPairTail(c: char, s: string, a: char -> bool, b: char -> bool)
    requires NoPair([c] + s, a, b)
    ensures NoPair(s, a, b)
  {
    assert ([c] + s)[1..] == s;
    NoPairSlice([c] + s, a, b, 1, |s| + 1);
  }

  lemma NoneOfConcat(x: string, y: string, bad: char -> bool)
    ensures NoneOf(x + y, bad) <==> NoneOf(x, bad) && NoneOf(y, bad)
  {
    if NoneOf(x + y, bad) {
      NoneOfSlice(x + y, bad, 0, |x|);
      NoneOfSlice(x + y, bad, |x|, |x + y|);
      assert (x + y)[..|x|] == x && (x + y)[|x|..] == y;
    }
    if NoneOf(x, bad) && NoneOf(y, bad) {
      forall i | 0 <= i < |x + y| ensures !bad((x + y)[i]) {
        if i < |x| { assert (x + y)[i] == x[i]; } else { assert (x + y)[i] == y[i - |x|]; }
      }
    }
  }

  /** Gluing two pair-free texts: only the seam needs checking. */
  lemma NoPairGlue(c: char, x: string, y: string, a: char -> bool, b: char -> bool)
    requires NoPair([c] + x, a, b)
    requires NoPair([if x == [] then c else x[|x| - 1]] + y, a, b)
    ensures NoPair([c] + x + y, a, b)
  {
    var s := [c] + x + y;
    var d := if x == [] then c else x[|x| - 1];
    forall i | 0 <= i < |s| - 1 ensures !(a(s[i]) && b(s[i + 1])) {
      if i < |x| {
        assert s[i] == ([c] + x)[i] && s[i + 1] == ([c] + x)[i + 1];
      } else {
        assert s[i] == ([d] + y)[i - |x|] && s[i + 1] == ([d] + y)[i - |x| + 1];
      }
    }
  }

  lemma NoPairCons(c: char, o: string, a: char -> bool, b: char -> bool)
    requires NoPair(o, a, b)
    requires a(c) ==> o == [] || !b(o[0])
    ensures NoPair([c] + o, a, b)
  {
    forall i | 0 <= i < |o| ensures !(a(([c] + o)[i]) && b(([c] + o)[i + 1])) {
      if i > 0 { assert ([c] + o)[i] == o[i - 1] && ([c] + o)[i + 1] == o[i]; }
    }
  }

  /** Character facts about literal strings are easiest to state through membership. */
  lemma NoneOfMembers(s: string, bad: char -> bool)
    requires forall ch :: ch in s ==> !bad(ch)
    ensures NoneOf(s, bad)
  {
    forall i | 0 <= i < |s| ensures !bad(s[i]) { assert s[i] in s; }
  }

  lemma NoPairFromNoneOf(s: string, a: char -> bool, b: char -> bool)
    requires NoneOf(s, b)
    ensures NoPair(s, a, b)
  {
  }

  // ---------------------------------------------------------------------------
  // Generic facts about Sub
  // ---------------------------------------------------------------------------

  /** A pattern that matches nowhere leaves the text unchanged. */
  lemma {:induction false} SubIdentity(prev: char, s: string, m: Matcher, r: string -> string)
    requires Sound(m)
    requires forall i :: 0 <= i < |s| ==> !MatchesAt(prev, s, m, i)
    ensures Sub(prev, s, m, r) == s
    decreases |s|
  {
    if s != [] {
      assert !MatchesAt(prev, s, m, 0);
      forall j | 0 <= j < |s[1..]| ensures !MatchesAt(s[0], s[1..], m, j) {
        CtxShift(prev, s, 1, j);
        assert !MatchesAt(prev, s, m, j + 1);
      }
      SubIdentity(s[0], s[1..], m, r);
    }
  }

  /** A pattern whose matches start with a `trigger` character matches nowhere in a text
      without one. */
  /** A match at the start is replaced, and the scan resumes right behind it. */
  lemma SubFirstMatch(prev: char, s: string, m: Matcher, r: string -> string, k: nat)
    requires Sound(m) && s != [] && m(prev, s) == k && k > 0
    ensures Sub(prev, s, m, r) == r(s[..k]) + Sub(s[k - 1], s[k..], m, r)
  {
  }

  lemma SubNoTrigger(prev: char, s: string, m: Matcher, r: string -> string, trigger: char -> bool)
    requires Sound(m)
    requires forall c, t :: m(c, t) > 0 ==> t != [] && trigger(t[0])
    requires forall ch :: ch in s ==> !trigger(ch)
    ensures Sub(prev, s, m, r) == s
  {
    forall i | 0 <= i < |s| ensures !MatchesAt(prev, s, m, i) {
      assert s[i..][0] == s[i] && s[i] in s;
    }
    SubIdentity(prev, s, m, r);
  }

  /** A pattern whose matches end with the character `c` matches nowhere in a text without `c`. */
  lemma SubNoClosing(prev: char, s: string, m: Matcher, r: string -> string, c: char)
    requires Sound(m)
    requires forall p, t :: m(p, t) > 0 ==> t[m(p, t) - 1] == c
    requires c !in s
    ensures Sub(prev, s, m, r) == s
  {
    forall i | 0 <= i < |s| ensures !MatchesAt(prev, s, m, i) {
      forall j | 0 <= j < |s| - i ensures s[i..][j] != c {
        assert s[i..][j] == s[i + j] && s[i + j] in s;
      }
    }
    SubIdentity(prev, s, m, r);
  }

  /** A pattern whose matches start with `p` matches nowhere in a text without `p`. */
  lemma SubAbsentPrefix(prev: char, s: string, m: Matcher, r: string -> string, p: string)
    requires Sound(m)
    requires forall c, t :: m(c, t) > 0 ==> StartsWith(t, p)
    requires Find(s, p).None?
    ensures Sub(prev, s, m, r) == s
  {
    forall i | 0 <= i < |s| ensures !MatchesAt(prev, s, m, i) {
      if MatchesAt(prev, s, m, i) {
        assert s[i..][..|p|] == s[i..i + |p|];
        assert OccursAt(s, p, i);
      }
    }
    SubIdentity(prev, s, m, r);
  }

  /** Characters the pattern always consumes, and which no replacement produces, are gone. */
  lemma {:induction false} SubAvoids(prev: char, s: string, m: Matcher, r: string -> string, bad: char -> bool)
    requires Sound(m)
    requires forall i :: 0 <= i < |s| && bad(s[i]) ==> MatchesAt(prev, s, m, i)
    requires forall c, t :: m(c, t) > 0 ==> NoneOf(r(t[..m(c, t)]), bad)
    ensures NoneOf(Sub(prev, s, m, r), bad)
    decreases |s|
  {
    if s != [] {
      var n := m(prev, s);
      var k := if n > 0 then n else 1;
      forall j | 0 <= j < |s[k..]| && bad(s[k..][j]) ensures MatchesAt(s[k - 1], s[k..], m, j) {
        CtxShift(prev, s, k, j);
        assert bad(s[j + k]);
      }
      SubAvoids(s[k - 1], s[k..], m, r, bad);
      if n > 0 {
        NoneOfConcat(r(s[..n]), Sub(s[n - 1], s[n..], m, r), bad);
      } else {
        assert !bad(s[0]) by { assert !MatchesAt(prev, s, m, 0); }
        NoneOfConcat([s[0]], Sub(s[0], s[1..], m, r), bad);
      }
    }
  }

  /** A replacement keeps a pair-free text pair-free: it adds no pair inside, it starts with a
      `b` only where the match did, and it ends with an `a` only where the match did (an
      empty replacement needs the match to end with an `a`). */
  ghost predicate KeepsPairs(t: string, n: nat, o: string, a: char -> bool, b: char -> bool)
    requires 0 < n <= |t|
  {
    NoPair(o, a, b)
    && (o != [] ==> (b(o[0]) ==> b(t[0])) && (a(o[|o| - 1]) ==> a(t[n - 1])))
    && (o == [] ==> a(t[n - 1]))
  }

  lemma NoPairShift(prev: char, s: string, a: char -> bool, b: char -> bool, k: nat)
    requires NoPair([prev] + s, a, b) && 0 < k <= |s|
    ensures NoPair([s[k - 1]] + s[k..], a, b)
    ensures a(prev) ==> !b(s[0])
  {
    assert ([prev] + s)[k..] == [s[k - 1]] + s[k..];
    NoPairSlice([prev] + s, a, b, k, |s| + 1);
    assert ([prev] + s)[0] == prev && ([prev] + s)[1] == s[0];
  }

  lemma KeepsStep(s: string, n: nat, o: string, a: char -> bool, b: char -> bool, prev: char, cout: char)
    requires 0 < n <= |s| && KeepsPairs(s, n, o, a, b)
    requires a(cout) ==> a(prev)
    requires a(prev) ==> !b(s[0])
    ensures NoPair([cout] + o, a, b)
    ensures a(if o == [] then cout else o[|o| - 1]) ==> a(s[n - 1])
  {
    NoPairCons(cout, o, a, b);
  }

  /** Pair-freedom survives a Sub whose replacements keep pairs. `cout` is the output character
      before `s`: an `a` there only if the input character before `s` is one. */
  lemma {:induction false} SubKeepsNoPair(prev: char, s: string, m: Matcher, r: string -> string,
                                          a: char -> bool, b: char -> bool, cout: char)
    requires Sound(m)
    requires NoPair([prev] + s, a, b)
    requires a(cout) ==> a(prev)
    requires forall c, t :: m(c, t) > 0 ==> KeepsPairs(t, m(c, t), r(t[..m(c, t)]), a, b)
    ensures NoPair([cout] + Sub(prev, s, m, r), a, b)
    decreases |s|
  {
    if s != [] {
      var n := m(prev, s);
      var k := if n > 0 then n else 1;
      NoPairShift(prev, s, a, b, k);
      var rest := Sub(s[k - 1], s[k..], m, r);
      if n > 0 {
        var o := r(s[..n]);
        assert KeepsPairs(s, n, o, a, b);
        var d := if o == [] then cout else o[|o| - 1];
        KeepsStep(s, n, o, a, b, prev, cout);
        SubKeepsNoPair(s[n - 1], s[n..], m, r, a, b, d);
        NoPairGlue(cout, o, rest, a, b);
        assert Sub(prev, s, m, r) == o + rest;
        assert [cout] + o + rest == [cout] + (o + rest);
      } else {
        SubKeepsNoPair(s[0], s[1..], m, r, a, b, s[0]);
        NoPairCons(cout, [s[0]], a, b);
        NoPairGlue(cout, [s[0]], rest, a, b);
        assert Sub(prev, s, m, r) == [s[0]] + rest;
        assert [cout] + [s[0]] + rest == [cout] + ([s[0]] + rest);
      }
    }
  }

  /** A replacement establishes pair-freedom: it is non-empty, has no pair inside, starts with a
      `b` only where the match did, and ends with an `a` only when no `b` follows the match. */
  ghost predicate MakesPairs(t: string, n: nat, o: string, a: char -> bool, b: char -> bool)
    requires 0 < n <= |t|
  {
    o != [] && NoPair(o, a, b) && (b(o[0]) ==> b(t[0]))
    && (a(o[|o| - 1]) ==> n == |t| || !b(t[n]))
  }

  /** A Sub that matches at every `a` followed by a `b`, with replacements that make no pair,
      leaves no such pair. */
  lemma {:induction false} SubMakesNoPair(prev: char, s: string, m: Matcher, r: string -> string,
                                          a: char -> bool, b: char -> bool, cout: char)
    requires Sound(m)
    requires forall i :: 0 <= i < |s| - 1 && a(s[i]) && b(s[i + 1]) ==> MatchesAt(prev, s, m, i)
    requires a(cout) ==> s == [] || !b(s[0])
    requires forall c, t :: m(c, t) > 0 ==> MakesPairs(t, m(c, t), r(t[..m(c, t)]), a, b)
    ensures NoPair([cout] + Sub(prev, s, m, r), a, b)
    decreases |s|
  {
    if s != [] {
      var n := m(prev, s);
      var k := if n > 0 then n else 1;
      forall j | 0 <= j < |s[k..]| - 1 && a(s[k..][j]) && b(s[k..][j + 1])
        ensures MatchesAt(s[k - 1], s[k..], m, j)
      {
        CtxShift(prev, s, k, j);
        assert a(s[j + k]) && b(s[j + k + 1]);
      }
      var rest := Sub(s[k - 1], s[k..], m, r);
      if n > 0 {
        var o := r(s[..n]);
        assert MakesPairs(s, n, o, a, b);
        assert s[..n][0] == s[0];
        SubMakesNoPair(s[n - 1], s[n..], m, r, a, b, o[|o| - 1]);
        NoPairCons(cout, o, a, b);
        NoPairGlue(cout, o, rest, a, b);
        assert Sub(prev, s, m, r) == o + rest;
        assert [cout] + o + rest == [cout] + (o + rest);
      } else {
        assert !MatchesAt(prev, s, m, 0);
        SubMakesNoPair(s[0], s[1..], m, r, a, b, s[0]);
        NoPairCons(cout, [s[0]], a, b);
        NoPairGlue(cout, [s[0]], rest, a, b);
        assert Sub(prev, s, m, r) == [s[0]] + rest;
        assert [cout] + [s[0]] + rest == [cout] + ([s[0]] + rest);
      }
    }
  }
}
