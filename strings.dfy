/** Python `str` operations the pipeline relies on, over `string` (= seq<char>). */
module Strings {
  import opened Outcomes

  // ---------------------------------------------------------------------------
  // Character classes
  // ---------------------------------------------------------------------------

  /** Python's `str.isspace()`, which is also what `\s`, `strip()` and `split()` use. */
  predicate IsSpace(c: char) {
    c == ' ' || ('\t' <= c <= '\r') || ('\U{001C}' <= c <= '\U{001F}')
    || c == '\U{0085}' || c == '\U{00A0}' || c == '\U{1680}'
    || ('\U{2000}' <= c <= '\U{200A}') || c == '\U{2028}' || c == '\U{2029}'
    || c == '\U{202F}' || c == '\U{205F}' || c == '\U{3000}'
  }

  /** Whitespace other than the plain space. */
  predicate IsOtherSpace(c: char) { IsSpace(c) && c != ' ' }

  /** `\d`, restricted to the ASCII digits. */
  predicate IsDigit(c: char) { '0' <= c <= '9' }

  predicate IsLowerAscii(c: char) { 'a' <= c <= 'z' }

  /** `\w`: ASCII letters, digits and '_', and the alphanumeric characters of Latin-1. */
  predicate IsWordChar(c: char) {
    ('a' <= c <= 'z') || ('A' <= c <= 'Z') || IsDigit(c) || c == '_'
    || c == '\U{00AA}' || c == '\U{00B2}' || c == '\U{00B3}' || c == '\U{00B5}'
    || c == '\U{00B9}' || c == '\U{00BA}' || ('\U{00BC}' <= c <= '\U{00BE}')
    || ('\U{00C0}' <= c <= '\U{00D6}') || ('\U{00D8}' <= c <= '\U{00F6}')
    || ('\U{00F8}' <= c <= '\U{00FF}')
  }

  /** `str.upper()` on one character: ASCII and Latin-1 letters, dotless i and long s. */
  function UpperChar(c: char): (u: char)
    ensures IsLowerAscii(c) ==> u as int == c as int - 32
    ensures !IsLowerAscii(c) && c < '\U{0080}' ==> u == c
  {
    if 'a' <= c <= 'z' then (c as int - 32) as char
    else if '\U{00E0}' <= c <= '\U{00FE}' && c != '\U{00F7}' then (c as int - 32) as char
    else if c == '\U{00FF}' then '\U{0178}'
    else if c == '\U{00B5}' then '\U{039C}'
    else if c == '\U{0131}' then 'I'
    else if c == '\U{017F}' then 'S'
    else c
  }

  /** `str.lower()` on one character: ASCII and Latin-1 letters, the Kelvin and Angstrom signs. */
  function LowerChar(c: char): (l: char)
    ensures 'A' <= c <= 'Z' ==> l as int == c as int + 32
    ensures !('A' <= c <= 'Z') && c < '\U{0080}' ==> l == c
  {
    if 'A' <= c <= 'Z' then (c as int + 32) as char
    else if '\U{00C0}' <= c <= '\U{00DE}' && c != '\U{00D7}' then (c as int + 32) as char
    else if c == '\U{0178}' then '\U{00FF}'
    else if c == '\U{212A}' then 'k'
    else if c == '\U{212B}' then '\U{00E5}'
    else c
  }

  function Upper(s: string): (u: string)
    ensures |u| == |s| && forall i :: 0 <= i < |s| ==> u[i] == UpperChar(s[i])
  {
    if s == [] then [] else [UpperChar(s[0])] + Upper(s[1..])
  }

  function Lower(s: string): (l: string)
    ensures |l| == |s| && forall i :: 0 <= i < |s| ==> l[i] == LowerChar(s[i])
  {
    if s == [] then [] else [LowerChar(s[0])] + Lower(s[1..])
  }

  lemma UpperConcat(a: string, b: string)
    ensures Upper(a + b) == Upper(a) + Upper(b)
  {
  }

  /** Text made of characters that `upper()` keeps is its own upper case. */
  lemma UpperFixed(s: string)
    requires forall ch :: ch in s ==> UpperChar(ch) == ch
    ensures Upper(s) == s
  {
    forall i | 0 <= i < |s| ensures Upper(s)[i] == s[i] { assert s[i] in s; }
  }

  // ---------------------------------------------------------------------------
  // Prefixes, slices, search
  // ---------------------------------------------------------------------------

  predicate StartsWith(s: string, p: string) {
    |p| <= |s| && s[..|p|] == p
  }

  predicate EndsWith(s: string, p: string) {
    |p| <= |s| && s[|s| - |p|..] == p
  }

  /** Python `s[n:]` for n >= 0. */
  function Drop(s: string, n: nat): (r: string)
    ensures |r| == if n <= |s| then |s| - n else 0
  {
    if n <= |s| then s[n..] else []
  }

  /** Python `s[:n]` for n >= 0. */
  function Take(s: string, n: nat): (r: string)
    ensures |r| == if n <= |s| then n else |s|
    ensures StartsWith(s, r)
  {
    if n <= |s| then s[..n] else s
  }

  /** `p` occurs in `s` at index `j`. */
  predicate OccursAt(s: string, p: string, j: nat) {
    j + |p| <= |s| && s[j..j + |p|] == p
  }

  /** Index of the first occurrence of `p` in `s`, searching from `from`. */
  function FindFrom(s: string, p: string, from: nat): (r: Option<nat>)
    ensures r.Some? ==> from <= r.value && OccursAt(s, p, r.value)
    ensures r.Some? ==> forall j :: from <= j < r.value ==> !OccursAt(s, p, j)
    ensures r.None? ==> forall j :: from <= j ==> !OccursAt(s, p, j)
    decreases |s| - from
  {
    if from + |p| > |s| then None
    else if s[from..from + |p|] == p then Some(from)
    else FindFrom(s, p, from + 1)
  }

  function Find(s: string, p: string): (r: Option<nat>)
    ensures r.Some? ==> OccursAt(s, p, r.value)
    ensures r.Some? ==> forall j :: 0 <= j < r.value ==> !OccursAt(s, p, j)
    ensures r.None? ==> forall j :: !OccursAt(s, p, j)
  {
    FindFrom(s, p, 0)
  }

  /** Python `p in s`. */
  predicate Contains(s: string, p: string) {
    Find(s, p).Some?
  }

  lemma ContainsChar(s: string, c: char)
    ensures Contains(s, [c]) <==> c in s
  {
    if c in s {
      var i :| 0 <= i < |s| && s[i] == c;
      assert OccursAt(s, [c], i);
    } else {
      forall j: nat ensures !OccursAt(s, [c], j) {
        if j + 1 <= |s| { assert s[j..j + 1][0] == s[j]; }
      }
    }
  }

  /** Index of the first `c` in `s`. */
  function IndexOf(s: string, c: char): (r: Option<nat>)
    ensures r.Some? ==> r.value < |s| && s[r.value] == c && c !in s[..r.value]
    ensures r.None? <==> c !in s
  {
    if s == [] then None
    else if s[0] == c then Some(0)
    else match IndexOf(s[1..], c)
      case None => None
      case Some(k) => assert s[..k + 1] == [s[0]] + s[1..][..k]; Some(k + 1)
  }

  // ---------------------------------------------------------------------------
  // Runs of characters
  // ---------------------------------------------------------------------------

  /** Length of the leading run of whitespace. */
  function SpaceSpan(s: string): (n: nat)
    ensures n <= |s| && (forall i :: 0 <= i < n ==> IsSpace(s[i])) && (n < |s| ==> !IsSpace(s[n]))
  {
    if s != [] && IsSpace(s[0]) then 1 + SpaceSpan(s[1..]) else 0
  }

  /** Length of the leading run of non-whitespace. */
  function NonSpaceSpan(s: string): (n: nat)
    ensures n <= |s| && (forall i :: 0 <= i < n ==> !IsSpace(s[i])) && (n < |s| ==> IsSpace(s[n]))
  {
    if s != [] && !IsSpace(s[0]) then 1 + NonSpaceSpan(s[1..]) else 0
  }

  /** Length of the leading run of ASCII digits. */
  function DigitSpan(s: string): (n: nat)
    ensures n <= |s| && (forall i :: 0 <= i < n ==> IsDigit(s[i])) && (n < |s| ==> !IsDigit(s[n]))
  {
    if s != [] && IsDigit(s[0]) then 1 + DigitSpan(s[1..]) else 0
  }

  /** Length of the leading run of the character `c`. */
  function CharSpan(s: string, c: char): (n: nat)
    ensures n <= |s| && (forall i :: 0 <= i < n ==> s[i] == c) && (n < |s| ==> s[n] != c)
  {
    if s != [] && s[0] == c then 1 + CharSpan(s[1..], c) else 0
  }

  /** Length of the leading run of ASCII lower-case letters. */
  function LowerSpan(s: string): (n: nat)
    ensures n <= |s| && (forall i :: 0 <= i < n ==> IsLowerAscii(s[i])) && (n < |s| ==> !IsLowerAscii(s[n]))
  {
    if s != [] && IsLowerAscii(s[0]) then 1 + LowerSpan(s[1..]) else 0
  }

  // ---------------------------------------------------------------------------
  // strip()
  // ---------------------------------------------------------------------------

  function LStrip(s: string): (r: string)
    ensures |r| <= |s| && r == s[|s| - |r|..]
    ensures r == [] || !IsSpace(r[0])
    ensures forall i :: 0 <= i < |s| - |r| ==> IsSpace(s[i])
  {
    if s != [] && IsSpace(s[0]) then LStrip(s[1..]) else s
  }

  function RStrip(s: string): (r: string)
    ensures |r| <= |s| && r == s[..|r|]
    ensures r == [] || !IsSpace(r[|r| - 1])
    ensures forall i :: |r| <= i < |s| ==> IsSpace(s[i])
  {
    if s != [] && IsSpace(s[|s| - 1]) then RStrip(s[..|s| - 1]) else s
  }

  /** Python `str.strip()`: no leading or trailing whitespace, inner text untouched. */
  function Strip(s: string): (r: string)
    ensures |r| <= |s|
    ensures r == [] || (!IsSpace(r[0]) && !IsSpace(r[|r| - 1]))
    ensures |r| <= |LStrip(s)| && r == LStrip(s)[..|r|]
  {
    RStrip(LStrip(s))
  }

  /** The stripped text is the text of `s` after its leading whitespace, character by character. */
  lemma StripSlice(s: string)
    ensures var k := |s| - |LStrip(s)|;
      k + |Strip(s)| <= |s| && forall j :: 0 <= j < |Strip(s)| ==> Strip(s)[j] == s[k + j]
  {
  }

  predicate IsBlank(s: string) {
    forall i :: 0 <= i < |s| ==> IsSpace(s[i])
  }

  lemma StripEmptyIffBlank(s: string)
    ensures Strip(s) == [] <==> IsBlank(s)
  {
    var l := LStrip(s);
    if l != [] {
      assert RStrip(l) != [] by { assert !IsSpace(l[0]); }
      assert !IsSpace(s[|s| - |l|]);
    }
  }

  predicate IsStripped(s: string) {
    s == [] || (!IsSpace(s[0]) && !IsSpace(s[|s| - 1]))
  }

  lemma LStripKeeps(s: string)
    requires s == [] || !IsSpace(s[0])
    ensures LStrip(s) == s
  {
  }

  lemma RStripKeeps(s: string)
    requires s == [] || !IsSpace(s[|s| - 1])
    ensures RStrip(s) == s
  {
  }

  lemma RStripDropsPad(x: string)
    ensures RStrip(x + " ") == RStrip(x)
  {
    var c := x + " ";
    assert c[..|c| - 1] == x;
  }

  /** The space a chunk gets after its last piece is stripped again. */
  lemma StripPadded(x: string)
    requires x != [] && IsStripped(x)
    ensures Strip(x + " ") == x
  {
    var c := x + " ";
    assert c[0] == x[0];
    LStripKeeps(c);
    RStripDropsPad(x);
    RStripKeeps(x);
  }

  lemma StripOfStripped(s: string)
    requires IsStripped(s)
    ensures Strip(s) == s
  {
  }

  /** Stripping a tag whose first character is not whitespace only strips the tail. */
  lemma StripAfterLabel(tag: string, s: string)
    requires tag != [] && !IsSpace(tag[0])
    ensures Strip(tag + s) == RStrip(tag + s)
  {
  }

  lemma RStripAppend(a: string, b: string)
    requires RStrip(b) != []
    ensures RStrip(a + b) == a + RStrip(b)
  {
    if b != [] && IsSpace(b[|b| - 1]) {
      assert (a + b)[..|a + b| - 1] == a + b[..|b| - 1];
      RStripAppend(a, b[..|b| - 1]);
    }
  }

  lemma RStripAppendBlank(a: string, b: string)
    requires RStrip(b) == []
    ensures RStrip(a + b) == RStrip(a)
  {
    if b != [] {
      assert IsSpace(b[|b| - 1]);
      assert (a + b)[..|a + b| - 1] == a + b[..|b| - 1];
      RStripAppendBlank(a, b[..|b| - 1]);
    } else {
      assert a + b == a;
    }
  }

  lemma StripIdempotent(s: string)
    ensures Strip(Strip(s)) == Strip(s)
  {
  }

  lemma StripSpacePrefix(s: string)
    ensures Strip(" " + s) == Strip(s)
  {
    assert (" " + s)[1..] == s;
  }

  lemma LStripRStrip(s: string)
    ensures Strip(s) == LStrip(RStrip(s))
    decreases |s|
  {
    if s != [] && IsSpace(s[0]) {
      var r := RStrip(s);
      if r != [] {
        assert r[0] == s[0];
        assert RStrip(s[1..]) == r[1..] by { RStripTail(s); }
        LStripRStrip(s[1..]);
      } else {
        StripEmptyIffBlank(s);
      }
    }
  }

  lemma RStripTail(s: string)
    requires s != [] && RStrip(s) != []
    ensures RStrip(s[1..]) == RStrip(s)[1..]
    decreases |s|
  {
    if IsSpace(s[|s| - 1]) {
      assert s[..|s| - 1][1..] == s[1..][..|s[1..]| - 1];
      RStripTail(s[..|s| - 1]);
    }
  }

  /** Strip of tag + text, where the tag starts with a non-space and ends with one space:
      cutting the tag off again and stripping yields the stripped text. */
  lemma StripLabelled(tag: string, s: string)
    requires |tag| >= 2 && !IsSpace(tag[0]) && !IsSpace(tag[|tag| - 2]) && tag[|tag| - 1] == ' '
    ensures Strip(Drop(Strip(tag + s), |tag| - 1)) == Strip(s)
  {
    StripAfterLabel(tag, s);
    var p := tag[..|tag| - 1];
    assert tag + s == p + (" " + s);
    assert p[|p| - 1] == tag[|tag| - 2];
    LabelBefore(p, s);
  }

  /** A text cut off after its label `p` and one blank. */
  lemma LabelBefore(p: string, s: string)
    requires p != [] && !IsSpace(p[|p| - 1])
    ensures Strip(Drop(RStrip(p + (" " + s)), |p|)) == Strip(s)
  {
    if RStrip(" " + s) != [] {
      LabelBeforeText(p, s);
    } else {
      LabelBeforeBlank(p, s);
    }
  }

  lemma LabelBeforeText(p: string, s: string)
    requires RStrip(" " + s) != []
    ensures Strip(Drop(RStrip(p + (" " + s)), |p|)) == Strip(s)
  {
    RStripAppend(p, " " + s);
    assert Drop(p + RStrip(" " + s), |p|) == RStrip(" " + s);
    LStripRStrip(" " + s);
    StripSpacePrefix(s);
  }

  lemma LabelBeforeBlank(p: string, s: string)
    requires p != [] && !IsSpace(p[|p| - 1]) && RStrip(" " + s) == []
    ensures Strip(Drop(RStrip(p + (" " + s)), |p|)) == Strip(s)
  {
    RStripAppendBlank(p, " " + s);
    assert RStrip(p) == p;
    StripEmptyIffBlank(" " + s);
    assert IsBlank(s) by { forall i | 0 <= i < |s| ensures IsSpace(s[i]) { assert (" " + s)[i + 1] == s[i]; } }
    StripEmptyIffBlank(s);
  }

  // ---------------------------------------------------------------------------
  // split / join
  // ---------------------------------------------------------------------------

  /** Python `s.split(sep)` for a non-empty separator. */
  function Split(s: string, sep: string): (r: seq<string>)
    requires |sep| > 0
    ensures |r| >= 1
    decreases |s|
  {
    match Find(s, sep)
    case None => [s]
    case Some(k) => [s[..k]] + Split(s[k + |sep|..], sep)
  }

  /** Python `sep.join(parts)`. */
  function Join(parts: seq<string>, sep: string): string {
    if |parts| == 0 then []
    else if |parts| == 1 then parts[0]
    else parts[0] + sep + Join(parts[1..], sep)
  }

  lemma JoinCons(x: string, tail: seq<string>, sep: string)
    requires |tail| >= 1
    ensures Join([x] + tail, sep) == x + sep + Join(tail, sep)
  {
    assert ([x] + tail)[1..] == tail;
  }

  lemma SplitAt(s: string, sep: string, k: nat)
    requires |sep| > 0 && Find(s, sep) == Some(k)
    ensures Split(s, sep) == [s[..k]] + Split(s[k + |sep|..], sep)
    ensures s == s[..k] + sep + s[k + |sep|..]
  {
    FoundAt(s, sep, k);
    SplitUnfold(s, sep, k);
    PiecesAround(s, sep, k);
  }

  lemma FoundAt(s: string, p: string, k: nat)
    requires Find(s, p) == Some(k)
    ensures OccursAt(s, p, k)
  {
  }

  lemma SplitUnfold(s: string, sep: string, k: nat)
    requires |sep| > 0 && Find(s, sep) == Some(k) && k + |sep| <= |s|
    ensures Split(s, sep) == [s[..k]] + Split(s[k + |sep|..], sep)
  {
  }

  lemma PiecesAround(s: string, p: string, k: nat)
    requires OccursAt(s, p, k)
    ensures s == s[..k] + p + s[k + |p|..]
  {
    assert s[k..k + |p|] == p;
    assert s == s[..k] + s[k..k + |p|] + s[k + |p|..];
  }

  lemma {:induction false} JoinSplit(s: string, sep: string)
    requires |sep| > 0
    ensures Join(Split(s, sep), sep) == s
    decreases |s|
  {
    match Find(s, sep)
    case None =>
    case Some(k) =>
      var rest := s[k + |sep|..];
      SplitAt(s, sep, k);
      JoinSplit(rest, sep);
      JoinCons(s[..k], Split(rest, sep), sep);
  }

  lemma SplitNoSep(s: string, c: char)
    requires c !in s
    ensures Split(s, [c]) == [s]
  {
    ContainsChar(s, c);
  }

  /** No part of a split at a character contains that character. */
  lemma {:induction false} SplitPartsLackSep(s: string, c: char)
    ensures forall p :: p in Split(s, [c]) ==> c !in p
    decreases |s|
  {
    match Find(s, [c])
    case None =>
      forall j | 0 <= j < |s| ensures s[j] != c {
        assert !OccursAt(s, [c], j);
        assert s[j..j + 1] == [s[j]];
      }
    case Some(k) =>
      forall j | 0 <= j < k ensures s[..k][j] != c {
        assert !OccursAt(s, [c], j);
        assert s[j..j + 1] == [s[j]];
      }
      SplitPartsLackSep(s[k + 1..], c);
  }

  /** Splitting at a character that does not occur in the first line. */
  lemma SplitLine(a: string, c: char, b: string)
    requires c !in a
    ensures Split(a + [c] + b, [c]) == [a] + Split(b, [c])
  {
    var s := a + [c] + b;
    var f := Find(s, [c]);
    assert OccursAt(s, [c], |a|);
    forall j | 0 <= j < |a| ensures !OccursAt(s, [c], j) {
      assert s[j..j + 1][0] == a[j];
    }
    assert f.value == |a|;
    assert s[..|a|] == a;
    assert s[|a| + 1..] == b;
  }

  /** A character in neither the parts nor the separator is not in the joined text. */
  lemma {:induction false} JoinLacks(parts: seq<string>, sep: string, c: char)
    requires c !in sep && forall p :: p in parts ==> c !in p
    ensures c !in Join(parts, sep)
    decreases |parts|
  {
    if |parts| >= 1 {
      assert parts[0] in parts;
    }
    if |parts| > 1 {
      assert forall p :: p in parts[1..] ==> p in parts;
      JoinLacks(parts[1..], sep, c);
    }
  }

  /** Splitting a join at a character that no part contains gives the parts back. */
  lemma {:induction false} SplitJoin(parts: seq<string>, c: char)
    requires |parts| >= 1 && forall p :: p in parts ==> c !in p
    ensures Split(Join(parts, [c]), [c]) == parts
    decreases |parts|, 1
  {
    if |parts| == 1 {
      assert parts[0] in parts;
      SplitNoSep(parts[0], c);
    } else {
      SplitJoinCons(parts, c);
    }
  }

  lemma {:induction false} SplitJoinCons(parts: seq<string>, c: char)
    requires |parts| > 1 && forall p :: p in parts ==> c !in p
    ensures Split(Join(parts, [c]), [c]) == parts
    decreases |parts|, 0
  {
    assert parts[0] in parts;
    assert forall p :: p in parts[1..] ==> p in parts;
    SplitJoin(parts[1..], c);
    SplitLine(parts[0], c, Join(parts[1..], [c]));
    assert [parts[0]] + parts[1..] == parts;
  }

  lemma JoinAppend(parts: seq<string>, x: string, sep: string)
    requires |parts| > 0
    ensures Join(parts + [x], sep) == Join(parts, sep) + sep + x
  {
    if |parts| > 1 {
      assert (parts + [x])[1..] == parts[1..] + [x];
      JoinAppend(parts[1..], x, sep);
    }
  }

  /** Python `str.split()` with no argument: the maximal runs of non-whitespace. */
  function Words(s: string): seq<string>
    decreases |s|
  {
    var t := s[SpaceSpan(s)..];
    if t == [] then []
    else
      var k := NonSpaceSpan(t);
      WordAhead(s, t, k);
      [t[..k]] + Words(t[k..])
  }

  /** After the leading whitespace comes a non-empty word, so the rest is shorter. */
  lemma WordAhead(s: string, t: string, k: nat)
    requires t == s[SpaceSpan(s)..] && t != [] && k == NonSpaceSpan(t)
    ensures 0 < k <= |t| && |t[k..]| < |s|
  {
    assert t[0] == s[SpaceSpan(s)];
  }

  /** Every word is non-empty and holds no whitespace. */
  lemma {:induction false} WordsLackSpace(s: string)
    ensures forall w :: w in Words(s) ==> w != [] && forall i :: 0 <= i < |w| ==> !IsSpace(w[i])
    decreases |s|
  {
    var t := s[SpaceSpan(s)..];
    if t != [] {
      var k := NonSpaceSpan(t);
      var rest := t[k..];
      WordAhead(s, t, k);
      WordsLackSpace(rest);
      WordOfSpan(t, k);
      assert Words(s) == [t[..k]] + Words(rest);
      ConsMembers(t[..k], Words(rest));
    }
  }

  lemma WordOfSpan(t: string, k: nat)
    requires t != [] && !IsSpace(t[0]) && k == NonSpaceSpan(t)
    ensures t[..k] != [] && forall i :: 0 <= i < |t[..k]| ==> !IsSpace(t[..k][i])
  {
  }

  lemma ConsMembers<T>(x: T, rest: seq<T>)
    ensures forall w :: w in [x] + rest <==> w == x || w in rest
  {
  }

  /** Python `s.split(c)[0]`: the text before the first `c`. */
  function Before(s: string, c: char): (r: string)
    ensures c !in r && StartsWith(s, r)
    ensures r == s <==> c !in s
  {
    match IndexOf(s, c)
    case None => s
    case Some(k) => s[..k]
  }

  // ---------------------------------------------------------------------------
  // replace
  // ---------------------------------------------------------------------------

  /** Python `s.replace(pat, rep)`: leftmost, non-overlapping occurrences. */
  function ReplaceAll(s: string, pat: string, rep: string): string
    requires |pat| > 0
    decreases |s|
  {
    if |s| < |pat| then s
    else if s[..|pat|] == pat then rep + ReplaceAll(s[|pat|..], pat, rep)
    else [s[0]] + ReplaceAll(s[1..], pat, rep)
  }

  /** Replacing a single character is a character-by-character map. */
  lemma {:induction false} ReplaceCharConcat(a: string, b: string, c: char, rep: string)
    ensures ReplaceAll(a + b, [c], rep) == ReplaceAll(a, [c], rep) + ReplaceAll(b, [c], rep)
    decreases |a|
  {
    if a == [] {
      assert a + b == b;
    } else {
      assert (a + b)[1..] == a[1..] + b;
      assert (a + b)[..1] == a[..1];
      ReplaceCharConcat(a[1..], b, c, rep);
    }
  }

  lemma ReplaceAbsent(s: string, pat: string, rep: string)
    requires |pat| > 0
    requires forall j :: !OccursAt(s, pat, j)
    ensures ReplaceAll(s, pat, rep) == s
    decreases |s|
  {
    if |s| >= |pat| {
      assert !OccursAt(s, pat, 0);
      forall j: nat ensures !OccursAt(s[1..], pat, j) {
        assert !OccursAt(s, pat, j + 1);
        if j + |pat| <= |s[1..]| { assert s[1..][j..j + |pat|] == s[j + 1..j + 1 + |pat|]; }
      }
      ReplaceAbsent(s[1..], pat, rep);
    }
  }

  /** `for old, new in table: s = s.replace(old, new)`, in table order. */
  function ReplaceSeq(s: string, table: seq<(string, string)>): string
    requires forall k :: 0 <= k < |table| ==> |table[k].0| > 0
    decreases |table|
  {
    if table == [] then s else ReplaceSeq(ReplaceAll(s, table[0].0, table[0].1), table[1..])
  }

  /** Replacing a character that does not occur changes nothing. */
  lemma ReplaceCharAbsent(s: string, c: char, rep: string)
    requires c !in s
    ensures ReplaceAll(s, [c], rep) == s
  {
    forall j: nat ensures !OccursAt(s, [c], j) {
      if j + 1 <= |s| { assert s[j..j + 1][0] == s[j]; }
    }
    ReplaceAbsent(s, [c], rep);
  }

  lemma ReplaceCharSelf(c: char, rep: string)
    ensures ReplaceAll([c], [c], rep) == rep
  {
    assert [c][1..] == [];
  }

  // ---------------------------------------------------------------------------
  // Numbers
  // ---------------------------------------------------------------------------

  function DigitChar(d: nat): (c: char)
    requires d < 10
    ensures IsDigit(c)
  {
    ('0' as int + d) as char
  }

  /** Python `str(n)` for a natural number. */
  function NatToString(n: nat): (r: string)
    ensures |r| >= 1 && forall i :: 0 <= i < |r| ==> IsDigit(r[i])
  {
    if n < 10 then [DigitChar(n)] else NatToString(n / 10) + [DigitChar(n % 10)]
  }

  /** The number a string of decimal digits denotes. */
  function DecimalValue(s: string): nat
    requires forall i :: 0 <= i < |s| ==> IsDigit(s[i])
  {
    if s == [] then 0
    else
      assert IsDigit(s[|s| - 1]);
      10 * DecimalValue(s[..|s| - 1]) + (s[|s| - 1] as int - '0' as int)
  }

  lemma {:induction false} DecimalOfNatToString(n: nat)
    ensures DecimalValue(NatToString(n)) == n
  {
    if n >= 10 {
      var r := NatToString(n);
      assert r[..|r| - 1] == NatToString(n / 10);
      DecimalOfNatToString(n / 10);
    }
  }

  function Pow10(k: nat): (p: nat)
    ensures p >= 1
  {
    if k == 0 then 1 else 10 * Pow10(k - 1)
  }

  /** `k` digits denote a number below 10^k. */
  lemma {:induction false} DecimalBound(s: string)
    requires forall i :: 0 <= i < |s| ==> IsDigit(s[i])
    ensures DecimalValue(s) < Pow10(|s|)
  {
    if s != [] {
      DecimalBound(s[..|s| - 1]);
    }
  }

  /** A number below 10^k is written with at most `k` digits. */
  lemma {:induction false} NatToStringShort(n: nat, k: nat)
    requires 1 <= k && n < Pow10(k)
    ensures |NatToString(n)| <= k
  {
    if n >= 10 {
      assert k >= 2;
      assert n / 10 < Pow10(k - 1);
      NatToStringShort(n / 10, k - 1);
    }
  }

  /** A number of at least 100 is written with at least three digits. */
  lemma NatToStringLong(n: nat)
    requires n >= 100
    ensures |NatToString(n)| >= 3
  {
    assert |NatToString(n)| == |NatToString(n / 10)| + 1;
    assert |NatToString(n / 10)| == |NatToString(n / 100)| + 1;
  }

  /** Two digit strings of the same length that denote the same number are equal. */
  lemma {:induction false} DecimalInjective(a: string, b: string)
    requires forall i :: 0 <= i < |a| ==> IsDigit(a[i])
    requires forall i :: 0 <= i < |b| ==> IsDigit(b[i])
    requires |a| == |b| && DecimalValue(a) == DecimalValue(b)
    ensures a == b
  {
    if a != [] {
      var n := |a| - 1;
      var da := a[n] as int - '0' as int;
      var db := b[n] as int - '0' as int;
      assert 10 * DecimalValue(a[..n]) + da == 10 * DecimalValue(b[..n]) + db;
      assert da == db;
      DecimalInjective(a[..n], b[..n]);
      assert a == a[..n] + [a[n]] && b == b[..n] + [b[n]];
    }
  }

  /** Python `s.zfill(width)`: pad with '0' after an optional sign. */
  function ZFill(s: string, width: nat): (r: string)
    ensures |r| == if |s| >= width then |s| else width
  {
    if |s| >= width then s
    else
      var pad := seq(width - |s|, _ => '0');
      if s != [] && (s[0] == '+' || s[0] == '-') then [s[0]] + pad + s[1..] else pad + s
  }

  lemma ZFillDigits(s: string, width: nat)
    requires forall i :: 0 <= i < |s| ==> IsDigit(s[i])
    ensures forall i :: 0 <= i < |ZFill(s, width)| ==> IsDigit(ZFill(s, width)[i])
    ensures |s| < width ==> DecimalValue(ZFill(s, width)) == DecimalValue(s)
  {
    if |s| < width {
      LeadingZeros(width - |s|, s);
    }
  }

  lemma {:induction false} LeadingZeros(k: nat, s: string)
    requires forall i :: 0 <= i < |s| ==> IsDigit(s[i])
    ensures var z := seq(k, _ => '0') + s;
            (forall i :: 0 <= i < |z| ==> IsDigit(z[i])) && DecimalValue(z) == DecimalValue(s)
    decreases |s|
  {
    var z := seq(k, _ => '0') + s;
    if s == [] {
      assert z == seq(k, _ => '0');
      ZerosValue(k);
    } else {
      assert z[..|z| - 1] == seq(k, _ => '0') + s[..|s| - 1];
      LeadingZeros(k, s[..|s| - 1]);
    }
  }

  lemma {:induction false} ZerosValue(k: nat)
    ensures DecimalValue(seq(k, _ => '0')) == 0
  {
    if k > 0 {
      assert seq(k, _ => '0')[..k - 1] == seq(k - 1, _ => '0');
      ZerosValue(k - 1);
    }
  }

  /** Regrouping a concatenation of four parts. */
  lemma Regroup(a: string, b: string, c: string, d: string)
    ensures a + b + c + d == a + (b + c + d)
  {
  }

  lemma AppendAssoc<T>(a: seq<T>, b: seq<T>, c: seq<T>)
    ensures (a + b) + c == a + (b + c)
  {
  }

  lemma Regroup5<T>(f: seq<T>, a: seq<T>, b: seq<T>, c: seq<T>, d: seq<T>, e: seq<T>)
    ensures ((((f + a) + b) + c) + d) + e == f + ((((a + b) + c) + d) + e)
  {
  }
}
