/** `latex_escape` and `process_markdown`, the two substitution chains nested in
    `PDFGenerator._create_latex_content`. */
module Latex {
  import opened Strings
  import opened Rewrite
  import opened Patterns

  /** The four substitutions that delete `textbf{<digits>}`, `\textbf{<digits>}`, `textbf{...}`
      and `\textbf{...}` artefacts, in that order. */
  function StripTextbf(s: string): string {
    AllSound();
    var a := ReSub(s, TextbfDigits, Nothing);
    var b := ReSub(a, BsTextbfDigits, Nothing);
    var c := ReSub(b, TextbfAny, Nothing);
    ReSub(c, BsTextbfAny, Nothing)
  }

  /** The characters that get a backslash in front of them. */
  predicate IsSpecial(c: char) {
    c == '{' || c == '}' || c == '$' || c == '&' || c == '%' || c == '#' || c == '_'
  }

  predicate IsCaretOrTilde(c: char) { c == '^' || c == '~' }

  predicate NotBackslash(c: char) { c != '\\' }

  predicate IsPlainSpace(c: char) { c == ' ' }

  /** What one character of the input becomes. */
  function EscapeChar(c: char): (e: string)
    ensures e != []
  {
    match c
    case '\\' => "\\textbackslash "
    case '{' => "\\{"
    case '}' => "\\}"
    case '$' => "\\$"
    case '&' => "\\&"
    case '%' => "\\%"
    case '#' => "\\#"
    case '^' => "\\textasciicircum "
    case '_' => "\\_"
    case '~' => "\\textasciitilde "
    case _ => [c]
  }

  /** One escaped character never starts with a special character, contains no `^` or `~`,
      and has a backslash before each special character in it. */
  lemma EscapeCharFacts(c: char)
    ensures var e := EscapeChar(c);
      !IsSpecial(e[0]) && NoneOf(e, IsCaretOrTilde) && NoPair(e, NotBackslash, IsSpecial)
  {
    var e := EscapeChar(c);
    if c == '\\' || c == '^' || c == '~' {
      NoneOfMembers(e, IsCaretOrTilde);
      NoneOfMembers(e, IsSpecial);
      NoPairFromNoneOf(e, NotBackslash, IsSpecial);
    } else if IsSpecial(c) {
      assert e == ['\\', c];
    } else {
      assert e == [c];
    }
  }

  /** The character-by-character escape: the reference meaning of the replacement chain. */
  function EscapeAll(s: string): string {
    if s == [] then [] else EscapeChar(s[0]) + EscapeAll(s[1..])
  }

  /** The ten `str.replace` calls, in the order they are made: backslash first. */
  const Replacements: seq<(char, string)> := [
    ('\\', "\\textbackslash "), ('{', "\\{"), ('}', "\\}"), ('$', "\\$"), ('&', "\\&"),
    ('%', "\\%"), ('#', "\\#"), ('^', "\\textasciicircum "), ('_', "\\_"), ('~', "\\textasciitilde ")
  ]

  /** `s.replace(c, rep)` for each pair of `rs` in turn. */
  function ReplaceEach(s: string, rs: seq<(char, string)>): string
    decreases |rs|
  {
    if rs == [] then s else ReplaceEach(ReplaceAll(s, [rs[0].0], rs[0].1), rs[1..])
  }

  function ReplaceChain(s: string): string {
    ReplaceEach(s, Replacements)
  }

  /** Text holding none of the replaced characters passes the replacements unchanged. */
  lemma {:induction false} ReplaceEachAbsent(x: string, rs: seq<(char, string)>)
    requires forall k :: 0 <= k < |rs| ==> rs[k].0 !in x
    ensures ReplaceEach(x, rs) == x
    decreases |rs|
  {
    if rs != [] {
      ReplaceCharAbsent(x, rs[0].0, rs[0].1);
      assert forall k :: 0 <= k < |rs| - 1 ==> rs[1..][k] == rs[k + 1];
      ReplaceEachAbsent(x, rs[1..]);
    }
  }

  /** A character that step `k` replaces, and no step before it, ends up as that step's
      replacement when no later step touches the replacement. */
  lemma {:induction false} ReplaceEachHit(c: char, rs: seq<(char, string)>, k: nat)
    requires k < |rs| && rs[k].0 == c
    requires forall j :: 0 <= j < k ==> rs[j].0 != c
    requires forall j :: k < j < |rs| ==> rs[j].0 !in rs[k].1
    ensures ReplaceEach([c], rs) == rs[k].1
    decreases k
  {
    assert forall j :: 0 <= j < |rs| - 1 ==> rs[1..][j] == rs[j + 1];
    if k == 0 {
      ReplaceCharSelf(c, rs[0].1);
      ReplaceEachAbsent(rs[0].1, rs[1..]);
    } else {
      ReplaceCharAbsent([c], rs[0].0, rs[0].1);
      ReplaceEachHit(c, rs[1..], k - 1);
    }
  }

  /** Each replacement maps characters independently, so the replacements distribute over `+`. */
  lemma {:induction false} ReplaceEachConcat(a: string, b: string, rs: seq<(char, string)>)
    ensures ReplaceEach(a + b, rs) == ReplaceEach(a, rs) + ReplaceEach(b, rs)
    decreases |rs|
  {
    if rs != [] {
      ReplaceCharConcat(a, b, rs[0].0, rs[0].1);
      ReplaceEachConcat(ReplaceAll(a, [rs[0].0], rs[0].1), ReplaceAll(b, [rs[0].0], rs[0].1), rs[1..]);
    }
  }

  /** No character is replaced twice, and no replacement holds a character replaced later. */
  lemma ReplacementsOrdered()
    ensures forall j, k :: 0 <= j < k < |Replacements| ==> Replacements[j].0 != Replacements[k].0
    ensures forall j, k :: 0 <= k < j < |Replacements| ==> Replacements[j].0 !in Replacements[k].1
  {
  }

  /** Step `k`'s character ends up as step `k`'s replacement. */
  lemma ReplaceChainAt(c: char, k: nat)
    requires k < |Replacements| && Replacements[k].0 == c
    ensures ReplaceChain([c]) == Replacements[k].1
  {
    ReplacementsOrdered();
    ReplaceEachHit(c, Replacements, k);
  }

  /** A character that is not escaped passes all ten replacements. */
  lemma ReplaceChainPlain(c: char)
    requires c !in "\\{}$&%#^_~"
    ensures ReplaceChain([c]) == [c]
  {
    NotReplaced(c);
    ReplaceEachAbsent([c], Replacements);
  }

  lemma NotReplaced(c: char)
    requires c !in "\\{}$&%#^_~"
    ensures forall k :: 0 <= k < |Replacements| ==> Replacements[k].0 !in [c]
  {
  }

  /** On one character, the chain is its escape. */
  lemma ReplaceChainChar(c: char)
    ensures ReplaceChain([c]) == EscapeChar(c)
  {
    if c in "\\{}$&%#^_~" {
      ReplaceChainSpecial(c);
    } else {
      ReplaceChainPlain(c);
      EscapePlain(c);
    }
  }

  lemma ReplaceChainSpecial(c: char)
    requires c in "\\{}$&%#^_~"
    ensures ReplaceChain([c]) == EscapeChar(c)
  {
    var k := SpecialIndex(c);
    ReplaceChainAt(c, k);
  }

  lemma EscapePlain(c: char)
    requires c !in "\\{}$&%#^_~"
    ensures EscapeChar(c) == [c]
  {
  }

  /** The step that replaces a special character. */
  function SpecialIndex(c: char): (k: nat)
    requires c in "\\{}$&%#^_~"
    ensures k < |Replacements| && Replacements[k].0 == c && Replacements[k].1 == EscapeChar(c)
  {
    if c == '\\' then 0 else if c == '{' then 1 else if c == '}' then 2 else if c == '$' then 3
    else if c == '&' then 4 else if c == '%' then 5 else if c == '#' then 6 else if c == '^' then 7
    else if c == '_' then 8 else 9
  }

  lemma ReplaceChainConcat(a: string, b: string)
    ensures ReplaceChain(a + b) == ReplaceChain(a) + ReplaceChain(b)
  {
    ReplaceEachConcat(a, b, Replacements);
  }

  /** Backslash is replaced first, so no escape is escaped again: the chain is exactly the
      character-by-character escape. */
  lemma {:induction false} ReplaceChainIsEscapeAll(s: string)
    ensures ReplaceChain(s) == EscapeAll(s)
    decreases |s|
  {
    if s != [] {
      assert s == [s[0]] + s[1..];
      ReplaceChainConcat([s[0]], s[1..]);
      ReplaceChainChar(s[0]);
      ReplaceChainIsEscapeAll(s[1..]);
    }
  }

  lemma {:induction false} EscapeAllEscaped(p: char, s: string)
    ensures NoPair([p] + EscapeAll(s), NotBackslash, IsSpecial)
    decreases |s|
  {
    if s != [] {
      var e := EscapeChar(s[0]);
      EscapeAllEscaped(e[|e| - 1], s[1..]);
      EscapedStep(p, s[0], EscapeAll(s[1..]));
    }
  }

  /** An escape put before already escaped text, after any character `p`. */
  lemma EscapedStep(p: char, c: char, rest: string)
    requires NoPair([EscapeChar(c)[|EscapeChar(c)| - 1]] + rest, NotBackslash, IsSpecial)
    ensures NoPair([p] + (EscapeChar(c) + rest), NotBackslash, IsSpecial)
  {
    var e := EscapeChar(c);
    EscapeCharFacts(c);
    NoPairCons(p, e, NotBackslash, IsSpecial);
    NoPairGlue(p, e, rest, NotBackslash, IsSpecial);
    assert [p] + e + rest == [p] + (e + rest);
  }

  lemma {:induction false} EscapeAllNoCaret(s: string)
    ensures NoneOf(EscapeAll(s), IsCaretOrTilde)
    decreases |s|
  {
    if s != [] {
      EscapeCharFacts(s[0]);
      EscapeAllNoCaret(s[1..]);
      NoneOfConcat(EscapeChar(s[0]), EscapeAll(s[1..]), IsCaretOrTilde);
    }
  }

  /** The whitespace and control-character cleanups after escaping. */
  function CleanEscaped(e: string): string {
    AllSound();
    var n := ReSub(e, BlankLines, TwoNewlines);
    var c := ReSub(n, ControlChar, Nothing);
    ReSub(c, SpaceRun, OneSpace)
  }

  /** `latex_escape(text)`. */
  function LatexEscape(text: string): (r: string)
    ensures text == [] ==> r == []
    ensures text != [] ==> r == CleanEscaped(EscapeAll(StripTextbf(text)))
  {
    if text == [] then []
    else
      ReplaceChainIsEscapeAll(StripTextbf(text));
      CleanEscaped(ReplaceChain(StripTextbf(text)))
  }

  /** `process_markdown(text)`: the template `\\textbf{\\1}` is written out literally. */
  function ProcessMarkdown(text: string): string {
    AllSound();
    ReSub(text, LazyBold, LiteralBoldTemplate)
  }

  // ---------------------------------------------------------------------------
  // What the cleanups guarantee
  // ---------------------------------------------------------------------------

  lemma CleanNoDoubleSpace(e: string)
    ensures NoPair(CleanEscaped(e), IsPlainSpace, IsPlainSpace)
  {
    AllSound();
    var c := ReSub(ReSub(e, BlankLines, TwoNewlines), ControlChar, Nothing);
    SubMakesNoPair('\n', c, SpaceRun, OneSpace, IsPlainSpace, IsPlainSpace, '\n');
    NoPairTail('\n', ReSub(c, SpaceRun, OneSpace), IsPlainSpace, IsPlainSpace);
  }

  lemma CleanNoControl(e: string)
    ensures NoneOf(CleanEscaped(e), IsControl)
  {
    AllSound();
    var c := ReSub(ReSub(e, BlankLines, TwoNewlines), ControlChar, Nothing);
    SubAvoids('\n', ReSub(e, BlankLines, TwoNewlines), ControlChar, Nothing, IsControl);
    SubAvoids('\n', c, SpaceRun, OneSpace, IsControl);
  }

  lemma CleanKeepsEscapes(e: string)
    requires NoPair(['\n'] + e, NotBackslash, IsSpecial)
    ensures NoPair(['\n'] + CleanEscaped(e), NotBackslash, IsSpecial)
  {
    AllSound();
    var n := ReSub(e, BlankLines, TwoNewlines);
    var c := ReSub(n, ControlChar, Nothing);
    BlankLinesKeepEscapes(e);
    ControlKeepsEscapes(n);
    SpacesKeepEscapes(c);
  }

  lemma BlankLinesKeepEscapes(e: string)
    requires NoPair(['\n'] + e, NotBackslash, IsSpecial)
    ensures Sound(BlankLines) && NoPair(['\n'] + ReSub(e, BlankLines, TwoNewlines), NotBackslash, IsSpecial)
  {
    AllSound();
    SubKeepsNoPair('\n', e, BlankLines, TwoNewlines, NotBackslash, IsSpecial, '\n');
  }

  lemma ControlKeepsEscapes(e: string)
    requires NoPair(['\n'] + e, NotBackslash, IsSpecial)
    ensures Sound(ControlChar) && NoPair(['\n'] + ReSub(e, ControlChar, Nothing), NotBackslash, IsSpecial)
  {
    AllSound();
    SubKeepsNoPair('\n', e, ControlChar, Nothing, NotBackslash, IsSpecial, '\n');
  }

  lemma SpacesKeepEscapes(e: string)
    requires NoPair(['\n'] + e, NotBackslash, IsSpecial)
    ensures Sound(SpaceRun) && NoPair(['\n'] + ReSub(e, SpaceRun, OneSpace), NotBackslash, IsSpecial)
  {
    AllSound();
    SubKeepsNoPair('\n', e, SpaceRun, OneSpace, NotBackslash, IsSpecial, '\n');
  }

  lemma CleanKeepsNoCaret(e: string)
    requires NoneOf(e, IsCaretOrTilde)
    ensures NoneOf(CleanEscaped(e), IsCaretOrTilde)
  {
    AllSound();
    var n := ReSub(e, BlankLines, TwoNewlines);
    var c := ReSub(n, ControlChar, Nothing);
    BlankLinesKeepNoCaret(e);
    ControlKeepsNoCaret(n);
    SpacesKeepNoCaret(c);
  }

  lemma BlankLinesKeepNoCaret(e: string)
    requires NoneOf(e, IsCaretOrTilde)
    ensures Sound(BlankLines) && NoneOf(ReSub(e, BlankLines, TwoNewlines), IsCaretOrTilde)
  {
    AllSound();
    SubAvoids('\n', e, BlankLines, TwoNewlines, IsCaretOrTilde);
  }

  lemma ControlKeepsNoCaret(e: string)
    requires NoneOf(e, IsCaretOrTilde)
    ensures Sound(ControlChar) && NoneOf(ReSub(e, ControlChar, Nothing), IsCaretOrTilde)
  {
    AllSound();
    SubAvoids('\n', e, ControlChar, Nothing, IsCaretOrTilde);
  }

  lemma SpacesKeepNoCaret(e: string)
    requires NoneOf(e, IsCaretOrTilde)
    ensures Sound(SpaceRun) && NoneOf(ReSub(e, SpaceRun, OneSpace), IsCaretOrTilde)
  {
    AllSound();
    SubAvoids('\n', e, SpaceRun, OneSpace, IsCaretOrTilde);
  }

  /** The output of `latex_escape` has no two consecutive spaces, no control character, every
      special character right after a backslash (the first character is never special), and no
      `^` or `~` left. */
  lemma LatexEscapeClean(text: string)
    ensures var r := LatexEscape(text);
      NoPair(r, IsPlainSpace, IsPlainSpace) && NoneOf(r, IsControl)
      && NoPair(['\n'] + r, NotBackslash, IsSpecial) && NoneOf(r, IsCaretOrTilde)
  {
    if text != [] {
      var e := EscapeAll(StripTextbf(text));
      CleanNoDoubleSpace(e);
      CleanNoControl(e);
      EscapeAllEscaped('\n', StripTextbf(text));
      EscapeAllNoCaret(StripTextbf(text));
      CleanKeepsEscapes(e);
      CleanKeepsNoCaret(e);
    }
  }

  // ---------------------------------------------------------------------------
  // Bold text is lost
  // ---------------------------------------------------------------------------

  lemma {:induction false} LazyBoldEndScan(x: string, j: nat)
    requires '*' !in x && '\n' !in x && 2 <= j <= |x| + 2
    ensures LazyBoldEnd("**" + x + "**", j) == |x| + 4
    decreases |x| + 2 - j
  {
    var t := "**" + x + "**";
    if j < |x| + 2 {
      assert t[j] == x[j - 2];
      assert t[j..j + 2] != "**" by { assert t[j..j + 2][0] == x[j - 2]; }
      LazyBoldEndScan(x, j + 1);
    } else {
      assert t[j..j + 2] == "**";
    }
  }

  /** A single-line bold span becomes the literal text `\textbf{\1}`: the captured words are
      gone. */
  lemma BoldTextIsReplacedByTemplate(x: string)
    requires '*' !in x && '\n' !in x
    ensures ProcessMarkdown("**" + x + "**") == "\\textbf{\\1}"
  {
    AllSound();
    var t := "**" + x + "**";
    LazyBoldEndScan(x, 2);
    assert StartsWith(t, "**");
    assert LazyBold('\n', t) == |t|;
    assert t[..|t|] == t && t[|t|..] == [];
    assert Sub('\n', t, LazyBold, LiteralBoldTemplate)
      == LiteralBoldTemplate(t) + Sub(t[|t| - 1], [], LazyBold, LiteralBoldTemplate);
  }

  /** Single spaces are left as they are by the ` +` cleanup. */
  lemma {:induction false} SpaceRunFixed(prev: char, s: string)
    requires NoPair(s, IsPlainSpace, IsPlainSpace)
    ensures Sub(prev, s, SpaceRun, OneSpace) == s
    decreases |s|
  {
    AllSound();
    if s != [] {
      NoPairTail(s[0], s[1..], IsPlainSpace, IsPlainSpace);
      assert [s[0]] + s[1..] == s;
      SpaceRunFixed(s[0], s[1..]);
      if s[0] == ' ' {
        assert SpaceRun(prev, s) == 1 by {
          if |s| > 1 { assert !(IsPlainSpace(s[0]) && IsPlainSpace(s[1])); }
        }
      }
    }
  }

  /** Text with no newline, no control character and no two consecutive spaces is left alone
      by the three cleanups. */
  lemma CleanEscapedFixed(e: string)
    requires forall ch :: ch in e ==> ch != '\n' && !IsControl(ch)
    requires NoPair(e, IsPlainSpace, IsPlainSpace)
    ensures CleanEscaped(e) == e
  {
    AllSound();
    SubNoTrigger('\n', e, BlankLines, TwoNewlines, c => c == '\n');
    SubNoTrigger('\n', e, ControlChar, Nothing, IsControl);
    SpaceRunFixed('\n', e);
  }

  // The template, held in a parameter so that the verifier reasons about it one position at a
  // time instead of evaluating every substitution on the literal.

  lemma TemplateKeepsDigitsRule(s: string)
    requires s == "\\textbf{\\1}"
    ensures ReSub(s, TextbfDigits, Nothing) == s
  {
    AllSound();
    forall i | 0 <= i < |s| ensures !MatchesAt('\n', s, TextbfDigits, i) {
      TemplateNoDigitsAt(s, i);
    }
    SubIdentity('\n', s, TextbfDigits, Nothing);
  }

  /** Only the two `t`s of the template could start `textbf{`; the second is followed by `b`,
      and the digits rule finds a backslash where its digits should be after the first. */
  lemma TemplateNoDigitsAt(s: string, i: nat)
    requires s == "\\textbf{\\1}" && i < |s|
    ensures TextbfDigits(Ctx('\n', s, i), s[i..]) == 0
  {
    var t := s[i..];
    assert t[0] == s[i];
    if i == 1 {
      assert t[7..] == "\\1}";
      assert SpaceSpan(t[7..]) == 0 && DigitSpan(t[7..]) == 0;
    } else if i == 4 {
      assert t[1] == 'b';
      NotOpenAt(Ctx('\n', s, i), t, 1);
    } else {
      assert s[i] != 't';
      NotOpenAt(Ctx('\n', s, i), t, 0);
    }
  }

  /** The digits rule does not match where `t` differs from `textbf{` at position `k`. */
  lemma NotOpenAt(prev: char, t: string, k: nat)
    requires k < |t| && k < 7 && t[k] != "textbf{"[k]
    ensures TextbfDigits(prev, t) == 0
  {
    assert !StartsWith(t, "textbf{") by {
      if 7 <= |t| {
        assert t[..7][k] == t[k];
      }
    }
  }

  lemma TemplateKeepsBsDigitsRule(s: string)
    requires s == "\\textbf{\\1}"
    ensures ReSub(s, BsTextbfDigits, Nothing) == s
  {
    AllSound();
    forall i | 0 <= i < |s| ensures !MatchesAt('\n', s, BsTextbfDigits, i) {
      TemplateNoBsDigitsAt(s, i);
    }
    SubIdentity('\n', s, BsTextbfDigits, Nothing);
  }

  /** Only the two backslashes of the template could start `\textbf{`; the second has too little
      text after it, and the digits rule finds a backslash where its digits should be after the
      first. */
  lemma TemplateNoBsDigitsAt(s: string, i: nat)
    requires s == "\\textbf{\\1}" && i < |s|
    ensures BsTextbfDigits(Ctx('\n', s, i), s[i..]) == 0
  {
    var t := s[i..];
    assert t[0] == s[i];
    if i == 0 {
      assert t[8..] == "\\1}";
      assert SpaceSpan(t[8..]) == 0 && DigitSpan(t[8..]) == 0;
    } else if i < 8 {
      assert s[i] != '\\';
      NotBsOpenAt(Ctx('\n', s, i), t, 0);
    } else {
      assert |t| < 8;
    }
  }

  /** The backslash digits rule does not match where `t` differs from `\textbf{` at position `k`. */
  lemma NotBsOpenAt(prev: char, t: string, k: nat)
    requires k < |t| && k < 8 && t[k] != "\\textbf{"[k]
    ensures BsTextbfDigits(prev, t) == 0
  {
    assert !StartsWith(t, "\\textbf{") by {
      if 8 <= |t| {
        assert t[..8][k] == t[k];
      }
    }
  }

  lemma TemplateLosesTextbf(s: string)
    requires s == "\\textbf{\\1}"
    ensures ReSub(s, TextbfAny, Nothing) == "\\"
  {
    AllSound();
    assert s[1..][7..] == "\\1}";
    assert TextbfAny('\\', s[1..]) == 10;
    assert Sub('\\', s[1..], TextbfAny, Nothing) == Nothing(s[1..]) + Sub('}', [], TextbfAny, Nothing);
    assert Sub('\n', s, TextbfAny, Nothing) == [s[0]] + Sub('\\', s[1..], TextbfAny, Nothing);
  }

  lemma BackslashKeepsBsTextbfAny(s: string)
    requires s == "\\"
    ensures ReSub(s, BsTextbfAny, Nothing) == s
  {
    AllSound();
    assert Sub('\n', s, BsTextbfAny, Nothing) == [s[0]] + Sub('\\', [], BsTextbfAny, Nothing);
  }

  lemma StripTextbfOfTemplate(s: string)
    requires s == "\\textbf{\\1}"
    ensures StripTextbf(s) == "\\"
  {
    AllSound();
    TemplateKeepsDigitsRule(s);
    TemplateKeepsBsDigitsRule(s);
    TemplateLosesTextbf(s);
    BackslashKeepsBsTextbfAny(ReSub(s, TextbfAny, Nothing));
  }

  /** `\textbackslash ` passes the three cleanups unchanged. */
  lemma CleanOfTextbackslash(e: string)
    requires e == "\\textbackslash "
    ensures CleanEscaped(e) == e
  {
    var x := "\\textbackslash";
    assert e == x + " ";
    forall i | 0 <= i < |e| - 1 ensures !IsPlainSpace(e[i]) {
      assert e[i] == x[i] && x[i] in x;
    }
    CleanEscapedFixed(e);
  }

  /** `latex_escape` deletes `textbf{\1}` from the template and leaves the lone backslash as
      `\textbackslash `. */
  lemma TemplateEscapesToBackslash(s: string)
    requires s == "\\textbf{\\1}"
    ensures LatexEscape(s) == "\\textbackslash "
  {
    StripTextbfOfTemplate(s);
    var b := StripTextbf(s);
    assert EscapeAll(b) == EscapeChar(b[0]) + EscapeAll(b[1..]);
    CleanOfTextbackslash(EscapeAll(b));
  }

  /** A single-line bold span reaches the document as `\textbackslash `: its words are lost. */
  lemma BoldTextIsLost(x: string)
    requires '*' !in x && '\n' !in x
    ensures LatexEscape(ProcessMarkdown("**" + x + "**")) == "\\textbackslash "
  {
    BoldTextIsReplacedByTemplate(x);
    TemplateEscapesToBackslash(ProcessMarkdown("**" + x + "**"));
  }
}
