/** `AudioGenerator._preprocess_text_for_speech`: the substitution pipeline that turns a capsule
    script into the text sent to the speech synthesiser. */
module Speech {
  import opened Strings
  import opened Rewrite
  import opened Patterns

  // ---------------------------------------------------------------------------
  // Replacement texts
  // ---------------------------------------------------------------------------

  const QcmAnnouncement: string := "\n\nMaintenant, testons vos connaissances avec un Q.C.M.\n\n"

  function AnnounceQcm(x: string): string { QcmAnnouncement }
  function SaySituation(x: string): string { "Voici une situation pratique : " }
  function SayQuestion(x: string): string { "Question : " }
  function SayAnswer(x: string): string { "\n\nLa bonne réponse est : " }
  function SayExplanation(x: string): string { "\n\nExplication : " }
  function SayConclusion(x: string): string { "\n\nPour conclure," }
  function SayNextPoint(x: string): string { "\n\nPassons maintenant au point suivant." }

  const AnswerCue: string := "La bonne réponse est :"
  const ExplanationCue: string := "Explication :"

  /** The pronunciation table, in the dict's insertion order. */
  const Pronunciations: seq<(string, string)> := [
    ("RGPD", "R.G.P.D."), ("CNIL", "C.N.I.L."), ("API", "A.P.I."), ("URL", "U.R.L."),
    ("QCM", "Q.C.M."), ("etc.", "et cetera"), ("ex.", "par exemple"), ("cf.", "voir"),
    ("&", "et")
  ]

  // ---------------------------------------------------------------------------
  // The pipeline, stage by stage
  // ---------------------------------------------------------------------------

  /** The QCM marker becomes a spoken announcement and the QCM labels become spoken phrases. */
  function MarkSections(text: string): string {
    AllSound();
    var a := ReSub(text, SpeechMarker, AnnounceQcm);
    var b := ReSub(a, SituationLabel, SaySituation);
    var c := ReSub(b, QuestionLabel, SayQuestion);
    var d := ReSub(c, AnswerLabelAccented, SayAnswer);
    var e := ReSub(d, AnswerLabelPlain, SayAnswer);
    ReSub(e, ExplanationLabel, SayExplanation)
  }

  /** Parenthesised bold titles are dropped or spoken, then bold and italic markers go. */
  function StripMarkdown(text: string): string {
    AllSound();
    var a := ReSub(text, IntroductionTitle, Nothing);
    var b := ReSub(a, ConclusionTitle, SayConclusion);
    var c := ReSub(b, PointTitle, SayNextPoint);
    var d := ReSub(c, BodyTitle, Nothing);
    var e := ReSub(d, TransitionTitle, TwoNewlines);
    var f := ReSub(e, AnyParenTitle, Nothing);
    var g := ReSub(f, DoubleStar, InnerOfDoubleStar);
    ReSub(g, SingleStar, InnerOfSingleStar)
  }

  /** The option rule for letter `L`: `\nL\)\s*`, replaced by `\nOption L : `. */
  function OptionTagOf(L: char): Matcher {
    (prev: char, t: string) => OptionTagEnd(L, t)
  }

  function SayOptionOf(L: char): string -> string {
    (x: string) => "\nOption " + [L] + " : "
  }

  /** `\nA)` .. `\nD)` and the blanks after them become `\nOption X : `, one rule per letter. */
  function SpokenOptions(text: string): string {
    var a := ReSub(text, OptionTagOf('A'), SayOptionOf('A'));
    var b := ReSub(a, OptionTagOf('B'), SayOptionOf('B'));
    var c := ReSub(b, OptionTagOf('C'), SayOptionOf('C'));
    ReSub(c, OptionTagOf('D'), SayOptionOf('D'))
  }

  /** A pause before the answer and before the explanation (literal patterns, so `re.sub` is
      `str.replace`). */
  function AddPauses(text: string): string {
    var a := ReplaceAll(text, AnswerCue, "<break time=\"2s\"/>" + AnswerCue);
    ReplaceAll(a, ExplanationCue, "<break time=\"1s\"/>" + ExplanationCue)
  }

  /** The pronunciation table, applied entry by entry with plain substring replacement. */
  function Pronounce(text: string): string {
    ReplaceSeq(text, Pronunciations)
  }

  /** A break tag after every `.` or `;` followed by whitespace. */
  function BreakAtPunctuation(text: string): string {
    AllSound();
    ReSub(ReSub(text, DotSpace, DotBreak), SemicolonSpace, SemicolonBreak)
  }

  /** `re.sub(r'\s+', ' ', text).strip()` */
  function CollapseSpace(text: string): string {
    AllSound();
    Strip(ReSub(text, WsRun, OneSpace))
  }

  /** Everything up to the whitespace cleanup. */
  function Spoken(text: string): string {
    CollapseSpace(BreakAtPunctuation(Pronounce(AddPauses(SpokenOptions(StripMarkdown(MarkSections(text)))))))
  }

  /** `_preprocess_text_for_speech`: the last rule, for runs of three line breaks, included. */
  function PreprocessForSpeech(text: string): string {
    AllSound();
    ReSub(Spoken(text), ThreeNewlines, TwoNewlines)
  }

  // ---------------------------------------------------------------------------
  // Whitespace
  // ---------------------------------------------------------------------------

  predicate IsLineBreak(c: char) { c == '\n' }
  predicate IsDot(c: char) { c == '.' }
  predicate IsSemicolon(c: char) { c == ';' }

  /** After `\s+` -> ' ', every whitespace character is a plain space and no two are adjacent. */
  lemma CollapsedSpaces(s: string)
    ensures var c := ReSub(s, WsRun, OneSpace);
      NoneOf(c, IsOtherSpace) && NoPair(c, IsSpace, IsSpace)
  {
    AllSound();
    SubAvoids('\n', s, WsRun, OneSpace, IsOtherSpace);
    SubMakesNoPair('\n', s, WsRun, OneSpace, IsSpace, IsSpace, 'x');
    NoPairTail('x', ReSub(s, WsRun, OneSpace), IsSpace, IsSpace);
  }

  /** `CollapseSpace` leaves only single plain spaces, none at either end. */
  lemma CollapseSpaceClean(s: string)
    ensures var r := CollapseSpace(s);
      IsStripped(r) && NoneOf(r, IsOtherSpace) && NoPair(r, IsSpace, IsSpace) && '\n' !in r
  {
    AllSound();
    CollapsedSpaces(s);
    var c := ReSub(s, WsRun, OneSpace);
    StripKeepsClean(c, IsOtherSpace, IsSpace, IsSpace);
    NoLineBreak(Strip(c));
  }

  lemma NoLineBreak(r: string)
    requires NoneOf(r, IsOtherSpace)
    ensures '\n' !in r
  {
    assert IsOtherSpace('\n');
    assert forall i :: 0 <= i < |r| ==> r[i] != '\n';
  }

  /** The rule for three or more line breaks never matches: there is no line break left. */
  lemma LastRuleNeverMatches(text: string)
    ensures PreprocessForSpeech(text) == Spoken(text)
  {
    AllSound();
    var s := Spoken(text);
    CollapseSpaceClean(BreakAtPunctuation(Pronounce(AddPauses(SpokenOptions(StripMarkdown(MarkSections(text)))))));
    SubNoTrigger('\n', s, ThreeNewlines, TwoNewlines, IsLineBreak);
  }

  /** The synthesiser's input has no whitespace at either end, no line break, no whitespace
      other than ' ', and no two whitespace characters in a row. */
  lemma SpeechWhitespace(text: string)
    ensures var r := PreprocessForSpeech(text);
      IsStripped(r) && '\n' !in r && NoneOf(r, IsOtherSpace) && NoPair(r, IsSpace, IsSpace)
  {
    LastRuleNeverMatches(text);
    CollapseSpaceClean(BreakAtPunctuation(Pronounce(AddPauses(SpokenOptions(StripMarkdown(MarkSections(text)))))));
  }

  // ---------------------------------------------------------------------------
  // Pauses at punctuation
  // ---------------------------------------------------------------------------

  /** `<c><tag><blanks>` has no `a` directly followed by whitespace, when the tag does not
      start with whitespace, has no such pair itself and does not end with an `a`. */
  lemma TaggedPunctuation(c: char, tag: string, w: string, a: char -> bool)
    requires tag != [] && !IsSpace(tag[0]) && NoPair(tag, a, IsSpace) && !a(tag[|tag| - 1])
    requires forall i :: 0 <= i < |w| ==> IsSpace(w[i])
    requires forall ch :: a(ch) ==> !IsSpace(ch)
    ensures NoPair([c] + tag + w, a, IsSpace)
  {
    var o := [c] + tag + w;
    forall i | 0 <= i < |o| - 1 ensures !(a(o[i]) && IsSpace(o[i + 1])) {
      if i == 0 {
        assert o[1] == tag[0];
      } else if i < |tag| {
        assert o[i] == tag[i - 1] && o[i + 1] == tag[i];
      } else if i == |tag| {
        assert o[i] == tag[|tag| - 1];
      } else {
        assert o[i] == w[i - |tag| - 1];
      }
    }
  }

  predicate IsVisibleAscii(c: char) { '!' <= c <= '~' }

  /** A text whose only whitespace is one space, not preceded by an `a`. */
  lemma SingleSpacePairs(t: string, x: string, y: string, a: char -> bool)
    requires t == x + " " + y && x != [] && !a(x[|x| - 1])
    requires forall ch :: ch in x ==> IsVisibleAscii(ch)
    requires forall ch :: ch in y ==> IsVisibleAscii(ch)
    ensures NoPair(t, a, IsSpace)
  {
    forall i | 0 <= i < |t| - 1 ensures !(a(t[i]) && IsSpace(t[i + 1])) {
      if i + 1 < |x| {
        assert t[i + 1] == x[i + 1] && x[i + 1] in x;
      } else if i + 1 > |x| {
        assert t[i + 1] == y[i - |x|] && y[i - |x|] in y;
      } else {
        assert t[i] == x[|x| - 1];
      }
    }
  }

  /** The two break tags hold no `.` or `;` followed by whitespace, and start and end with `<`
      and `>`. */
  lemma BreakTagFacts()
    ensures NoPair(DotBreakTag, IsDot, IsSpace) && NoPair(DotBreakTag, IsSemicolon, IsSpace)
    ensures NoPair(SemicolonBreakTag, IsDot, IsSpace)
    ensures NoPair(SemicolonBreakTag, IsSemicolon, IsSpace)
    ensures DotBreakTag[0] == '<' && DotBreakTag[|DotBreakTag| - 1] == '>'
    ensures SemicolonBreakTag[0] == '<' && SemicolonBreakTag[|SemicolonBreakTag| - 1] == '>'
  {
    SingleSpacePairs(DotBreakTag, "<break", "time=\"0.5s\"/>", IsDot);
    SingleSpacePairs(DotBreakTag, "<break", "time=\"0.5s\"/>", IsSemicolon);
    SingleSpacePairs(SemicolonBreakTag, "<break", "time=\"0.3s\"/>", IsDot);
    SingleSpacePairs(SemicolonBreakTag, "<break", "time=\"0.3s\"/>", IsSemicolon);
  }

  /** The `.` rule leaves no `.` followed by whitespace. */
  lemma DotsPaused(s: string)
    ensures NoPair(['\n'] + ReSub(s, DotSpace, DotBreak), IsDot, IsSpace)
  {
    AllSound();
    BreakTagFacts();
    forall c, t | DotSpace(c, t) > 0
      ensures MakesPairs(t, DotSpace(c, t), DotBreak(t[..DotSpace(c, t)]), IsDot, IsSpace)
    {
      var n := DotSpace(c, t);
      var w := t[..n][1..];
      assert forall i :: 0 <= i < |w| ==> IsSpace(w[i]) by {
        forall i | 0 <= i < |w| ensures IsSpace(w[i]) { assert w[i] == t[i + 1]; }
      }
      TaggedPunctuation('.', DotBreakTag, w, IsDot);
      assert DotBreak(t[..n]) == ['.'] + DotBreakTag + w;
    }
    SubMakesNoPair('\n', s, DotSpace, DotBreak, IsDot, IsSpace, '\n');
  }

  /** The `;` rule leaves no `;` followed by whitespace and keeps the `.` fact. */
  lemma SemicolonsPaused(s: string)
    requires NoPair(['\n'] + s, IsDot, IsSpace)
    ensures NoPair(['\n'] + ReSub(s, SemicolonSpace, SemicolonBreak), IsDot, IsSpace)
    ensures NoPair(['\n'] + ReSub(s, SemicolonSpace, SemicolonBreak), IsSemicolon, IsSpace)
  {
    AllSound();
    forall c, t | SemicolonSpace(c, t) > 0
      ensures var n := SemicolonSpace(c, t); var o := SemicolonBreak(t[..n]);
        MakesPairs(t, n, o, IsSemicolon, IsSpace) && KeepsPairs(t, n, o, IsDot, IsSpace)
    {
      SemicolonMatchPaused(c, t);
    }
    SubMakesNoPair('\n', s, SemicolonSpace, SemicolonBreak, IsSemicolon, IsSpace, '\n');
    SubKeepsNoPair('\n', s, SemicolonSpace, SemicolonBreak, IsDot, IsSpace, '\n');
  }

  /** One `;(\s+)` match: its replacement leaves no `;` or `.` directly before whitespace. */
  lemma SemicolonMatchPaused(c: char, t: string)
    requires SemicolonSpace(c, t) > 0
    ensures var n := SemicolonSpace(c, t); var o := SemicolonBreak(t[..n]);
      MakesPairs(t, n, o, IsSemicolon, IsSpace) && KeepsPairs(t, n, o, IsDot, IsSpace)
  {
    BreakTagFacts();
    var n := SemicolonSpace(c, t);
    var w := t[..n][1..];
    assert forall i :: 0 <= i < |w| ==> IsSpace(w[i]) by {
      forall i | 0 <= i < |w| ensures IsSpace(w[i]) { assert w[i] == t[i + 1]; }
    }
    TaggedPunctuation(';', SemicolonBreakTag, w, IsSemicolon);
    TaggedPunctuation(';', SemicolonBreakTag, w, IsDot);
    assert SemicolonBreak(t[..n]) == [';'] + SemicolonBreakTag + w;
  }


  /** Collapsing whitespace cannot put whitespace right after a character that had none. */
  lemma CollapseKeepsPaused(s: string, a: char -> bool)
    requires forall ch :: a(ch) ==> !IsSpace(ch)
    requires NoPair(['\n'] + s, a, IsSpace)
    ensures NoPair(CollapseSpace(s), a, IsSpace)
  {
    AllSound();
    SubKeepsNoPair('\n', s, WsRun, OneSpace, a, IsSpace, '\n');
    var c := ReSub(s, WsRun, OneSpace);
    NoPairTail('\n', c, a, IsSpace);
    var k := |c| - |LStrip(c)|;
    NoPairSlice(c, a, IsSpace, k, k + |CollapseSpace(s)|);
  }

  /** In the synthesiser's input no `.` and no `;` is directly followed by whitespace: each such
      pair got a break tag in between. */
  lemma PunctuationPaused(text: string)
    ensures NoPair(PreprocessForSpeech(text), IsDot, IsSpace)
    ensures NoPair(PreprocessForSpeech(text), IsSemicolon, IsSpace)
  {
    LastRuleNeverMatches(text);
    BreaksSurviveCollapse(Pronounce(AddPauses(SpokenOptions(StripMarkdown(MarkSections(text))))));
  }

  /** The break tags and the whitespace collapse leave no '.' or ';' followed by whitespace,
      whatever text they are applied to. */
  lemma BreaksSurviveCollapse(p: string)
    ensures NoPair(CollapseSpace(BreakAtPunctuation(p)), IsDot, IsSpace)
    ensures NoPair(CollapseSpace(BreakAtPunctuation(p)), IsSemicolon, IsSpace)
  {
    AllSound();
    var d := ReSub(p, DotSpace, DotBreak);
    var e := ReSub(d, SemicolonSpace, SemicolonBreak);
    assert BreakAtPunctuation(p) == e;
    DotsPaused(p);
    SemicolonsPaused(d);
    assert forall ch :: IsDot(ch) ==> !IsSpace(ch);
    assert forall ch :: IsSemicolon(ch) ==> !IsSpace(ch);
    CollapseKeepsPaused(e, IsDot);
    CollapseKeepsPaused(e, IsSemicolon);
  }

  /** A `.` followed by whitespace gets the half-second break right after it. */
  lemma DotGetsBreak(prev: char, t: string)
    requires |t| >= 2 && t[0] == '.' && IsSpace(t[1])
    ensures StartsWith(Sub(prev, t, DotSpace, DotBreak), "." + DotBreakTag)
  {
    AllSound();
    var n := DotSpace(prev, t);
    assert DotBreak(t[..n]) == "." + DotBreakTag + t[..n][1..];
  }

  /** A `;` followed by whitespace gets the short break right after it. */
  lemma SemicolonGetsBreak(prev: char, t: string)
    requires |t| >= 2 && t[0] == ';' && IsSpace(t[1])
    ensures StartsWith(Sub(prev, t, SemicolonSpace, SemicolonBreak), ";" + SemicolonBreakTag)
  {
    AllSound();
    var n := SemicolonSpace(prev, t);
    assert SemicolonBreak(t[..n]) == ";" + SemicolonBreakTag + t[..n][1..];
  }

  // ---------------------------------------------------------------------------
  // Options and pronunciation
  // ---------------------------------------------------------------------------

  /** A line starting `L)`, for any option letter `L` from `A` to `D`, is announced as
      `Option L : `, its leading blanks dropped. */
  lemma OptionLineSpoken(L: char, prev: char, x: string, rest: string)
    requires L in "ABCD"
    requires rest == [] || !IsSpace(rest[0])
    requires forall i :: 0 <= i < |x| ==> IsSpace(x[i])
    ensures Sub(prev, ['\n', L, ')'] + x + rest, OptionTagOf(L), SayOptionOf(L))
      == "\nOption " + [L] + " : "
         + Sub(if x == [] then ')' else x[|x| - 1], rest, OptionTagOf(L), SayOptionOf(L))
  {
    var m, r := OptionTagOf(L), SayOptionOf(L);
    var t := ['\n', L, ')'] + x + rest;
    var k := 3 + |x|;
    assert m(prev, t) == k by { OptionTagSpan(L, x, rest); }
    SubFirstMatch(prev, t, m, r, k);
    assert r(t[..k]) == "\nOption " + [L] + " : ";
    assert t[k..] == rest;
    assert t[k - 1] == if x == [] then ')' else x[|x| - 1];
  }

  lemma OptionTagSpan(L: char, x: string, rest: string)
    requires rest == [] || !IsSpace(rest[0])
    requires forall i :: 0 <= i < |x| ==> IsSpace(x[i])
    ensures OptionTagEnd(L, ['\n', L, ')'] + x + rest) == 3 + |x|
  {
    var t := ['\n', L, ')'] + x + rest;
    assert t[3..] == x + rest;
    SpanOfBlanks(x, rest);
    assert StartsWith(t, ['\n', L, ')']);
  }

  lemma {:induction false} SpanOfBlanks(x: string, rest: string)
    requires rest == [] || !IsSpace(rest[0])
    requires forall i :: 0 <= i < |x| ==> IsSpace(x[i])
    ensures SpaceSpan(x + rest) == |x|
    decreases |x|
  {
    if x == [] {
      assert x + rest == rest;
    } else {
      assert (x + rest)[1..] == x[1..] + rest;
      SpanOfBlanks(x[1..], rest);
    }
  }

  /** `str.replace` ignores word boundaries: an occurrence of the pattern that ends a longer word
      (`index.` for `ex.`) is rewritten like any other. */
  lemma {:induction false} ReplaceInsideWord(a: string, pat: string, rep: string, b: string)
    requires |pat| > 0
    requires forall j :: 0 <= j < |a| ==> !OccursAt(a + pat + b, pat, j)
    ensures ReplaceAll(a + pat + b, pat, rep) == a + rep + ReplaceAll(b, pat, rep)
    decreases |a|
  {
    var s := a + pat + b;
    if a == [] {
      assert s == pat + b;
      assert s[..|pat|] == pat && s[|pat|..] == b;
    } else {
      assert !OccursAt(s, pat, 0);
      assert |s| >= |pat| && s[..|pat|] != pat;
      assert s[1..] == a[1..] + pat + b;
      forall j | 0 <= j < |a[1..]| ensures !OccursAt(a[1..] + pat + b, pat, j) {
        assert !OccursAt(s, pat, j + 1);
        assert s[j + 1..j + 1 + |pat|] == (a[1..] + pat + b)[j..j + |pat|];
      }
      ReplaceInsideWord(a[1..], pat, rep, b);
      assert [a[0]] + (a[1..] + rep + ReplaceAll(b, pat, rep)) == a + rep + ReplaceAll(b, pat, rep);
    }
  }
}
