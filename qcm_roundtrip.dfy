/** The QCM text that `ContentGenerator._format_qcm_for_script` writes is read back by
    `PDFGenerator._format_qcm_simple`: for fields that are single, non-empty, stripped lines
    without the characters its cleanup rules react to, parsing the formatted text gives back
    the fields. */
module QcmRoundTrip {
  import opened Strings
  import opened Rewrite
  import opened Patterns
  import opened Latex
  import opened QcmRender
  import opened ScriptAssembly

  // ---------------------------------------------------------------------------
  // The cleanup before the split leaves the body alone
  // ---------------------------------------------------------------------------

  lemma OpeningSpans(t: string)
    requires |t| > 8 && t[0] == '=' && t[1] == '=' && t[2] == '=' && t[3] == ' '
    requires t[4] == 'Q' && t[5] == 'C' && t[6] == 'M' && t[7] == ' ' && IsDigit(t[8])
    ensures CharSpan(t, '=') == 3 && SpaceSpan(t[3..]) == 1
    ensures StartsWithQcmCI(t[4..]) && SpaceSpan(t[7..]) == 1
  {
    assert t[3..][0] == ' ' && t[3..][1] == 'Q';
    assert t[4..][0] == 'Q' && t[4..][1] == 'C' && t[4..][2] == 'M';
    assert t[7..][0] == ' ' && t[7..][1] == t[8];
  }

  lemma DigitRun(t: string, l: nat)
    requires 8 + l < |t| && (forall i :: 8 <= i < 8 + l ==> IsDigit(t[i])) && !IsDigit(t[8 + l])
    ensures DigitSpan(t[8..]) == l
  {
    forall i | 0 <= i < l ensures IsDigit(t[8..][i]) { assert t[8..][i] == t[8 + i]; }
    assert t[8..][l] == t[8 + l];
  }

  lemma ClosingSpans(t: string, l: nat)
    requires 14 + l < |t| && t[8 + l] == ' ' && t[9 + l] == '=' && t[10 + l] == '=' && t[11 + l] == '='
    requires t[12 + l] == '\n' && t[13 + l] == '\n' && !IsSpace(t[14 + l])
    ensures SpaceSpan(t[8 + l..]) == 1 && CharSpan(t[9 + l..], '=') == 3 && SpaceSpan(t[12 + l..]) == 2
  {
    assert t[8 + l..][0] == ' ' && t[8 + l..][1] == '=';
    assert t[9 + l..][0] == '=' && t[9 + l..][1] == '=' && t[9 + l..][2] == '=' && t[9 + l..][3] == '\n';
    assert t[12 + l..][0] == '\n' && t[12 + l..][1] == '\n' && t[12 + l..][2] == t[14 + l];
  }

  /** A marker line of this shape is matched up to the first non-space after it. */
  lemma MarkerSpans(t: string, l: nat)
    requires l > 0 && 14 + l < |t|
    requires t[0] == '=' && t[1] == '=' && t[2] == '=' && t[3] == ' '
    requires t[4] == 'Q' && t[5] == 'C' && t[6] == 'M' && t[7] == ' '
    requires (forall i :: 8 <= i < 8 + l ==> IsDigit(t[i])) && t[8 + l] == ' '
    requires t[9 + l] == '=' && t[10 + l] == '=' && t[11 + l] == '='
    requires t[12 + l] == '\n' && t[13 + l] == '\n' && !IsSpace(t[14 + l])
    ensures MarkerLine('\n', t) == 14 + l
  {
    assert IsDigit(t[8]);
    OpeningSpans(t);
    DigitRun(t, l);
    assert NumberedQcmEnd(t, 4) == 8 + l;
    ClosingSpans(t, l);
    assert ClosingRunEnd(t, 8 + l) == 12 + l;
    assert MarkerHead(t) == 12 + l;
  }

  /** The marker rule removes exactly `=== QCM <digits> ===\n\n` in front of a line that does
      not start with white space. */
  lemma MarkerMatch(p1: string, d: string, p2: string, rest: string)
    requires p1 == "=== QCM " && p2 == " ===\n\n"
    requires d != [] && forall i :: 0 <= i < |d| ==> IsDigit(d[i])
    requires rest != [] && !IsSpace(rest[0])
    ensures MarkerLine('\n', p1 + d + p2 + rest) == |p1 + d + p2|
  {
    var t := p1 + d + p2 + rest;
    var l := |d|;
    assert forall i :: 0 <= i < 8 ==> t[i] == p1[i];
    assert forall i :: 0 <= i < l ==> t[8 + i] == d[i];
    assert forall i :: 0 <= i < 6 ==> t[8 + l + i] == p2[i];
    assert t[14 + l] == rest[0];
    MarkerSpans(t, l);
  }

  /** The marker rule removes the marker of a formatted QCM and nothing else, when the body
      has no '='. */
  lemma MarkerRemoved(n: nat, body: string)
    requires body != [] && !IsSpace(body[0]) && '=' !in body
    ensures ReSub(Marker(n) + body, MarkerLine, Nothing) == body
  {
    AllSound();
    var p1, d, p2 := "=== QCM ", NatToString(n), " ===\n\n";
    var t := Marker(n) + body;
    assert t == p1 + d + p2 + body;
    MarkerMatch(p1, d, p2, body);
    var m := |p1 + d + p2|;
    assert t[m..] == body && t[m - 1] == '\n';
    SubFirstMatch('\n', t, MarkerLine, Nothing, m);
    assert Nothing(t[..m]) == "";
    SubNoTrigger('\n', body, MarkerLine, Nothing, c => c == '=');
  }

  /** Without '\\' and '}', none of the artefact rules matches. */
  lemma ArtefactRulesIdle(s: string)
    requires '\\' !in s && '}' !in s
    ensures ReSub(s, BsTextbackslash, OneSpace) == s
    ensures StripTextbf(s) == s
    ensures ReSub(s, BsTextCommand, Nothing) == s
  {
    AllSound();
    assert forall c, t :: BsTextbackslash(c, t) > 0 ==> t != [] && t[0] == '\\' by {
      forall c, t | BsTextbackslash(c, t) > 0 ensures t != [] && t[0] == '\\' {
        assert t[..14][0] == '\\';
      }
    }
    SubNoTrigger('\n', s, BsTextbackslash, OneSpace, c => c == '\\');
    SubNoClosing('\n', s, TextbfDigits, Nothing, '}');
    SubNoClosing('\n', s, BsTextbfDigits, Nothing, '}');
    SubNoClosing('\n', s, TextbfAny, Nothing, '}');
    SubNoClosing('\n', s, BsTextbfAny, Nothing, '}');
    SubNoClosing('\n', s, BsTextCommand, Nothing, '}');
  }

  /** The whole-text cleanup of the parser reduces a formatted QCM to its body. */
  lemma CleanedToBody(n: nat, body: string)
    requires body != [] && !IsSpace(body[0])
    requires '=' !in body && '\\' !in body && '}' !in body
    ensures CleanQcmText(Marker(n) + body) == body
  {
    MarkerRemoved(n, body);
    ArtefactRulesIdle(body);
  }

  // ---------------------------------------------------------------------------
  // Fields that survive the trip
  // ---------------------------------------------------------------------------

  /** None of the characters the cleanup rules or the line split react to. */
  predicate LinePlain(x: string) {
    '\n' !in x && '=' !in x && '\\' !in x && '}' !in x
  }

  /** One non-empty stripped line without '=', '\\' or '}'. */
  predicate PlainField(x: string) {
    x != [] && IsStripped(x) && LinePlain(x)
  }

  /** `^[A-D]\)` accepts the letter in either case. */
  predicate OptionKey(k: string) {
    |k| == 1 && k[0] in "ABCDabcd"
  }

  predicate PlainOptions(options: seq<(string, string)>) {
    forall o :: o in options ==> OptionKey(o.0) && PlainField(o.1)
  }

  /** The QCMs whose formatted text parses back to their fields. */
  predicate PlainQcm(q: Qcm) {
    PlainField(q.situation) && PlainField(q.question) && PlainField(q.answer) && PlainField(q.explanation)
    && PlainOptions(q.options)
  }

  /** The option texts, in the dictionary's order. */
  function OptionValues(options: seq<(string, string)>): (r: seq<string>)
    ensures |r| == |options| && forall i :: 0 <= i < |options| ==> r[i] == options[i].1
  {
    if options == [] then [] else OptionValues(options[..|options| - 1]) + [options[|options| - 1].1]
  }

  // ---------------------------------------------------------------------------
  // Line facts
  // ---------------------------------------------------------------------------

  /** A label followed by a plain field: a stripped line with none of the excluded characters. */
  lemma LabelledPlain(tag: string, x: string)
    requires tag != [] && !IsSpace(tag[0]) && PlainField(x)
    requires LinePlain(tag)
    ensures PlainField(tag + x) && (tag + x)[0] == tag[0]
  {
    var l := tag + x;
    assert l[|l| - 1] == x[|x| - 1];
  }

  /** A line is cleaned to itself by the per-line cleanup. */
  lemma CleanLineIdle(l: string)
    requires IsStripped(l) && '\\' !in l && '}' !in l
    ensures CleanLine(l) == l
  {
    ArtefactRulesIdle(l);
  }

  /** A line that starts with `kw` (made of characters `upper()` keeps) has label `kw`. */
  lemma HasLabelOf(l: string, kw: string)
    requires StartsWith(l, kw) && forall i :: 0 <= i < |kw| ==> UpperChar(kw[i]) == kw[i]
    ensures HasLabel(l, kw)
  {
    forall i | 0 <= i < |kw| ensures Upper(l)[i] == kw[i] {
      assert l[i] == kw[i];
    }
  }

  /** A line whose upper-cased first character differs from the label's has not got it. */
  lemma NotLabel(l: string, kw: string)
    requires l != [] && kw != [] && UpperChar(l[0]) != kw[0]
    ensures !HasLabel(l, kw)
  {
    assert Upper(l)[0] == UpperChar(l[0]);
  }

  /** Cutting a label of `k + 1` characters and stripping leaves the field. */
  lemma FieldAfterLabel(tag: string, x: string)
    requires |tag| >= 2 && !IsSpace(tag[0]) && !IsSpace(tag[|tag| - 2]) && tag[|tag| - 1] == ' '
    requires x != [] && IsStripped(x)
    ensures Strip(Drop(tag + x, |tag| - 1)) == x
  {
    StripLabelled(tag, x);
    assert IsStripped(tag + x) by { assert (tag + x)[|tag + x| - 1] == x[|x| - 1]; }
    StripOfStripped(tag + x);
    StripOfStripped(x);
  }

  /** A label written as `kw` followed by one space, where `upper()` keeps every character of
      `kw`, the character before the space is no space and none of the excluded characters
      occurs. */
  predicate LabelTag(tag: string, kw: string) {
    |tag| >= 2 && !IsSpace(tag[0]) && !IsSpace(tag[|tag| - 2]) && tag[|tag| - 1] == ' '
    && LinePlain(tag) && StartsWith(tag, kw)
    && forall i :: 0 <= i < |kw| ==> UpperChar(kw[i]) == kw[i]
  }

  /** A label followed by a plain field: the line survives the per-line cleanup, carries the
      label, and cutting the label gives the field back. */
  lemma LabelledLine(tag: string, kw: string, x: string, l: string)
    requires l == tag + x && PlainField(x) && LabelTag(tag, kw)
    ensures CleanLine(l) == l && HasLabel(l, kw) && l[0] == tag[0]
    ensures Strip(Drop(l, |tag| - 1)) == x
  {
    LabelledClean(tag, kw, x, l);
    LabelledHasLabel(tag, kw, x, l);
    FieldAfterLabel(tag, x);
  }

  lemma LabelledClean(tag: string, kw: string, x: string, l: string)
    requires l == tag + x && PlainField(x) && LabelTag(tag, kw)
    ensures CleanLine(l) == l && l[0] == tag[0]
  {
    LabelledPlain(tag, x);
    CleanLineIdle(l);
  }

  lemma LabelledHasLabel(tag: string, kw: string, x: string, l: string)
    requires l == tag + x && LabelTag(tag, kw)
    ensures HasLabel(l, kw)
  {
    assert l[..|kw|] == tag[..|kw|];
    HasLabelOf(l, kw);
  }

  lemma KeepsCase(kw: string)
    requires kw in {"SITUATION:", "QUESTION:", "RÉPONSE CORRECTE:", "EXPLICATION:"}
    ensures forall i :: 0 <= i < |kw| ==> UpperChar(kw[i]) == kw[i]
  {
    forall i | 0 <= i < |kw| ensures UpperChar(kw[i]) == kw[i] {
      assert kw[i] in kw;
    }
  }

  /** The four labels `_format_qcm_for_script` writes. */
  lemma SituationTag()
    ensures LabelTag("SITUATION: ", "SITUATION:") && "SITUATION: "[0] == 'S'
  {
    KeepsCase("SITUATION:");
  }

  lemma QuestionTag()
    ensures LabelTag("QUESTION: ", "QUESTION:") && "QUESTION: "[0] == 'Q'
  {
    KeepsCase("QUESTION:");
  }

  lemma AnswerTag()
    ensures LabelTag("RÉPONSE CORRECTE: ", "RÉPONSE CORRECTE:") && "RÉPONSE CORRECTE: "[0] == 'R'
  {
    KeepsCase("RÉPONSE CORRECTE:");
  }

  lemma ExplanationTag()
    ensures LabelTag("EXPLICATION: ", "EXPLICATION:") && "EXPLICATION: "[0] == 'E'
  {
    KeepsCase("EXPLICATION:");
  }

  // ---------------------------------------------------------------------------
  // One step per formatted line
  // ---------------------------------------------------------------------------

  lemma SituationKind(x: string)
    requires PlainField(x)
    ensures var l := "SITUATION: " + x; CleanLine(l) == l && Classify(l) == SituationLine
  {
    SituationTag();
    LabelledLine("SITUATION: ", "SITUATION:", x, "SITUATION: " + x);
  }

  lemma SituationStep(st: ParseState, x: string)
    requires PlainField(x)
    ensures Step(st, "SITUATION: " + x, SituationLine) == ParseState(st.fields.(situation := x), InSituation)
  {
    SituationTag();
    FieldAfterLabel("SITUATION: ", x);
  }

  lemma QuestionKind(x: string)
    requires PlainField(x)
    ensures var l := "QUESTION: " + x; CleanLine(l) == l && Classify(l) == QuestionLine
  {
    var l := "QUESTION: " + x;
    QuestionTag();
    LabelledLine("QUESTION: ", "QUESTION:", x, l);
    NotLabel(l, "SITUATION:");
  }

  lemma QuestionStep(st: ParseState, x: string)
    requires PlainField(x)
    ensures Step(st, "QUESTION: " + x, QuestionLine) == ParseState(st.fields.(question := x), InQuestion)
  {
    QuestionTag();
    FieldAfterLabel("QUESTION: ", x);
  }

  /** The option letters, in either case, are no label's first letter. */
  lemma KeyNoLabel(c: char)
    requires c in "ABCDabcd"
    ensures UpperChar(c) != 'S' && UpperChar(c) != 'Q'
  {
    assert 'A' <= c <= 'D' || 'a' <= c <= 'd';
  }

  lemma ClassifyOption(l: string)
    requires IsOptionLine(l)
    ensures Classify(l) == QcmRender.OptionLine
  {
    KeyNoLabel(l[0]);
    NotLabel(l, "SITUATION:");
    NotLabel(l, "QUESTION:");
  }

  lemma ClassifyAnswer(l: string)
    requires l != [] && l[0] == 'R' && HasLabel(l, "RÉPONSE CORRECTE:")
    ensures Classify(l) == AnswerLine
  {
    NotLabel(l, "SITUATION:");
    NotLabel(l, "QUESTION:");
  }

  lemma ClassifyExplanation(l: string)
    requires l != [] && l[0] == 'E' && HasLabel(l, "EXPLICATION:")
    ensures Classify(l) == ExplanationLine
  {
    NotLabel(l, "SITUATION:");
    NotLabel(l, "QUESTION:");
    NotLabel(l, "REPONSE CORRECTE:");
    NotLabel(l, "RÉPONSE CORRECTE:");
  }

  lemma OptionKind(o: (string, string))
    requires OptionKey(o.0) && PlainField(o.1)
    ensures var l := ScriptAssembly.OptionLine(o); CleanLine(l) == l && Classify(l) == QcmRender.OptionLine
  {
    OptionLineFacts(o);
    ClassifyOption(ScriptAssembly.OptionLine(o));
  }

  lemma OptionLineFacts(o: (string, string))
    requires OptionKey(o.0) && PlainField(o.1)
    ensures var l := ScriptAssembly.OptionLine(o);
      CleanLine(l) == l && IsOptionLine(l) && Strip(Drop(l, 2)) == o.1 && PlainField(l)
  {
    var tag := o.0 + ") ";
    var l := tag + o.1;
    assert l == ScriptAssembly.OptionLine(o);
    assert tag[0] == o.0[0] && tag[1] == ')' && tag[2] == ' ';
    LabelledLine(tag, [], o.1, l);
    assert l[1] == ')';
  }

  lemma OptionStep(st: ParseState, o: (string, string))
    requires OptionKey(o.0) && PlainField(o.1)
    ensures Step(st, ScriptAssembly.OptionLine(o), QcmRender.OptionLine)
            == ParseState(st.fields.(options := st.fields.options + [o.1]), InOptions)
  {
    var tag := o.0 + ") ";
    assert ScriptAssembly.OptionLine(o) == tag + o.1;
    assert tag[0] == o.0[0] && tag[1] == ')' && tag[2] == ' ';
    FieldAfterLabel(tag, o.1);
  }

  lemma AnswerKind(x: string)
    requires PlainField(x)
    ensures var l := "RÉPONSE CORRECTE: " + x; CleanLine(l) == l && Classify(l) == AnswerLine
  {
    var l := "RÉPONSE CORRECTE: " + x;
    AnswerTag();
    LabelledLine("RÉPONSE CORRECTE: ", "RÉPONSE CORRECTE:", x, l);
    ClassifyAnswer(l);
  }

  lemma AnswerStep(st: ParseState, x: string)
    requires PlainField(x)
    ensures Step(st, "RÉPONSE CORRECTE: " + x, AnswerLine) == ParseState(st.fields.(answer := x), InAnswer)
  {
    var tag, kw := "RÉPONSE CORRECTE: ", "RÉPONSE CORRECTE:";
    var l := tag + x;
    AnswerTag();
    assert l[..|kw|] == tag[..|kw|];
    HasLabelOf(l, kw);
    AnswerIsAfterLabel(st, l);
    FieldAfterLabel(tag, x);
  }

  lemma ExplanationKind(x: string)
    requires PlainField(x)
    ensures var l := "EXPLICATION: " + x; CleanLine(l) == l && Classify(l) == ExplanationLine
  {
    var l := "EXPLICATION: " + x;
    ExplanationTag();
    LabelledLine("EXPLICATION: ", "EXPLICATION:", x, l);
    ClassifyExplanation(l);
  }

  lemma ExplanationStep(st: ParseState, x: string)
    requires PlainField(x)
    ensures Step(st, "EXPLICATION: " + x, ExplanationLine) == ParseState(st.fields.(explanation := x), InExplanation)
  {
    ExplanationTag();
    FieldAfterLabel("EXPLICATION: ", x);
  }

  // ---------------------------------------------------------------------------
  // The formatted body, line by line
  // ---------------------------------------------------------------------------

  lemma {:induction false} OptionLinesPlain(options: seq<(string, string)>)
    requires PlainOptions(options)
    ensures forall l :: l in OptionLines(options) ==> PlainField(l)
  {
    var ol := OptionLines(options);
    forall l | l in ol ensures PlainField(l) {
      var i :| 0 <= i < |ol| && ol[i] == l;
      assert options[i] in options;
      OptionLineFacts(options[i]);
    }
  }

  lemma ConcatPlain(h: seq<string>, ol: seq<string>, t: seq<string>)
    requires forall l :: l in h ==> LinePlain(l)
    requires forall l :: l in ol ==> LinePlain(l)
    requires forall l :: l in t ==> LinePlain(l)
    ensures forall l :: l in h + ol + t ==> LinePlain(l)
  {
  }

  lemma HeadLinesPlain(q: Qcm)
    requires PlainQcm(q)
    ensures forall l :: l in ["SITUATION: " + q.situation, "", "QUESTION: " + q.question, ""] ==> LinePlain(l)
  {
    SituationTag();
    LabelledPlain("SITUATION: ", q.situation);
    QuestionTag();
    LabelledPlain("QUESTION: ", q.question);
  }

  lemma TailLinesPlain(q: Qcm)
    requires PlainQcm(q)
    ensures forall l :: l in ["", "RÉPONSE CORRECTE: " + q.answer, "EXPLICATION: " + q.explanation, ""] ==> LinePlain(l)
  {
    AnswerTag();
    LabelledPlain("RÉPONSE CORRECTE: ", q.answer);
    ExplanationTag();
    LabelledPlain("EXPLICATION: ", q.explanation);
  }

  /** Every line of the body is free of the characters the cleanup and the split react to. */
  lemma BodyLinesPlain(q: Qcm)
    requires PlainQcm(q)
    ensures forall l :: l in BodyLines(q) ==> LinePlain(l)
  {
    HeadLinesPlain(q);
    TailLinesPlain(q);
    OptionLinesPlain(q.options);
    ConcatPlain(["SITUATION: " + q.situation, "", "QUESTION: " + q.question, ""], OptionLines(q.options),
                ["", "RÉPONSE CORRECTE: " + q.answer, "EXPLICATION: " + q.explanation, ""]);
  }

  /** The body joined with line breaks passes the cleanup untouched and splits back into its
      lines. */
  lemma BodyText(q: Qcm)
    requires PlainQcm(q)
    ensures var j := Join(BodyLines(q), "\n");
      CleanQcmText(QcmScript(q)) == j && Split(j, "\n") == BodyLines(q)
  {
    var parts := BodyLines(q);
    var j := Join(parts, "\n");
    BodyLinesPlain(q);
    JoinLacks(parts, "\n", '=');
    JoinLacks(parts, "\n", '\\');
    JoinLacks(parts, "\n", '}');
    assert j == parts[0] + "\n" + Join(parts[1..], "\n");
    assert j[0] == 'S';
    QcmScriptLines(q);
    CleanedToBody(q.number, j);
    SplitJoin(parts, '\n');
  }

  /** `NonBlankLines` with the stripping as a parameter, so that its unfolding on a display of
      lines does not unfold `Strip` as well. */
  function KeptWith(l: string, strip: string -> string): seq<string> {
    if strip(l) == [] then [] else [strip(l)]
  }

  function NonBlankWith(lines: seq<string>, strip: string -> string): seq<string> {
    if lines == [] then [] else KeptWith(lines[0], strip) + NonBlankWith(lines[1..], strip)
  }

  lemma {:induction false} NonBlankIsWith(lines: seq<string>)
    ensures NonBlankLines(lines) == NonBlankWith(lines, Strip)
  {
    if lines != [] {
      NonBlankIsWith(lines[1..]);
    }
  }

  lemma {:induction false} NonBlankAppend(a: seq<string>, b: seq<string>, strip: string -> string)
    ensures NonBlankWith(a + b, strip) == NonBlankWith(a, strip) + NonBlankWith(b, strip)
    decreases |a|
  {
    if a == [] {
      assert a + b == b;
    } else {
      assert (a + b)[0] == a[0] && (a + b)[1..] == a[1..] + b;
      NonBlankAppend(a[1..], b, strip);
    }
  }

  /** Lines that stripping leaves alone and that are not empty are all kept. */
  lemma {:induction false} NonBlankKeeps(ls: seq<string>, strip: string -> string)
    requires forall i :: 0 <= i < |ls| ==> ls[i] != [] && strip(ls[i]) == ls[i]
    ensures NonBlankWith(ls, strip) == ls
    decreases |ls|
  {
    if ls != [] {
      var rest := ls[1..];
      assert forall i :: 0 <= i < |rest| ==> rest[i] == ls[i + 1];
      NonBlankKeeps(rest, strip);
      assert KeptWith(ls[0], strip) == [ls[0]];
      assert [ls[0]] + rest == ls;
    }
  }

  lemma NonBlankWith4(a: string, b: string, c: string, d: string, strip: string -> string)
    ensures NonBlankWith([a, b, c, d], strip) ==
      KeptWith(a, strip) + (KeptWith(b, strip) + (KeptWith(c, strip) + KeptWith(d, strip)))
  {
    assert NonBlankWith([d], strip) == KeptWith(d, strip) by { assert [d][1..] == []; }
    assert NonBlankWith([c, d], strip) == KeptWith(c, strip) + NonBlankWith([d], strip) by { assert [c, d][1..] == [d]; }
    assert NonBlankWith([b, c, d], strip) == KeptWith(b, strip) + NonBlankWith([c, d], strip) by { assert [b, c, d][1..] == [c, d]; }
    assert [a, b, c, d][1..] == [b, c, d];
  }

  /** Two plain lines, each followed by a blank one, and two with a blank line before and after
      them: only the plain lines are kept. */
  lemma NonBlankSpaced(x: string, y: string, strip: string -> string)
    requires strip(x) == x && strip(y) == y && strip([]) == [] && x != [] && y != []
    ensures NonBlankWith([x, "", y, ""], strip) == [x, y]
    ensures NonBlankWith(["", x, y, ""], strip) == [x, y]
  {
    NonBlankWith4(x, "", y, "", strip);
    NonBlankWith4("", x, y, "", strip);
  }

  /** The lines the parser loops over: the blank lines of the body are gone. */
  function KeptLines(q: Qcm): seq<string> {
    ["SITUATION: " + q.situation, "QUESTION: " + q.question] + OptionLines(q.options)
    + ["RÉPONSE CORRECTE: " + q.answer, "EXPLICATION: " + q.explanation]
  }

  lemma HeadLinesKept(q: Qcm)
    requires PlainQcm(q)
    ensures NonBlankWith(["SITUATION: " + q.situation, "", "QUESTION: " + q.question, ""], Strip)
            == ["SITUATION: " + q.situation, "QUESTION: " + q.question]
  {
    var s, qu := "SITUATION: " + q.situation, "QUESTION: " + q.question;
    SituationTag();
    LabelledPlain("SITUATION: ", q.situation);
    QuestionTag();
    LabelledPlain("QUESTION: ", q.question);
    StripOfStripped(s);
    StripOfStripped(qu);
    StripOfStripped([]);
    NonBlankSpaced(s, qu, Strip);
  }

  lemma TailLinesKept(q: Qcm)
    requires PlainQcm(q)
    ensures NonBlankWith(["", "RÉPONSE CORRECTE: " + q.answer, "EXPLICATION: " + q.explanation, ""], Strip)
            == ["RÉPONSE CORRECTE: " + q.answer, "EXPLICATION: " + q.explanation]
  {
    var a, e := "RÉPONSE CORRECTE: " + q.answer, "EXPLICATION: " + q.explanation;
    AnswerTag();
    LabelledPlain("RÉPONSE CORRECTE: ", q.answer);
    ExplanationTag();
    LabelledPlain("EXPLICATION: ", q.explanation);
    StripOfStripped(a);
    StripOfStripped(e);
    StripOfStripped([]);
    NonBlankSpaced(a, e, Strip);
  }

  lemma OptionLinesKept(options: seq<(string, string)>)
    requires PlainOptions(options)
    ensures NonBlankWith(OptionLines(options), Strip) == OptionLines(options)
  {
    var ol := OptionLines(options);
    OptionLinesPlain(options);
    forall i | 0 <= i < |ol| ensures ol[i] != [] && Strip(ol[i]) == ol[i] {
      assert ol[i] in ol;
      StripOfStripped(ol[i]);
    }
    NonBlankKeeps(ol, Strip);
  }

  lemma NonBlank3(h: seq<string>, ol: seq<string>, t: seq<string>, strip: string -> string)
    ensures NonBlankWith(h + ol + t, strip) == NonBlankWith(h, strip) + NonBlankWith(ol, strip) + NonBlankWith(t, strip)
  {
    NonBlankAppend(h + ol, t, strip);
    NonBlankAppend(h, ol, strip);
  }

  lemma ParsedLines(q: Qcm)
    requires PlainQcm(q)
    ensures QcmLines(QcmScript(q)) == KeptLines(q)
  {
    assert QcmLines(QcmScript(q)) == NonBlankLines(BodyLines(q)) by { BodyText(q); }
    NonBlankIsWith(BodyLines(q));
    var s, qu, a, e := "SITUATION: " + q.situation, "QUESTION: " + q.question,
                       "RÉPONSE CORRECTE: " + q.answer, "EXPLICATION: " + q.explanation;
    var ol := OptionLines(q.options);
    var h, t := [s, "", qu, ""], ["", a, e, ""];
    assert BodyLines(q) == h + ol + t;
    NonBlank3(h, ol, t, Strip);
    HeadLinesKept(q);
    TailLinesKept(q);
    OptionLinesKept(q.options);
  }

  // ---------------------------------------------------------------------------
  // The parse of the kept lines
  // ---------------------------------------------------------------------------

  lemma ParseSnoc(lines: seq<string>, x: string, clean: string -> string, classify: string -> LineKind)
    ensures ParseWith(lines + [x], clean, classify) ==
      var l := clean(x);
      if l == [] then ParseWith(lines, clean, classify) else Step(ParseWith(lines, clean, classify), l, classify(l))
  {
    assert (lines + [x])[..|lines|] == lines;
  }

  /** Option lines that the cleanup keeps and the classification reads as options append
      their texts, in order, and change no other field. */
  lemma {:induction false} OptionsParsedWith(pre: seq<string>, options: seq<(string, string)>,
                                             clean: string -> string, classify: string -> LineKind)
    requires forall o :: o in options ==>
      var l := ScriptAssembly.OptionLine(o);
      clean(l) == l && l != [] && classify(l) == QcmRender.OptionLine && Strip(Drop(l, 2)) == o.1
    ensures var st, st2 := ParseWith(pre, clean, classify), ParseWith(pre + OptionLines(options), clean, classify);
      st2.fields == st.fields.(options := st.fields.options + OptionValues(options))
    decreases |options|
  {
    var st := ParseWith(pre, clean, classify);
    if options == [] {
      assert pre + OptionLines(options) == pre;
      assert st.fields.options + OptionValues(options) == st.fields.options;
    } else {
      var init, o := options[..|options| - 1], options[|options| - 1];
      var l := ScriptAssembly.OptionLine(o);
      var mid := pre + OptionLines(init);
      assert pre + OptionLines(options) == mid + [l];
      var sm := ParseWith(mid, clean, classify);
      assert sm.fields == st.fields.(options := st.fields.options + OptionValues(init)) by {
        assert forall p :: p in init ==> p in options;
        OptionsParsedWith(pre, init, clean, classify);
      }
      assert ParseWith(mid + [l], clean, classify).fields == sm.fields.(options := sm.fields.options + [o.1]) by {
        assert o in options;
        ParseSnoc(mid, l, clean, classify);
      }
      var vi := OptionValues(init);
      assert OptionValues(options) == vi + [o.1];
      AppendAssoc(st.fields.options, vi, [o.1]);
    }
  }

  lemma OptionsParsed(pre: seq<string>, options: seq<(string, string)>)
    requires PlainOptions(options)
    ensures var st, st2 := ParseWith(pre, CleanLine, Classify), ParseWith(pre + OptionLines(options), CleanLine, Classify);
      st2.fields == st.fields.(options := st.fields.options + OptionValues(options))
  {
    forall o | o in options
      ensures var l := ScriptAssembly.OptionLine(o);
        CleanLine(l) == l && l != [] && Classify(l) == QcmRender.OptionLine && Strip(Drop(l, 2)) == o.1
    {
      OptionKind(o);
      OptionLineFacts(o);
    }
    OptionsParsedWith(pre, options, CleanLine, Classify);
  }

  lemma KeptShape(s: string, qu: string, ol: seq<string>, a: string, e: string)
    ensures [s] + [qu] + ol + [a] + [e] == [s, qu] + ol + [a, e]
  {
  }

  /** The situation and question lines fill those two fields. */
  lemma HeadParsedWith(x: string, y: string, clean: string -> string, classify: string -> LineKind)
    requires PlainField(x) && PlainField(y)
    requires var s := "SITUATION: " + x; clean(s) == s && s != [] && classify(s) == SituationLine
    requires var qu := "QUESTION: " + y; clean(qu) == qu && qu != [] && classify(qu) == QuestionLine
    ensures ParseWith(["SITUATION: " + x] + ["QUESTION: " + y], clean, classify).fields
            == QcmFields(x, y, [], "", "")
  {
    var s, qu := "SITUATION: " + x, "QUESTION: " + y;
    var p1 := [s];
    var st1 := ParseWith(p1, clean, classify);
    assert st1 == ParseState(EmptyFields.(situation := x), InSituation) by {
      assert p1 == [] + [s];
      ParseSnoc([], s, clean, classify);
      SituationStep(InitialState, x);
    }
    assert ParseWith(p1 + [qu], clean, classify) == Step(st1, qu, QuestionLine) by {
      ParseSnoc(p1, qu, clean, classify);
    }
    QuestionStep(st1, y);
  }

  /** The answer and explanation lines fill those two fields and leave the others. */
  lemma TailParsedWith(pre: seq<string>, q: Qcm, clean: string -> string, classify: string -> LineKind)
    requires PlainQcm(q)
    requires var a := "RÉPONSE CORRECTE: " + q.answer; clean(a) == a && a != [] && classify(a) == AnswerLine
    requires var e := "EXPLICATION: " + q.explanation; clean(e) == e && e != [] && classify(e) == ExplanationLine
    ensures var f := ParseWith(pre, clean, classify).fields;
      ParseWith(pre + ["RÉPONSE CORRECTE: " + q.answer] + ["EXPLICATION: " + q.explanation], clean, classify).fields
      == f.(answer := q.answer, explanation := q.explanation)
  {
    var a, e := "RÉPONSE CORRECTE: " + q.answer, "EXPLICATION: " + q.explanation;
    var st := ParseWith(pre, clean, classify);
    var st4 := ParseWith(pre + [a], clean, classify);
    assert st4.fields == st.fields.(answer := q.answer) by {
      ParseSnoc(pre, a, clean, classify);
      AnswerStep(st, q.answer);
    }
    ParseSnoc(pre + [a], e, clean, classify);
    ExplanationStep(st4, q.explanation);
  }

  /** Formatting a QCM for the script and parsing the text back, as the PDF step does, gives
      the same situation, question, option texts, answer and explanation. */
  lemma FormatThenParse(q: Qcm)
    requires PlainQcm(q)
    ensures ParseQcm(QcmScript(q)) ==
      QcmFields(q.situation, q.question, OptionValues(q.options), q.answer, q.explanation)
  {
    var s, qu, a, e := "SITUATION: " + q.situation, "QUESTION: " + q.question,
                       "RÉPONSE CORRECTE: " + q.answer, "EXPLICATION: " + q.explanation;
    var ol := OptionLines(q.options);
    var p2 := [s] + [qu];
    assert ParseQcm(QcmScript(q)) == ParseWith(p2 + ol + [a] + [e], CleanLine, Classify).fields by {
      ParsedLines(q);
      KeptShape(s, qu, ol, a, e);
    }
    SituationKind(q.situation);
    QuestionKind(q.question);
    AnswerKind(q.answer);
    ExplanationKind(q.explanation);
    HeadParsedWith(q.situation, q.question, CleanLine, Classify);
    OptionsParsed(p2, q.options);
    TailParsedWith(p2 + ol, q, CleanLine, Classify);
  }
}
