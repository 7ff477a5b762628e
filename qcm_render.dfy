/** `_extract_pure_qcm_from_block` and `_format_qcm_simple` of `PDFGenerator`: the QCM text
    of a scanned block is trimmed after its explanation, parsed label by label and rendered as
    the body of a `qcmbox`. */
module QcmRender {
  import opened Outcomes
  import opened Strings
  import opened Rewrite
  import opened Patterns
  import opened Latex

  // ---------------------------------------------------------------------------
  // Line predicates
  // ---------------------------------------------------------------------------

  /** `line.upper().startswith(kw)` */
  predicate HasLabel(line: string, kw: string) {
    StartsWith(Upper(line), kw)
  }

  predicate IsExplanationLabel(line: string) {
    HasLabel(line, "EXPLICATION:")
  }

  /** `re.match(r'^={3,}.*QCM.*={3,}', line, re.IGNORECASE)` on a line without '\n'. */
  predicate IsLooseMarker(line: string) {
    StartsWith(line, "===") && QcmThenRun(line, 3)
  }

  /** Some `QCM` (any case) at an index `i >= from` with `===` somewhere after it. */
  predicate QcmThenRun(line: string, from: nat)
    decreases |line| - from
  {
    from + 3 <= |line|
    && ((StartsWithQcmCI(line[from..]) && Contains(line[from + 3..], "===")) || QcmThenRun(line, from + 1))
  }

  /** The lines that end the explanation: course titles and the next QCM marker. */
  predicate IsCourseStart(line: string) {
    StartsWith(line, "**") || StartsWith(line, "Point ") || StartsWith(line, "En résumé")
    || StartsWith(line, "Le non-respect") || StartsWith(line, "L'archivage")
    || StartsWith(line, "Les patients disposent") || StartsWith(line, "Transition")
    || IsLooseMarker(line)
  }

  /** The case-sensitive label prefixes that are not kept after the explanation. */
  predicate IsLabelLine(line: string) {
    StartsWith(line, "SITUATION:") || StartsWith(line, "QUESTION:") || StartsWith(line, "RÉPONSE CORRECTE:")
  }

  // ---------------------------------------------------------------------------
  // _extract_pure_qcm_from_block
  // ---------------------------------------------------------------------------

  /** How a line of the block is treated: an explanation line is always kept; before it every
      line is kept; after it a course start ends the block and other lines are kept or dropped. */
  datatype RowClass = ExplanationRow | CourseRow | KeptRow | DroppedRow

  function ClassifyRow(line: string): RowClass {
    var s := Strip(line);
    if IsExplanationLabel(s) then ExplanationRow
    else if IsCourseStart(s) then CourseRow
    else if s != [] && !IsLabelLine(s) then KeptRow
    else DroppedRow
  }

  /** The kept lines, from the front, once `found` says whether an explanation was seen. The
      classification is a parameter so that the facts about the scan hold for any of them. */
  function PureScan(lines: seq<string>, found: bool, row: string -> RowClass): seq<string>
    decreases |lines|
  {
    if lines == [] then []
    else
      var c := row(lines[0]);
      if c == ExplanationRow then [lines[0]] + PureScan(lines[1..], true, row)
      else if !found then [lines[0]] + PureScan(lines[1..], false, row)
      else if c == CourseRow then []
      else if c == KeptRow then [lines[0]] + PureScan(lines[1..], true, row)
      else PureScan(lines[1..], true, row)
  }

  function PureQcm(text: string): string {
    if text == [] then [] else Strip(Join(PureScan(Split(text, "\n"), false, ClassifyRow), "\n"))
  }

  /** The loop of `_extract_pure_qcm_from_block`, for any classification of the lines. */
  method ScanBlock(lines: seq<string>, row: string -> RowClass) returns (kept: seq<string>)
    ensures kept == PureScan(lines, false, row)
  {
    kept := [];
    var found := false;
    var i := 0;
    while i < |lines|
      invariant 0 <= i <= |lines|
      invariant kept + PureScan(lines[i..], found, row) == PureScan(lines, false, row)
    {
      var c := row(lines[i]);
      var rest := lines[i + 1..];
      ScanUnfold(lines, i, found, row);
      if c == ExplanationRow {
        found := true;
        Regroup1(kept, lines[i], PureScan(rest, true, row));
        kept := kept + [lines[i]];
        i := i + 1;
        continue;
      }
      if found {
        if c == CourseRow {
          break;
        }
        if c == KeptRow {
          Regroup1(kept, lines[i], PureScan(rest, true, row));
          kept := kept + [lines[i]];
        }
      } else {
        Regroup1(kept, lines[i], PureScan(rest, false, row));
        kept := kept + [lines[i]];
      }
      i := i + 1;
    }
    if i == |lines| {
      assert lines[i..] == [];
    }
  }

  /** One line of the scan. */
  lemma ScanUnfold(lines: seq<string>, i: nat, found: bool, row: string -> RowClass)
    requires i < |lines|
    ensures var c, rest := row(lines[i]), lines[i + 1..];
      PureScan(lines[i..], found, row) ==
        if c == ExplanationRow then [lines[i]] + PureScan(rest, true, row)
        else if !found then [lines[i]] + PureScan(rest, false, row)
        else if c == CourseRow then []
        else if c == KeptRow then [lines[i]] + PureScan(rest, true, row)
        else PureScan(rest, true, row)
  {
    assert lines[i..][0] == lines[i] && lines[i..][1..] == lines[i + 1..];
  }

  lemma Regroup1(kept: seq<string>, x: string, tail: seq<string>)
    ensures kept + [x] + tail == kept + ([x] + tail)
  {
  }

  method ExtractPureQcm(qcmText: string) returns (r: string)
    ensures r == PureQcm(qcmText)
  {
    if |qcmText| == 0 {
      return "";
    }
    var kept := ScanBlock(Split(qcmText, "\n"), ClassifyRow);
    r := Strip(Join(kept, "\n"));
  }

  /** Every line before the first explanation, and the explanation line itself, is kept. */
  lemma {:induction false} PureKeepsUpToExplanation(lines: seq<string>, k: nat, row: string -> RowClass)
    requires k < |lines| && row(lines[k]) == ExplanationRow
    requires forall j :: 0 <= j < k ==> row(lines[j]) != ExplanationRow
    ensures PureScan(lines, false, row) == lines[..k + 1] + PureScan(lines[k + 1..], true, row)
    decreases k
  {
    if k > 0 {
      PureKeepsUpToExplanation(lines[1..], k - 1, row);
      assert lines[1..][k..] == lines[k + 1..];
      assert [lines[0]] + lines[1..][..k] == lines[..k + 1];
    } else {
      assert lines[..1] == [lines[0]];
    }
  }

  /** After the explanation only explanation lines and kept lines remain, in their order. */
  lemma {:induction false} PureAfterExplanation(lines: seq<string>, row: string -> RowClass)
    ensures forall l :: l in PureScan(lines, true, row) ==> l in lines && row(l) in {ExplanationRow, KeptRow}
    decreases |lines|
  {
    if lines != [] {
      PureAfterExplanation(lines[1..], row);
    }
  }

  /** A kept line after the explanation is non-blank, carries no label and starts no course. */
  lemma KeptRowIsPlain(line: string)
    requires ClassifyRow(line) == KeptRow
    ensures Strip(line) != [] && !IsLabelLine(Strip(line)) && !IsCourseStart(Strip(line))
  {
  }

  /** After the explanation, the first course title or QCM marker ends the block: nothing from
      there on is kept. */
  lemma {:induction false} PureStopsAtCourse(lines: seq<string>, k: nat, row: string -> RowClass)
    requires k < |lines| && row(lines[k]) == CourseRow
    ensures PureScan(lines, true, row) == PureScan(lines[..k], true, row)
    decreases k
  {
    if k > 0 {
      PureStopsAtCourse(lines[1..], k - 1, row);
      assert lines[..k][1..] == lines[1..][..k - 1];
      assert lines[..k][0] == lines[0];
    }
  }

  // ---------------------------------------------------------------------------
  // Parsing in _format_qcm_simple
  // ---------------------------------------------------------------------------

  /** The whole-text cleanups before the split into lines: the marker line, `\textbackslash`,
      the four `textbf` rules and any `\text...{...}` command. */
  function CleanQcmText(text: string): string {
    AllSound();
    var a := ReSub(text, MarkerLine, Nothing);
    var b := ReSub(a, BsTextbackslash, OneSpace);
    ReSub(StripTextbf(b), BsTextCommand, Nothing)
  }

  /** `[line.strip() for line in lines if line.strip()]` */
  function NonBlankLines(lines: seq<string>): (r: seq<string>)
    ensures forall l :: l in r ==> l != [] && IsStripped(l)
    ensures |r| <= |lines|
  {
    if lines == [] then []
    else
      var s := Strip(lines[0]);
      if s == [] then NonBlankLines(lines[1..])
      else
        var rest := NonBlankLines(lines[1..]);
        ConsStripped(s, rest);
        [s] + rest
  }

  lemma ConsStripped(s: string, rest: seq<string>)
    requires s != [] && IsStripped(s) && forall l :: l in rest ==> l != [] && IsStripped(l)
    ensures forall l :: l in [s] + rest ==> l != [] && IsStripped(l)
  {
    ConsMembers(s, rest);
  }

  /** The per-line cleanup inside the loop. */
  function CleanLine(line: string): string {
    Strip(StripTextbf(line))
  }

  /** `^[A-D]\)`, ignoring case. */
  predicate IsOptionLine(line: string) {
    |line| >= 2 && line[0] in "ABCDabcd" && line[1] == ')'
  }

  datatype LineKind = SituationLine | QuestionLine | OptionLine | AnswerLine | ExplanationLine | OtherLine

  /** The branch a cleaned line takes, checked in the source's order. */
  function Classify(line: string): LineKind {
    if HasLabel(line, "SITUATION:") then SituationLine
    else if HasLabel(line, "QUESTION:") then QuestionLine
    else if IsOptionLine(line) then OptionLine
    else if HasLabel(line, "REPONSE CORRECTE:") || HasLabel(line, "RÉPONSE CORRECTE:") then AnswerLine
    else if IsExplanationLabel(line) then ExplanationLine
    else OtherLine
  }

  datatype Section = NoSection | InSituation | InQuestion | InOptions | InAnswer | InExplanation

  datatype QcmFields = QcmFields(situation: string, question: string, options: seq<string>,
                                 answer: string, explanation: string)

  datatype ParseState = ParseState(fields: QcmFields, section: Section)

  const EmptyFields := QcmFields("", "", [], "", "")
  const InitialState := ParseState(EmptyFields, NoSection)

  /** `re.split(r':', line, 1)[1].strip()`; a line without a colon (which no answer line is)
      gives the empty text. */
  function AfterFirstColon(line: string): (r: string)
    ensures ':' !in line ==> r == []
  {
    match IndexOf(line, ':')
    case None => []
    case Some(k) => Strip(line[k + 1..])
  }

  /** The first occurrence of a character is unique. */
  lemma FirstIndexUnique(s: string, c: char, j: nat, k: nat)
    requires j < |s| && s[j] == c && c !in s[..j]
    requires k < |s| && s[k] == c && c !in s[..k]
    ensures j == k
  {
    assert forall i :: 0 <= i < k ==> s[..k][i] == s[i];
    assert forall i :: 0 <= i < j ==> s[..j][i] == s[i];
  }

  /** A line whose upper case starts with `p + ":"`, where `p` has no colon, has its first colon
      right after `p`. */
  lemma LabelColon(line: string, p: string)
    requires ':' !in p && HasLabel(line, p + ":")
    ensures |line| > |p| && line[|p|] == ':' && ':' !in line[..|p|]
  {
    var u := Upper(line);
    assert u[..|p| + 1] == p + ":";
    assert UpperChar(line[|p|]) == u[|p|] == ':';
    forall j | 0 <= j < |p| ensures line[j] != ':' {
      assert u[j] == (p + ":")[j] == p[j] && p[j] in p;
    }
  }

  /** An answer line has its first colon right after the label, at index 16. */
  lemma AnswerLineHasColon(line: string)
    requires HasLabel(line, "REPONSE CORRECTE:") || HasLabel(line, "RÉPONSE CORRECTE:")
    ensures |line| >= 17 && line[16] == ':' && ':' !in line[..16]
  {
    var p1, p2 := "REPONSE CORRECTE", "RÉPONSE CORRECTE";
    assert p1 + ":" == "REPONSE CORRECTE:" && p2 + ":" == "RÉPONSE CORRECTE:";
    if HasLabel(line, p1 + ":") {
      LabelColon(line, p1);
    } else {
      LabelColon(line, p2);
    }
  }

  /** One cleaned, non-empty line of the given kind. */
  function Step(st: ParseState, line: string, kind: LineKind): ParseState {
    var f := st.fields;
    match kind
    case SituationLine => ParseState(f.(situation := Strip(Drop(line, 10))), InSituation)
    case QuestionLine => ParseState(f.(question := Strip(Drop(line, 9))), InQuestion)
    case OptionLine => ParseState(f.(options := f.options + [Strip(Drop(line, 2))]), InOptions)
    case AnswerLine => ParseState(f.(answer := AfterFirstColon(line)), InAnswer)
    case ExplanationLine => ParseState(f.(explanation := Strip(Drop(line, 12))), InExplanation)
    case OtherLine =>
      if st.section == InSituation && f.situation != [] then
        ParseState(f.(situation := f.situation + " " + line), InSituation)
      else if st.section == InQuestion && f.question != [] then
        ParseState(f.(question := f.question + " " + line), InQuestion)
      else st
  }

  /** The state after the loop has seen `lines`: each is cleaned again by `clean`, empty results
      are skipped, the others take the branch `classify` gives them. */
  function ParseWith(lines: seq<string>, clean: string -> string, classify: string -> LineKind): ParseState {
    if lines == [] then InitialState
    else
      var st := ParseWith(lines[..|lines| - 1], clean, classify);
      var line := clean(lines[|lines| - 1]);
      if line == [] then st else Step(st, line, classify(line))
  }

  /** The parsing loop of `_format_qcm_simple`, for any cleanup and classification. */
  method ParseLoop(lines: seq<string>, clean: string -> string, classify: string -> LineKind)
    returns (f: QcmFields, section: Section)
    ensures ParseState(f, section) == ParseWith(lines, clean, classify)
  {
    var situation, question, options, answer, explanation := "", "", [], "", "";
    section := NoSection;
    var i := 0;
    while i < |lines|
      invariant 0 <= i <= |lines|
      invariant ParseState(QcmFields(situation, question, options, answer, explanation), section)
                == ParseWith(lines[..i], clean, classify)
    {
      assert lines[..i + 1][..i] == lines[..i];
      var line := clean(lines[i]);
      if line != [] {
        var kind := classify(line);
        if kind == SituationLine {
          section := InSituation;
          situation := Strip(Drop(line, 10));
        } else if kind == QuestionLine {
          section := InQuestion;
          question := Strip(Drop(line, 9));
        } else if kind == OptionLine {
          options := options + [Strip(Drop(line, 2))];
          section := InOptions;
        } else if kind == AnswerLine {
          answer := AfterFirstColon(line);
          section := InAnswer;
        } else if kind == ExplanationLine {
          section := InExplanation;
          explanation := Strip(Drop(line, 12));
        } else {
          if section == InSituation && situation != [] {
            situation := situation + " " + line;
          } else if section == InQuestion && question != [] {
            question := question + " " + line;
          }
        }
      }
      i := i + 1;
    }
    assert lines[..i] == lines;
    f := QcmFields(situation, question, options, answer, explanation);
  }

  function QcmLines(text: string): seq<string> {
    NonBlankLines(Split(CleanQcmText(text), "\n"))
  }

  function ParseQcm(text: string): QcmFields {
    ParseWith(QcmLines(text), CleanLine, Classify).fields
  }

  // ---------------------------------------------------------------------------
  // Rendering in _format_qcm_simple
  // ---------------------------------------------------------------------------

  const VSpaceLarge := "\\par\n\\vspace{0.3cm}\n\n"
  const EnumerateOpen := "\\begin{enumerate}[label=\\Alph*), leftmargin=*, itemsep=3pt]\n"
  const EnumerateClose := "\\end{enumerate}\n\\vspace{0.3cm}\n\n"

  function SituationBlock(s: string): string { "\\textbf{Situation :} " + s + VSpaceLarge }
  function QuestionBlock(q: string): string { "\\textbf{Question :} " + q + VSpaceLarge }
  function AnswerBlock(a: string): string { "\\textbf{Reponse correcte :} " + a + "\\par\n\\vspace{0.2cm}\n\n" }
  function ExplanationBlock(e: string): string { "\\textbf{Explication :} " + e + "\\par\n" }

  /** One `\item` line per option, in order. */
  function Items(options: seq<string>): string {
    if options == [] then [] else Items(options[..|options| - 1]) + "\\item " + options[|options| - 1] + "\n"
  }

  function OptionsBlock(options: seq<string>): string { EnumerateOpen + Items(options) + EnumerateClose }

  /** The blocks of the non-empty fields, in the order situation, question, options, answer,
      explanation. */
  function Blocks(f: QcmFields): string {
    SituationPart(f) + QuestionPart(f) + OptionsPart(f) + AnswerPart(f) + ExplanationPart(f)
  }

  function SituationPart(f: QcmFields): string { if f.situation != [] then SituationBlock(f.situation) else [] }
  function QuestionPart(f: QcmFields): string { if f.question != [] then QuestionBlock(f.question) else [] }
  function OptionsPart(f: QcmFields): string { if f.options != [] then OptionsBlock(f.options) else [] }
  function AnswerPart(f: QcmFields): string { if f.answer != [] then AnswerBlock(f.answer) else [] }
  function ExplanationPart(f: QcmFields): string { if f.explanation != [] then ExplanationBlock(f.explanation) else [] }

  function QcmMarkup(text: string): string {
    if text == [] then [] else Strip(Blocks(ParseQcm(text)))
  }

  /** The `\\item` lines appended to `head`, one per option. */
  method AppendItems(head: string, options: seq<string>) returns (result: string)
    ensures result == head + Items(options)
  {
    result := head;
    var j := 0;
    while j < |options|
      invariant 0 <= j <= |options|
      invariant result == head + Items(options[..j])
    {
      assert options[..j + 1][..j] == options[..j];
      result := result + "\\item " + options[j] + "\n";
      j := j + 1;
    }
    assert options[..j] == options;
  }

  /** The rendering part of `_format_qcm_simple`: the blocks appended one after the other. */
  method RenderFields(f: QcmFields) returns (result: string)
    ensures result == Blocks(f)
  {
    result := "";
    if f.situation != [] {
      result := result + SituationBlock(f.situation);
    }
    assert result == SituationPart(f);
    ghost var r1 := result;
    if f.question != [] {
      result := result + QuestionBlock(f.question);
    }
    assert result == r1 + QuestionPart(f);
    ghost var r2 := result;
    if f.options != [] {
      result := AppendItems(result + EnumerateOpen, f.options);
      result := result + EnumerateClose;
      Regroup(r2, EnumerateOpen, Items(f.options), EnumerateClose);
    }
    assert result == r2 + OptionsPart(f);
    ghost var r3 := result;
    if f.answer != [] {
      result := result + AnswerBlock(f.answer);
    }
    assert result == r3 + AnswerPart(f);
    ghost var r4 := result;
    if f.explanation != [] {
      result := result + ExplanationBlock(f.explanation);
    }
    assert result == r4 + ExplanationPart(f);
  }

  method FormatQcmSimple(qcmText: string) returns (r: string)
    ensures r == QcmMarkup(qcmText)
  {
    if |qcmText| == 0 {
      return "";
    }
    var f, _ := ParseLoop(QcmLines(qcmText), CleanLine, Classify);
    var result := RenderFields(f);
    r := Strip(result);
  }

  // ---------------------------------------------------------------------------
  // What the parser does
  // ---------------------------------------------------------------------------

  /** Labels are recognised on the upper-cased line: two lines with the same upper case take
      the same branch. */
  lemma ClassifyIgnoresCase(a: string, b: string)
    requires Upper(a) == Upper(b)
    ensures Classify(a) == Classify(b)
  {
    if |a| >= 2 {
      assert UpperChar(a[0]) == UpperChar(b[0]) && UpperChar(a[1]) == UpperChar(b[1]);
      assert (a[0] in "ABCDabcd") == (b[0] in "ABCDabcd");
    }
  }

  /** The option texts of the cleaned lines, in order. */
  function OptionTexts(lines: seq<string>, clean: string -> string, classify: string -> LineKind): seq<string> {
    if lines == [] then []
    else
      var line := clean(lines[|lines| - 1]);
      OptionTexts(lines[..|lines| - 1], clean, classify)
      + (if line != [] && classify(line) == OptionLine then [Strip(Drop(line, 2))] else [])
  }

  /** Options are collected from the option lines only, in order. */
  lemma {:induction false} ParsedOptions(lines: seq<string>, clean: string -> string, classify: string -> LineKind)
    ensures ParseWith(lines, clean, classify).fields.options == OptionTexts(lines, clean, classify)
  {
    if lines != [] {
      ParsedOptions(lines[..|lines| - 1], clean, classify);
      var line := clean(lines[|lines| - 1]);
      var st := ParseWith(lines[..|lines| - 1], clean, classify);
      if line != [] && classify(line) == OptionLine {
        StepAddsOption(st, line);
      } else if line != [] {
        StepKeepsOptions(st, line, classify(line));
      }
    }
  }

  /** Only an option line adds an option, at the end. */
  lemma StepAddsOption(st: ParseState, line: string)
    ensures Step(st, line, OptionLine).fields.options == st.fields.options + [Strip(Drop(line, 2))]
  {
  }

  lemma StepKeepsOptions(st: ParseState, line: string, kind: LineKind)
    requires kind != OptionLine
    ensures Step(st, line, kind).fields.options == st.fields.options
  {
  }

  /** The answer is the text after the label's colon. */
  lemma AnswerIsAfterLabel(st: ParseState, line: string)
    requires HasLabel(line, "REPONSE CORRECTE:") || HasLabel(line, "RÉPONSE CORRECTE:")
    ensures Step(st, line, AnswerLine).fields.answer == Strip(Drop(line, 17))
  {
    AnswerLineHasColon(line);
    FirstIndexUnique(line, ':', 16, IndexOf(line, ':').value);
  }

  /** A line that is no label only extends a non-empty situation or question being read;
      options, answer, explanation and the section are untouched. */
  lemma ContinuationLine(st: ParseState, line: string)
    ensures var f, g := st.fields, Step(st, line, OtherLine).fields;
      g.options == f.options && g.answer == f.answer && g.explanation == f.explanation
      && Step(st, line, OtherLine).section == st.section
      && (g.situation != f.situation ==> st.section == InSituation && f.situation != [] && g.situation == f.situation + " " + line)
      && (g.question != f.question ==> st.section == InQuestion && f.question != [] && g.question == f.question + " " + line)
  {
  }

  /** Once the explanation has been read, further lines that are no label change nothing. */
  lemma {:induction false} LinesAfterExplanationIgnored(lines: seq<string>, extra: seq<string>,
                                                        clean: string -> string, classify: string -> LineKind)
    requires ParseWith(lines, clean, classify).section == InExplanation
    requires forall l :: l in extra ==> clean(l) == [] || classify(clean(l)) == OtherLine
    ensures ParseWith(lines + extra, clean, classify) == ParseWith(lines, clean, classify)
    decreases |extra|
  {
    if extra != [] {
      var init := extra[..|extra| - 1];
      assert (lines + extra)[..|lines + extra| - 1] == lines + init;
      assert (lines + extra)[|lines + extra| - 1] == extra[|extra| - 1];
      assert extra[|extra| - 1] in extra;
      LinesAfterExplanationIgnored(lines, init, clean, classify);
    } else {
      assert lines + extra == lines;
    }
  }
}
