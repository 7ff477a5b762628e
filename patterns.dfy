/** The regular expressions of the pipeline, each as a deterministic matcher for `Rewrite.Sub`,
    and the fixed replacements they are used with. Every pattern here has a greedy reading with
    a unique match at each position (a run of a character class followed by a character outside
    it), so the matcher computes that match directly. */
module Patterns {
  import opened Outcomes
  import opened Strings
  import opened Rewrite

  // ---------------------------------------------------------------------------
  // Small helpers
  // ---------------------------------------------------------------------------

  /** Index of the last `c` in `s`. */
  function LastIndexOf(s: string, c: char): (r: Option<nat>)
    ensures r.Some? ==> r.value < |s| && s[r.value] == c && c !in s[r.value + 1..]
    ensures r.None? <==> c !in s
  {
    if s == [] then None
    else if s[|s| - 1] == c then Some(|s| - 1)
    else
      assert s == s[..|s| - 1] + [s[|s| - 1]];
      LastIndexOf(s[..|s| - 1], c)
  }

  /** Number of occurrences of `c` in `s`. */
  function CountChar(s: string, c: char): nat {
    if s == [] then 0 else (if s[0] == c then 1 else 0) + CountChar(s[1..], c)
  }

  /** The three letters Q, C, M, ignoring case. */
  predicate StartsWithQcmCI(t: string) {
    |t| >= 3 && (t[0] == 'Q' || t[0] == 'q') && (t[1] == 'C' || t[1] == 'c') && (t[2] == 'M' || t[2] == 'm')
  }

  /** `[\x00-\x08\x0B\x0C\x0E-\x1F\x7F]` */
  predicate IsControl(c: char) {
    c <= '\U{0008}' || c == '\U{000B}' || c == '\U{000C}' || ('\U{000E}' <= c <= '\U{001F}') || c == '\U{007F}'
  }

  // ---------------------------------------------------------------------------
  // Formatting artefacts: textbf{...}, \textbackslash, \text...{...}
  // ---------------------------------------------------------------------------

  /** `\s*\d+\s*\}` from position `p` of `t`: the end of the match, or 0. */
  function BracedDigitsEnd(t: string, p: nat): (e: nat)
    requires p <= |t|
    ensures e == 0 || (p < e <= |t| && t[e - 1] == '}')
  {
    var w1 := SpaceSpan(t[p..]);
    var d := DigitSpan(t[p + w1..]);
    if d == 0 then 0
    else
      var w2 := SpaceSpan(t[p + w1 + d..]);
      var q := p + w1 + d + w2;
      if q < |t| && t[q] == '}' then q + 1 else 0
  }

  /** `textbf\{\s*\d+\s*\}` */
  function TextbfDigits(prev: char, t: string): (n: nat)
    ensures n <= |t|
    ensures n > 0 ==> StartsWith(t, "textbf{") && t[n - 1] == '}'
  {
    if StartsWith(t, "textbf{") then BracedDigitsEnd(t, 7) else 0
  }

  /** `\\textbf\{\s*\d+\s*\}` */
  function BsTextbfDigits(prev: char, t: string): (n: nat)
    ensures n <= |t|
    ensures n > 0 ==> StartsWith(t, "\\textbf{") && t[n - 1] == '}'
  {
    if StartsWith(t, "\\textbf{") then BracedDigitsEnd(t, 8) else 0
  }

  /** `[^}]*\}` from position `p`: the end of the match, or 0. */
  function UpToCloseBrace(t: string, p: nat): (e: nat)
    requires p <= |t|
    ensures e == 0 <==> '}' !in t[p..]
    ensures e > 0 ==> p < e <= |t| && t[e - 1] == '}' && '}' !in t[p..e - 1]
  {
    match IndexOf(t[p..], '}')
    case None => 0
    case Some(k) => assert t[p..p + k] == t[p..][..k]; p + k + 1
  }

  /** `textbf\{[^}]*\}` */
  function TextbfAny(prev: char, t: string): (n: nat)
    ensures n <= |t|
    ensures n > 0 ==> StartsWith(t, "textbf{") && t[n - 1] == '}'
    ensures StartsWith(t, "textbf{") && '}' in t[7..] ==> n > 0
  {
    if StartsWith(t, "textbf{") then UpToCloseBrace(t, 7) else 0
  }

  /** `\\textbf\{[^}]*\}` */
  function BsTextbfAny(prev: char, t: string): (n: nat)
    ensures n <= |t|
    ensures n > 0 ==> StartsWith(t, "\\textbf{") && t[n - 1] == '}'
  {
    if StartsWith(t, "\\textbf{") then UpToCloseBrace(t, 8) else 0
  }

  /** `\\text[a-z]+\{[^}]*\}` */
  function BsTextCommand(prev: char, t: string): (n: nat)
    ensures n <= |t|
    ensures n > 0 ==> StartsWith(t, "\\text") && t[n - 1] == '}'
  {
    if !StartsWith(t, "\\text") then 0
    else
      var l := LowerSpan(t[5..]);
      if l == 0 || 5 + l >= |t| || t[5 + l] != '{' then 0 else UpToCloseBrace(t, 6 + l)
  }

  /** `\\textbackslash\s*` */
  function BsTextbackslash(prev: char, t: string): (n: nat)
    ensures n <= |t|
    ensures n > 0 ==> StartsWith(t, "\\textbackslash")
  {
    if StartsWith(t, "\\textbackslash") then 14 + SpaceSpan(t[14..]) else 0
  }

  /** `\*\*(.*?)\*\*` from position `j`: the end of the shortest match, or 0. */
  function LazyBoldEnd(t: string, j: nat): (e: nat)
    requires j <= |t|
    ensures e == 0 || (j + 2 <= e <= |t| && t[e - 2..e] == "**")
    decreases |t| - j
  {
    if j + 2 <= |t| && t[j..j + 2] == "**" then j + 2
    else if j < |t| && t[j] != '\n' then LazyBoldEnd(t, j + 1)
    else 0
  }

  /** `\*\*(.*?)\*\*` */
  function LazyBold(prev: char, t: string): (n: nat)
    ensures n <= |t|
    ensures n > 0 ==> n >= 4 && StartsWith(t, "**")
  {
    if StartsWith(t, "**") then LazyBoldEnd(t, 2) else 0
  }

  // ---------------------------------------------------------------------------
  // Whitespace and control characters
  // ---------------------------------------------------------------------------

  /** `\n\s*\n`: from a newline to the last newline of the whitespace run after it. */
  function BlankLines(prev: char, t: string): (n: nat)
    ensures n <= |t|
    ensures n > 0 ==> n >= 2 && t[0] == '\n' && t[n - 1] == '\n' && IsBlank(t[..n])
  {
    if t == [] || t[0] != '\n' then 0
    else
      var w := SpaceSpan(t[1..]);
      match LastIndexOf(t[1..1 + w], '\n')
      case None => 0
      case Some(j) =>
        assert forall i :: 0 <= i < j + 2 ==> t[i] == if i == 0 then '\n' else t[1..][i - 1];
        j + 2
  }

  /** `\n\s*\n\s*\n+`: like `\n\s*\n`, but the whitespace run needs three newlines. */
  function ThreeNewlines(prev: char, t: string): (n: nat)
    ensures n <= |t|
    ensures n > 0 ==> t[0] == '\n'
  {
    if t == [] || t[0] != '\n' then 0
    else
      var w := SpaceSpan(t[1..]);
      if CountChar(t[1..1 + w], '\n') < 2 then 0
      else match LastIndexOf(t[1..1 + w], '\n')
        case None => 0
        case Some(j) => j + 2
  }

  /** `[\x00-\x08\x0B\x0C\x0E-\x1F\x7F]` */
  function ControlChar(prev: char, t: string): (n: nat)
    ensures n <= |t|
    ensures n > 0 <==> t != [] && IsControl(t[0])
    ensures n > 0 ==> n == 1
  {
    if t != [] && IsControl(t[0]) then 1 else 0
  }

  /** ` +` */
  function SpaceRun(prev: char, t: string): (n: nat)
    ensures n <= |t|
    ensures n > 0 <==> t != [] && t[0] == ' '
    ensures forall i :: 0 <= i < n ==> t[i] == ' '
    ensures n < |t| ==> t[n] != ' '
  {
    CharSpan(t, ' ')
  }

  /** `\s+` */
  function WsRun(prev: char, t: string): (n: nat)
    ensures n <= |t|
    ensures n > 0 <==> t != [] && IsSpace(t[0])
    ensures forall i :: 0 <= i < n ==> IsSpace(t[i])
    ensures n < |t| ==> !IsSpace(t[n])
  {
    SpaceSpan(t)
  }

  // ---------------------------------------------------------------------------
  // QCM marker lines
  // ---------------------------------------------------------------------------

  /** `\s*={3,}` from position `q`: the end of the match, or 0. */
  function ClosingRunEnd(t: string, q: nat): (e: nat)
    requires q <= |t|
    ensures e == 0 || (q < e <= |t| && t[e - 1] == '=')
  {
    var w3 := SpaceSpan(t[q..]);
    var e := CharSpan(t[q + w3..], '=');
    if e < 3 then 0 else q + w3 + e
  }

  /** `QCM\s+\d+` (QCM in any case) from position `p`: the end of the match, or 0. */
  function NumberedQcmEnd(t: string, p: nat): (e: nat)
    requires p <= |t|
    ensures e == 0 || p < e <= |t|
  {
    if !StartsWithQcmCI(t[p..]) then 0
    else
      var w2 := SpaceSpan(t[p + 3..]);
      var d := if w2 == 0 then 0 else DigitSpan(t[p + 3 + w2..]);
      if d == 0 then 0 else p + 3 + w2 + d
  }

  /** `={3,}\s*QCM\s+\d+\s*={3,}` (QCM in any case) at the start of `t`: the match length, or 0. */
  function MarkerHead(t: string): (n: nat)
    ensures n <= |t|
    ensures n > 0 ==> StartsWith(t, "===") && t[n - 1] == '='
  {
    var r := CharSpan(t, '=');
    if r < 3 then 0
    else
      var q := NumberedQcmEnd(t, r + SpaceSpan(t[r..]));
      if q == 0 then 0
      else
        assert t[..3] == "===" by { assert forall i :: 0 <= i < 3 ==> t[i] == '='; }
        ClosingRunEnd(t, q)
  }

  /** The digits of the QCM number inside a marker line (`QCM\s+(\d+)`). */
  function MarkerNumber(t: string): (num: string)
    ensures forall i :: 0 <= i < |num| ==> IsDigit(num[i])
  {
    var r := CharSpan(t, '=');
    var p := r + SpaceSpan(t[r..]);
    if p + 3 > |t| then []
    else
      var w2 := SpaceSpan(t[p + 3..]);
      t[p + 3 + w2..][..DigitSpan(t[p + 3 + w2..])]
  }

  /** `^={3,}\s*QCM\s+\d+\s*={3,}\s*\n*` in MULTILINE mode, ignoring case. */
  function MarkerLine(prev: char, t: string): (n: nat)
    ensures n <= |t|
    ensures n > 0 ==> prev == '\n' && StartsWith(t, "===")
  {
    if prev != '\n' then 0
    else
      var h := MarkerHead(t);
      if h == 0 then 0 else h + SpaceSpan(t[h..])
  }

  /** `=== QCM \d+ ===\s*\n*` */
  function SpeechMarker(prev: char, t: string): (n: nat)
    ensures n <= |t|
    ensures n > 0 ==> StartsWith(t, "=== QCM ")
  {
    if !StartsWith(t, "=== QCM ") then 0
    else
      var d := DigitSpan(t[8..]);
      if d == 0 || !StartsWith(t[8 + d..], " ===") then 0
      else 8 + d + 4 + SpaceSpan(t[12 + d..])
  }

  // ---------------------------------------------------------------------------
  // Speech labels and Markdown
  // ---------------------------------------------------------------------------

  /** `<word>\s*:\s*` */
  function LabelEnd(word: string, t: string): (n: nat)
    ensures n <= |t|
    ensures n > 0 ==> StartsWith(t, word) && n > |word|
  {
    if !StartsWith(t, word) then 0
    else
      var w := SpaceSpan(t[|word|..]);
      var p := |word| + w;
      if p < |t| && t[p] == ':' then p + 1 + SpaceSpan(t[p + 1..]) else 0
  }

  // One matcher per speech label: each is `LabelEnd` at its own word, so the rules stay distinct
  // matcher values.
  function SituationLabel(prev: char, t: string): (n: nat) ensures n <= |t| { LabelEnd("SITUATION", t) }
  function QuestionLabel(prev: char, t: string): (n: nat) ensures n <= |t| { LabelEnd("QUESTION", t) }
  function AnswerLabelAccented(prev: char, t: string): (n: nat) ensures n <= |t| { LabelEnd("RÉPONSE CORRECTE", t) }
  function AnswerLabelPlain(prev: char, t: string): (n: nat) ensures n <= |t| { LabelEnd("REPONSE CORRECTE", t) }
  function ExplanationLabel(prev: char, t: string): (n: nat) ensures n <= |t| { LabelEnd("EXPLICATION", t) }

  /** `"Point " followed by a digit` occurs in `s`. */
  predicate HasPointNumber(s: string)
    decreases |s|
  {
    |s| >= 7 && ((s[..6] == "Point " && IsDigit(s[6])) || HasPointNumber(s[1..]))
  }

  /** `\*\*\([^)]*<word>[^)]*\)\*\*` and friends: "**(" then a segment without ')' that
      satisfies `keep`, then ")**". */
  function ParenTitleEnd(t: string, keep: string -> bool): (n: nat)
    ensures n <= |t|
    ensures n > 0 ==> n >= 6 && StartsWith(t, "**(") && keep(t[3..n - 3]) && ')' !in t[3..n - 3]
  {
    if !StartsWith(t, "**(") then 0
    else match IndexOf(t[3..], ')')
      case None => 0
      case Some(k) =>
        assert t[3..3 + k] == t[3..][..k];
        if StartsWith(t[3 + k..], ")**") && keep(t[3..3 + k]) then 3 + k + 3 else 0
  }

  predicate MentionsIntroduction(seg: string) { Contains(seg, "Introduction") }
  predicate MentionsConclusion(seg: string) { Contains(seg, "Conclusion") }
  predicate MentionsPoint(seg: string) { HasPointNumber(seg) }
  predicate MentionsBody(seg: string) { Contains(seg, "Corps principal") }
  predicate MentionsTransition(seg: string) { Contains(seg, "Transition") }
  predicate NonEmpty(seg: string) { seg != [] }

  function IntroductionTitle(prev: char, t: string): (n: nat) ensures n <= |t| { ParenTitleEnd(t, MentionsIntroduction) }
  function ConclusionTitle(prev: char, t: string): (n: nat) ensures n <= |t| { ParenTitleEnd(t, MentionsConclusion) }
  function PointTitle(prev: char, t: string): (n: nat) ensures n <= |t| { ParenTitleEnd(t, MentionsPoint) }
  function BodyTitle(prev: char, t: string): (n: nat) ensures n <= |t| { ParenTitleEnd(t, MentionsBody) }
  function TransitionTitle(prev: char, t: string): (n: nat) ensures n <= |t| { ParenTitleEnd(t, MentionsTransition) }
  function AnyParenTitle(prev: char, t: string): (n: nat) ensures n <= |t| { ParenTitleEnd(t, NonEmpty) }

  /** `\*\*([^*]+)\*\*` */
  function DoubleStar(prev: char, t: string): (n: nat)
    ensures n <= |t|
    ensures n > 0 ==> n >= 5 && StartsWith(t, "**") && t[n - 2..n] == "**" && '*' !in t[2..n - 2]
  {
    if !StartsWith(t, "**") then 0
    else match IndexOf(t[2..], '*')
      case None => 0
      case Some(k) =>
        assert t[2..2 + k] == t[2..][..k];
        if k >= 1 && StartsWith(t[2 + k..], "**") then 2 + k + 2 else 0
  }

  /** `\*([^*]+)\*` */
  function SingleStar(prev: char, t: string): (n: nat)
    ensures n <= |t|
    ensures n > 0 ==> n >= 3 && t[0] == '*' && t[n - 1] == '*' && '*' !in t[1..n - 1]
  {
    if t == [] || t[0] != '*' then 0
    else match IndexOf(t[1..], '*')
      case None => 0
      case Some(k) =>
        assert t[1..1 + k] == t[1..][..k];
        if k >= 1 then 1 + k + 1 else 0
  }

  /** `\n<letter>\)\s*` */
  function OptionTagEnd(letter: char, t: string): (n: nat)
    ensures n <= |t|
    ensures n > 0 ==> n >= 3 && StartsWith(t, ['\n', letter, ')'])
  {
    if StartsWith(t, ['\n', letter, ')']) then 3 + SpaceSpan(t[3..]) else 0
  }

  /** `<c>(\s+)`: a character followed by a whitespace run. */
  function CharThenSpace(c: char, t: string): (n: nat)
    ensures n <= |t|
    ensures n > 0 <==> |t| >= 2 && t[0] == c && IsSpace(t[1])
    ensures n > 0 ==> n >= 2 && forall i :: 1 <= i < n ==> IsSpace(t[i])
    ensures 0 < n < |t| ==> !IsSpace(t[n])
  {
    if t == [] || t[0] != c then 0
    else
      var w := SpaceSpan(t[1..]);
      if w == 0 then 0 else 1 + w
  }

  // `DotSpace` and `SemicolonSpace` are `CharThenSpace` at `.` and at `;`, one matcher per rule.

  /** `\.(\s+)` */
  function DotSpace(prev: char, t: string): (n: nat)
    ensures n <= |t|
    ensures n > 0 <==> |t| >= 2 && t[0] == '.' && IsSpace(t[1])
    ensures n > 0 ==> n >= 2 && forall i :: 1 <= i < n ==> IsSpace(t[i])
  {
    CharThenSpace('.', t)
  }

  /** `;(\s+)` */
  function SemicolonSpace(prev: char, t: string): (n: nat)
    ensures n <= |t|
    ensures n > 0 <==> |t| >= 2 && t[0] == ';' && IsSpace(t[1])
    ensures n > 0 ==> n >= 2 && forall i :: 1 <= i < n ==> IsSpace(t[i])
  {
    CharThenSpace(';', t)
  }

  // ---------------------------------------------------------------------------
  // Replacements
  // ---------------------------------------------------------------------------

  function Nothing(x: string): string { "" }
  function OneSpace(x: string): string { " " }
  function TwoNewlines(x: string): string { "\n\n" }
  /** The literal text `\textbf{\1}` produced by the template `\\textbf{\\1}`. */
  function LiteralBoldTemplate(x: string): string { "\\textbf{\\1}" }
  /** Group 1 of `\*\*([^*]+)\*\*`. */
  function InnerOfDoubleStar(x: string): string { if |x| >= 4 then x[2..|x| - 2] else x }
  /** Group 1 of `\*([^*]+)\*`. */
  function InnerOfSingleStar(x: string): string { if |x| >= 2 then x[1..|x| - 1] else x }

  const DotBreakTag: string := "<break time=\"0.5s\"/>"
  const SemicolonBreakTag: string := "<break time=\"0.3s\"/>"

  /** `.<break time="0.5s"/>\1` */
  function DotBreak(x: string): string { if |x| >= 1 then "." + DotBreakTag + x[1..] else x }
  /** `;<break time="0.3s"/>\1` */
  function SemicolonBreak(x: string): string { if |x| >= 1 then ";" + SemicolonBreakTag + x[1..] else x }

  // ---------------------------------------------------------------------------
  // Soundness of every matcher
  // ---------------------------------------------------------------------------

  lemma AllSound()
    ensures Sound(TextbfDigits) && Sound(BsTextbfDigits) && Sound(TextbfAny) && Sound(BsTextbfAny)
    ensures Sound(BsTextCommand) && Sound(BsTextbackslash) && Sound(LazyBold)
    ensures Sound(BlankLines) && Sound(ThreeNewlines) && Sound(ControlChar) && Sound(SpaceRun) && Sound(WsRun)
    ensures Sound(MarkerLine) && Sound(SpeechMarker)
    ensures Sound(SituationLabel) && Sound(QuestionLabel) && Sound(AnswerLabelAccented)
    ensures Sound(AnswerLabelPlain) && Sound(ExplanationLabel)
    ensures Sound(IntroductionTitle) && Sound(ConclusionTitle) && Sound(PointTitle)
    ensures Sound(BodyTitle) && Sound(TransitionTitle) && Sound(AnyParenTitle)
    ensures Sound(DoubleStar) && Sound(SingleStar)
    ensures Sound(DotSpace) && Sound(SemicolonSpace)
  {
  }
}
