/** The deterministic parts of `ContentGenerator`: the sources context given to the model,
    the text form of one QCM, the interleaving of the QCMs with the paragraphs of the main script
    and the search for QCM marker lines. */
module ScriptAssembly {
  import opened Strings
  import ScriptLayout

  // ---------------------------------------------------------------------------
  // _prepare_sources_context
  // ---------------------------------------------------------------------------

  /** One extracted web page: `{'title', 'url', 'content'}`. */
  datatype Source = Source(title: string, url: string, content: string)

  const SourcesHeader := "SOURCES DOCUMENTAIRES:\n\n"

  /** How many characters of a page's content are quoted. */
  const ExcerptChars: nat := 2000

  /** The block of the source numbered `i` (numbering starts at 1). */
  function SourceBlock(i: nat, s: Source): string {
    TitleLine(i, s) + UrlLine(s) + ExcerptLines(s)
  }

  function TitleLine(i: nat, s: Source): string { "SOURCE " + NatToString(i) + ": " + s.title + "\n" }
  function UrlLine(s: Source): string { "URL: " + s.url + "\n" }
  function ExcerptLines(s: Source): string { "CONTENU:\n" + Take(s.content, ExcerptChars) + "...\n\n" }

  /** The blocks `block` gives the items, numbered from 1, in list order. */
  function Blocks<T>(block: (nat, T) -> string, ss: seq<T>): string {
    if ss == [] then [] else Blocks(block, ss[..|ss| - 1]) + block(|ss|, ss[|ss| - 1])
  }

  function SourceBlocks(ss: seq<Source>): string { Blocks(SourceBlock, ss) }

  method PrepareSourcesContext(ss: seq<Source>) returns (context: string)
    ensures context == SourcesHeader + SourceBlocks(ss)
  {
    context := SourcesHeader;
    var i := 0;
    while i < |ss|
      invariant 0 <= i <= |ss|
      invariant context == SourcesHeader + SourceBlocks(ss[..i])
    {
      assert ss[..i + 1][..i] == ss[..i];
      ghost var before := context;
      context := context + TitleLine(i + 1, ss[i]);
      context := context + UrlLine(ss[i]);
      context := context + ExcerptLines(ss[i]);
      Regroup(before, TitleLine(i + 1, ss[i]), UrlLine(ss[i]), ExcerptLines(ss[i]));
      AppendAssoc(SourcesHeader, SourceBlocks(ss[..i]), SourceBlock(i + 1, ss[i]));
      i := i + 1;
    }
    assert ss[..i] == ss;
  }

  /** The blocks of the first `k` items are a prefix of the blocks of all of them. */
  lemma {:induction false} BlocksPrefix<T>(block: (nat, T) -> string, ss: seq<T>, k: nat)
    requires k <= |ss|
    ensures |Blocks(block, ss[..k])| <= |Blocks(block, ss)|
    ensures Blocks(block, ss)[..|Blocks(block, ss[..k])|] == Blocks(block, ss[..k])
    decreases |ss|
  {
    if k < |ss| {
      var init := ss[..|ss| - 1];
      BlocksPrefix(block, init, k);
      assert init[..k] == ss[..k];
    } else {
      assert ss[..k] == ss;
    }
  }

  /** A part of a prefix of a sequence is the same part of the sequence. */
  lemma SliceOfPrefix<T>(whole: seq<T>, p: seq<T>, b: seq<T>)
    requires |p + b| <= |whole| && whole[..|p + b|] == p + b
    ensures whole[|p|..|p| + |b|] == b
  {
    assert whole[|p|..|p| + |b|] == whole[..|p + b|][|p|..];
  }

  /** Right after the header and the blocks of the sources before it, source `k` (0-based)
      appears as block number `k + 1`, quoting at most 2000 characters of its content: the
      first ones. */
  lemma SourceInContext(ss: seq<Source>, k: nat)
    requires k < |ss|
    ensures var context := SourcesHeader + SourceBlocks(ss);
      var at := |SourcesHeader| + |SourceBlocks(ss[..k])|;
      var b := SourceBlock(k + 1, ss[k]);
      at + |b| <= |context| && context[at..at + |b|] == b
    ensures |Take(ss[k].content, ExcerptChars)| <= ExcerptChars
    ensures StartsWith(ss[k].content, Take(ss[k].content, ExcerptChars))
  {
    BlockAfterHeader(SourceBlock, SourcesHeader, ss, k);
  }

  lemma BlockAfterHeader<T>(block: (nat, T) -> string, h: string, ss: seq<T>, k: nat)
    requires k < |ss|
    ensures var context := h + Blocks(block, ss);
      var at := |h| + |Blocks(block, ss[..k])|;
      var b := block(k + 1, ss[k]);
      at + |b| <= |context| && context[at..at + |b|] == b
  {
    BlockInBlocks(block, ss, k);
    ShiftedSlice(h, Blocks(block, ss), |Blocks(block, ss[..k])|, block(k + 1, ss[k]));
  }

  /** Block `k + 1` sits in the blocks right after the blocks of the items before it. */
  lemma BlockInBlocks<T>(block: (nat, T) -> string, ss: seq<T>, k: nat)
    requires k < |ss|
    ensures var at := |Blocks(block, ss[..k])|;
      var b := block(k + 1, ss[k]);
      at + |b| <= |Blocks(block, ss)| && Blocks(block, ss)[at..at + |b|] == b
  {
    assert ss[..k + 1][..k] == ss[..k];
    BlocksPrefix(block, ss, k + 1);
    var b := block(k + 1, ss[k]);
    assert Blocks(block, ss[..k + 1]) == Blocks(block, ss[..k]) + b;
    SliceOfPrefix(Blocks(block, ss), Blocks(block, ss[..k]), b);
  }

  lemma ShiftedSlice<T>(h: seq<T>, x: seq<T>, at: nat, b: seq<T>)
    requires at + |b| <= |x| && x[at..at + |b|] == b
    ensures |h| + at + |b| <= |h + x| && (h + x)[|h| + at..|h| + at + |b|] == b
  {
    assert (h + x)[|h| + at..|h| + at + |b|] == x[at..at + |b|];
  }

  // ---------------------------------------------------------------------------
  // _format_qcm_for_script
  // ---------------------------------------------------------------------------

  /** One generated QCM; `options` keeps the dictionary's order as (letter, text) pairs. */
  datatype Qcm = Qcm(number: nat, situation: string, question: string,
                     options: seq<(string, string)>, answer: string, explanation: string)

  function Marker(n: nat): string {
    "=== QCM " + NatToString(n) + " ===\n\n"
  }

  function OptionLine(o: (string, string)): string {
    o.0 + ") " + o.1
  }

  /** One line per option, in order. */
  function OptionsText(options: seq<(string, string)>): string {
    if options == [] then []
    else OptionsText(options[..|options| - 1]) + OptionLine(options[|options| - 1]) + "\n"
  }

  /** The text `_format_qcm_for_script` builds. */
  function QcmScript(q: Qcm): string {
    Marker(q.number) + ("SITUATION: " + q.situation + "\n\n") + ("QUESTION: " + q.question + "\n\n")
    + OptionsText(q.options) + ("\nRÉPONSE CORRECTE: " + q.answer + "\n")
    + ("EXPLICATION: " + q.explanation + "\n")
  }

  method FormatQcmForScript(q: Qcm) returns (formatted: string)
    ensures formatted == QcmScript(q)
  {
    formatted := Marker(q.number);
    formatted := formatted + ("SITUATION: " + q.situation + "\n\n");
    formatted := formatted + ("QUESTION: " + q.question + "\n\n");
    ghost var head := formatted;
    var i := 0;
    while i < |q.options|
      invariant 0 <= i <= |q.options|
      invariant formatted == head + OptionsText(q.options[..i])
    {
      assert q.options[..i + 1][..i] == q.options[..i];
      var line := OptionLine(q.options[i]) + "\n";
      AppendAssoc(head, OptionsText(q.options[..i]), line);
      formatted := formatted + line;
      i := i + 1;
    }
    assert q.options[..i] == q.options;
    formatted := formatted + ("\nRÉPONSE CORRECTE: " + q.answer + "\n");
    formatted := formatted + ("EXPLICATION: " + q.explanation + "\n");
  }

  /** The lines of a formatted QCM after its marker: the labelled fields, one line per option,
      and the blank lines between them. */
  function BodyLines(q: Qcm): seq<string> {
    ["SITUATION: " + q.situation, "", "QUESTION: " + q.question, ""]
    + OptionLines(q.options)
    + ["", "RÉPONSE CORRECTE: " + q.answer, "EXPLICATION: " + q.explanation, ""]
  }

  function OptionLines(options: seq<(string, string)>): (r: seq<string>)
    ensures |r| == |options| && forall i :: 0 <= i < |options| ==> r[i] == OptionLine(options[i])
  {
    if options == [] then [] else OptionLines(options[..|options| - 1]) + [OptionLine(options[|options| - 1])]
  }

  /** The option lines of `options`, each followed by a line break, as one joined text. */
  lemma {:induction false} OptionsTextLines(options: seq<(string, string)>, after: seq<string>)
    requires |after| >= 1
    ensures OptionsText(options) + Join(after, "\n")
         == Join(OptionLines(options) + after, "\n")
    decreases |options|
  {
    var lines := OptionLines(options);
    if options == [] {
      assert lines + after == after;
    } else {
      var init := options[..|options| - 1];
      var last := OptionLine(options[|options| - 1]);
      var initLines := OptionLines(init);
      JoinCons(last, after, "\n");
      OptionsTextLines(init, [last] + after);
      assert initLines + ([last] + after) == lines + after;
      calc {
        OptionsText(options) + Join(after, "\n");
        OptionsText(init) + last + "\n" + Join(after, "\n");
        { Regroup(OptionsText(init), last, "\n", Join(after, "\n")); }
        OptionsText(init) + (last + "\n" + Join(after, "\n"));
        OptionsText(init) + Join([last] + after, "\n");
      }
    }
  }

  /** Joining four lines in front of at least one more. */
  lemma JoinFour(a: string, b: string, c: string, d: string, mid: seq<string>, sep: string)
    requires |mid| >= 1
    ensures Join([a, b, c, d] + mid, sep) == a + sep + (b + sep + (c + sep + (d + sep + Join(mid, sep))))
  {
    var m1 := [d] + mid;
    var m2 := [c] + m1;
    var m3 := [b] + m2;
    JoinCons(d, mid, sep);
    JoinCons(c, m1, sep);
    JoinCons(b, m2, sep);
    JoinCons(a, m3, sep);
    assert [a, b, c, d] + mid == [a] + m3;
  }

  lemma GlueBlank(x: string, j: string)
    ensures x + "\n" + ("" + "\n" + j) == (x + "\n\n") + j
  {
    assert "" + "\n" + j == "\n" + j;
    assert x + "\n" + ("\n" + j) == (x + "\n" + "\n") + j;
    assert x + "\n" + "\n" == x + "\n\n";
  }

  lemma JoinHead(s: string, qu: string, mid: seq<string>)
    requires |mid| >= 1
    ensures Join([s, "", qu, ""] + mid, "\n") == (s + "\n\n") + ((qu + "\n\n") + Join(mid, "\n"))
  {
    var j := Join(mid, "\n");
    var q := (qu + "\n\n") + j;
    assert qu + "\n" + ("" + "\n" + j) == q by { GlueBlank(qu, j); }
    assert Join([s, "", qu, ""] + mid, "\n") == s + "\n" + ("" + "\n" + q) by {
      JoinFour(s, "", qu, "", mid, "\n");
    }
    GlueBlank(s, q);
  }

  /** Joining the blank line, the answer, the explanation and the final empty line. */
  lemma JoinTail(a: string, e: string)
    ensures Join(["", a, e, ""], "\n") == "\n" + a + "\n" + (e + "\n")
  {
    JoinCons(e, [""], "\n");
    assert [e] + [""] == [e, ""];
    JoinCons(a, [e, ""], "\n");
    assert [a] + [e, ""] == [a, e, ""];
    JoinCons("", [a, e, ""], "\n");
    assert [""] + [a, e, ""] == ["", a, e, ""];
  }

  /** The option lines and the answer and explanation lines, joined. */
  lemma BodyTailText(q: Qcm)
    ensures Join(OptionLines(q.options) + ["", "RÉPONSE CORRECTE: " + q.answer, "EXPLICATION: " + q.explanation, ""], "\n")
            == OptionsText(q.options) + ("\nRÉPONSE CORRECTE: " + q.answer + "\n" + ("EXPLICATION: " + q.explanation + "\n"))
  {
    var a, e := "RÉPONSE CORRECTE: " + q.answer, "EXPLICATION: " + q.explanation;
    JoinTail(a, e);
    assert "\n" + a + "\n" == "\nRÉPONSE CORRECTE: " + q.answer + "\n";
    OptionsTextLines(q.options, ["", a, e, ""]);
  }

  /** The situation and question lines, each followed by a blank line, in front of the rest. */
  lemma BodyHeadText(q: Qcm)
    ensures var rest := OptionLines(q.options) + ["", "RÉPONSE CORRECTE: " + q.answer, "EXPLICATION: " + q.explanation, ""];
      Join(BodyLines(q), "\n")
      == ("SITUATION: " + q.situation + "\n\n") + (("QUESTION: " + q.question + "\n\n") + Join(rest, "\n"))
  {
    var s, qu := "SITUATION: " + q.situation, "QUESTION: " + q.question;
    var rest := OptionLines(q.options) + ["", "RÉPONSE CORRECTE: " + q.answer, "EXPLICATION: " + q.explanation, ""];
    JoinHead(s, qu, rest);
    assert BodyLines(q) == [s, "", qu, ""] + rest;
  }

  lemma QcmScriptGrouped(q: Qcm)
    ensures QcmScript(q) == Marker(q.number) + (("SITUATION: " + q.situation + "\n\n")
      + (("QUESTION: " + q.question + "\n\n") + (OptionsText(q.options)
      + ("\nRÉPONSE CORRECTE: " + q.answer + "\n" + ("EXPLICATION: " + q.explanation + "\n")))))
  {
  }

  /** A formatted QCM is its marker followed by its body lines joined with line breaks. */
  lemma QcmScriptLines(q: Qcm)
    ensures QcmScript(q) == Marker(q.number) + Join(BodyLines(q), "\n")
  {
    BodyTailText(q);
    BodyHeadText(q);
    QcmScriptGrouped(q);
  }

  // ---------------------------------------------------------------------------
  // _assemble_final_script
  // ---------------------------------------------------------------------------

  /** The paragraph after which each QCM goes, by the number of QCMs. */
  function Positions(n: nat, k: nat): seq<nat> {
    if k == 2 then [n / 3, 2 * n / 3]
    else if k == 3 then [n / 4, n / 2, 3 * n / 4]
    else [n / 2]
  }

  predicate Increasing(pos: seq<nat>) {
    forall a, b :: 0 <= a < b < |pos| ==> pos[a] < pos[b]
  }

  /** For at least three paragraphs, the positions are increasing (hence distinct) paragraph
      indices, one per QCM when there are one, two or three QCMs. */
  lemma PositionsFit(n: nat, k: nat)
    requires n >= 3
    ensures Increasing(Positions(n, k))
    ensures forall t :: 0 <= t < |Positions(n, k)| ==> Positions(n, k)[t] < n
    ensures 1 <= k <= 3 ==> |Positions(n, k)| == k
  {
    var q, r := n / 4, n % 4;
    assert n == 4 * q + r;
    assert n / 2 == 2 * q + r / 2;
    assert 3 * n / 4 == 3 * q + (3 * r) / 4;
    var p, s := n / 3, n % 3;
    assert n == 3 * p + s;
    assert 2 * n / 3 == 2 * p + (2 * s) / 3;
  }

  /** A piece of the final script: paragraph `index` or QCM `index`. */
  datatype Item = Paragraph(index: nat) | Quiz(index: nat)

  /** The QCMs from `qi` on, appended by the closing loop. */
  function Rest(qi: nat, k: nat): (r: seq<Item>)
    ensures forall x :: x in r ==> x.Quiz? && qi <= x.index < k
    decreases k - qi
  {
    if qi >= k then [] else [Quiz(qi)] + Rest(qi + 1, k)
  }

  /** The paragraph loop from paragraph `i` with `qi` QCMs already placed, then the closing
      loop: a QCM follows paragraph `i` when `i` is a position and a QCM is left. */
  function Interleave(n: nat, i: nat, qi: nat, pos: seq<nat>, k: nat): (r: seq<Item>)
    requires i <= n
    ensures forall x :: x in r ==> (x.Paragraph? ==> i <= x.index < n) && (x.Quiz? ==> qi <= x.index < k)
    decreases n - i
  {
    if i == n then Rest(qi, k)
    else if i in pos && qi < k then [Paragraph(i), Quiz(qi)] + Interleave(n, i + 1, qi + 1, pos, k)
    else [Paragraph(i)] + Interleave(n, i + 1, qi, pos, k)
  }

  predicate Fits(items: seq<Item>, n: nat, k: nat) {
    forall x :: x in items ==> (x.Paragraph? ==> x.index < n) && (x.Quiz? ==> x.index < k)
  }

  /** The text of one piece, followed by a blank line; an index outside the lists (which
      `Layout` never produces) renders as nothing. */
  function RenderItem(x: Item, ps: seq<string>, qs: seq<Qcm>): string {
    if x.Paragraph? && x.index < |ps| then ps[x.index] + "\n\n"
    else if x.Quiz? && x.index < |qs| then QcmScript(qs[x.index]) + "\n\n"
    else ""
  }

  function RenderItems(items: seq<Item>, ps: seq<string>, qs: seq<Qcm>): string {
    if items == [] then [] else RenderItem(items[0], ps, qs) + RenderItems(items[1..], ps, qs)
  }

  /** The order of the pieces of the final script. */
  function Layout(n: nat, k: nat): (r: seq<Item>)
    ensures Fits(r, n, k)
  {
    if n < 3 then Rest(0, k) else Interleave(n, 0, 0, Positions(n, k), k)
  }

  /** The final script: with fewer than three paragraphs, the main script untouched and every
      QCM after it; otherwise the stripped paragraphs with the QCMs between them. */
  function AssembledScript(main: string, qs: seq<Qcm>): string {
    var ps := ScriptLayout.Paragraphs(main);
    var items := Layout(|ps|, |qs|);
    if |ps| < 3 then main + "\n\n" + RenderItems(items, ps, qs) else RenderItems(items, ps, qs)
  }

  lemma RenderCons(x: Item, rest: seq<Item>, ps: seq<string>, qs: seq<Qcm>)
    ensures RenderItems([x] + rest, ps, qs) == RenderItem(x, ps, qs) + RenderItems(rest, ps, qs)
  {
    assert ([x] + rest)[1..] == rest;
  }

  /** The text the closing loop adds: every QCM from `from` on, each followed by a blank line. */
  function QuizzesText(qs: seq<Qcm>, from: nat): string
    decreases |qs| - from
  {
    if from >= |qs| then "" else (QcmScript(qs[from]) + "\n\n") + QuizzesText(qs, from + 1)
  }

  /** The closing loop renders exactly the QCMs it appends. */
  lemma {:induction false} RestRendered(from: nat, ps: seq<string>, qs: seq<Qcm>)
    ensures RenderItems(Rest(from, |qs|), ps, qs) == QuizzesText(qs, from)
    decreases |qs| - from
  {
    if from < |qs| {
      RestRendered(from + 1, ps, qs);
      RenderCons(Quiz(from), Rest(from + 1, |qs|), ps, qs);
    }
  }

  lemma QuizzesStep(r: string, qs: seq<Qcm>, j: nat)
    requires j < |qs|
    ensures r + QuizzesText(qs, j) == (r + (QcmScript(qs[j]) + "\n\n")) + QuizzesText(qs, j + 1)
  {
    AppendAssoc(r, QcmScript(qs[j]) + "\n\n", QuizzesText(qs, j + 1));
  }

  /** The closing loop: every QCM from `from` on, each followed by a blank line. */
  method AppendRemaining(text: string, qs: seq<Qcm>, from: nat) returns (r: string)
    ensures r == text + QuizzesText(qs, from)
  {
    r := text;
    var j := from;
    while j < |qs|
      invariant r + QuizzesText(qs, j) == text + QuizzesText(qs, from)
      decreases |qs| - j
    {
      var f := FormatQcmForScript(qs[j]);
      QuizzesStep(r, qs, j);
      r := r + (f + "\n\n");
      j := j + 1;
    }
  }

  /** The text the paragraph loop and then the closing loop produce, from paragraph `i` on
      with `qi` QCMs already placed. */
  function Placed(ps: seq<string>, qs: seq<Qcm>, pos: seq<nat>, i: nat, qi: nat): string
    decreases |ps| - i
  {
    if i >= |ps| then QuizzesText(qs, qi)
    else if i in pos && qi < |qs| then
      (ps[i] + "\n\n") + ((QcmScript(qs[qi]) + "\n\n") + Placed(ps, qs, pos, i + 1, qi + 1))
    else (ps[i] + "\n\n") + Placed(ps, qs, pos, i + 1, qi)
  }

  /** The two loops render exactly the layout. */
  lemma {:induction false} PlacedRendered(ps: seq<string>, qs: seq<Qcm>, pos: seq<nat>, i: nat, qi: nat)
    requires i <= |ps|
    ensures RenderItems(Interleave(|ps|, i, qi, pos, |qs|), ps, qs) == Placed(ps, qs, pos, i, qi)
    decreases |ps| - i, 1
  {
    if i == |ps| {
      RestRendered(qi, ps, qs);
    } else if i in pos && qi < |qs| {
      PlacedRenderedQuiz(ps, qs, pos, i, qi);
    } else {
      PlacedRenderedParagraph(ps, qs, pos, i, qi);
    }
  }

  lemma {:induction false} PlacedRenderedQuiz(ps: seq<string>, qs: seq<Qcm>, pos: seq<nat>, i: nat, qi: nat)
    requires i < |ps| && i in pos && qi < |qs|
    ensures RenderItems(Interleave(|ps|, i, qi, pos, |qs|), ps, qs) == Placed(ps, qs, pos, i, qi)
    decreases |ps| - i, 0
  {
    PlacedRendered(ps, qs, pos, i + 1, qi + 1);
    RenderPair(i, qi, Interleave(|ps|, i + 1, qi + 1, pos, |qs|), ps, qs);
  }

  lemma {:induction false} PlacedRenderedParagraph(ps: seq<string>, qs: seq<Qcm>, pos: seq<nat>, i: nat, qi: nat)
    requires i < |ps| && !(i in pos && qi < |qs|)
    ensures RenderItems(Interleave(|ps|, i, qi, pos, |qs|), ps, qs) == Placed(ps, qs, pos, i, qi)
    decreases |ps| - i, 0
  {
    PlacedRendered(ps, qs, pos, i + 1, qi);
    RenderParagraph(i, Interleave(|ps|, i + 1, qi, pos, |qs|), ps, qs);
  }

  lemma RenderPair(i: nat, qi: nat, rest: seq<Item>, ps: seq<string>, qs: seq<Qcm>)
    requires i < |ps| && qi < |qs|
    ensures RenderItems([Paragraph(i), Quiz(qi)] + rest, ps, qs)
         == (ps[i] + "\n\n") + ((QcmScript(qs[qi]) + "\n\n") + RenderItems(rest, ps, qs))
  {
    RenderCons2(Paragraph(i), Quiz(qi), rest, ps, qs);
  }

  lemma RenderCons2(x: Item, y: Item, rest: seq<Item>, ps: seq<string>, qs: seq<Qcm>)
    ensures RenderItems([x, y] + rest, ps, qs)
         == RenderItem(x, ps, qs) + (RenderItem(y, ps, qs) + RenderItems(rest, ps, qs))
  {
    assert ([x, y] + rest)[1..] == [y] + rest;
    RenderCons(y, rest, ps, qs);
  }

  lemma RenderParagraph(i: nat, rest: seq<Item>, ps: seq<string>, qs: seq<Qcm>)
    requires i < |ps|
    ensures RenderItems([Paragraph(i)] + rest, ps, qs) == (ps[i] + "\n\n") + RenderItems(rest, ps, qs)
  {
    RenderCons(Paragraph(i), rest, ps, qs);
  }

  lemma PlacedStep(text: string, ps: seq<string>, qs: seq<Qcm>, pos: seq<nat>, i: nat, qi: nat)
    requires i < |ps| && qi < |qs| && i in pos
    ensures text + Placed(ps, qs, pos, i, qi)
         == ((text + (ps[i] + "\n\n")) + (QcmScript(qs[qi]) + "\n\n")) + Placed(ps, qs, pos, i + 1, qi + 1)
  {
    var p, f, t := ps[i] + "\n\n", QcmScript(qs[qi]) + "\n\n", Placed(ps, qs, pos, i + 1, qi + 1);
    AppendAssoc(text, p, f + t);
    AppendAssoc(text + p, f, t);
  }

  lemma PlainStep(text: string, ps: seq<string>, qs: seq<Qcm>, pos: seq<nat>, i: nat, qi: nat)
    requires i < |ps| && !(i in pos && qi < |qs|)
    ensures text + Placed(ps, qs, pos, i, qi) == (text + (ps[i] + "\n\n")) + Placed(ps, qs, pos, i + 1, qi)
  {
    AppendAssoc(text, ps[i] + "\n\n", Placed(ps, qs, pos, i + 1, qi));
  }

  /** The paragraph loop: each paragraph followed by a blank line, and a QCM after each
      paragraph whose index is a position while QCMs are left; `qi` QCMs are placed. */
  method PlaceQuizzes(ps: seq<string>, qs: seq<Qcm>, positions: seq<nat>) returns (text: string, qi: nat)
    ensures text + QuizzesText(qs, qi) == Placed(ps, qs, positions, 0, 0)
  {
    text := "";
    qi := 0;
    var i: nat := 0;
    while i < |ps|
      invariant i <= |ps|
      invariant text + Placed(ps, qs, positions, i, qi) == Placed(ps, qs, positions, 0, 0)
    {
      if i in positions && qi < |qs| {
        PlacedStep(text, ps, qs, positions, i, qi);
        var f := FormatQcmForScript(qs[qi]);
        text := (text + (ps[i] + "\n\n")) + (f + "\n\n");
        qi := qi + 1;
      } else {
        PlainStep(text, ps, qs, positions, i, qi);
        text := text + (ps[i] + "\n\n");
      }
      i := i + 1;
    }
  }

  method AssembleFinalScript(main: string, qs: seq<Qcm>) returns (finalScript: string)
    ensures finalScript == AssembledScript(main, qs)
  {
    var ps := ScriptLayout.Paragraphs(main);
    if |ps| < 3 {
      finalScript := AppendRemaining(main + "\n\n", qs, 0);
      RestRendered(0, ps, qs);
    } else {
      var text, qi := PlaceQuizzes(ps, qs, Positions(|ps|, |qs|));
      finalScript := AppendRemaining(text, qs, qi);
      PlacedRendered(ps, qs, Positions(|ps|, |qs|), 0, 0);
    }
  }

  /** With fewer than three paragraphs the main script is kept as it is, and every QCM follows
      it in list order, each followed by a blank line. */
  lemma FewParagraphs(main: string, qs: seq<Qcm>)
    requires |ScriptLayout.Paragraphs(main)| < 3
    ensures AssembledScript(main, qs) == main + "\n\n" + QuizzesText(qs, 0)
  {
    RestRendered(0, ScriptLayout.Paragraphs(main), qs);
  }

  // ---------------------------------------------------------------------------
  // What the layout guarantees
  // ---------------------------------------------------------------------------

  function ParagraphsOf(items: seq<Item>): seq<nat> {
    if items == [] then []
    else (if items[0].Paragraph? then [items[0].index] else []) + ParagraphsOf(items[1..])
  }

  function QuizzesOf(items: seq<Item>): seq<nat> {
    if items == [] then []
    else (if items[0].Quiz? then [items[0].index] else []) + QuizzesOf(items[1..])
  }

  function Range(lo: nat, hi: nat): (r: seq<nat>)
    ensures |r| == if lo <= hi then hi - lo else 0
    ensures forall t :: 0 <= t < |r| ==> r[t] == lo + t
    decreases hi - lo
  {
    if lo >= hi then [] else [lo] + Range(lo + 1, hi)
  }

  lemma {:induction false} RestQuizzes(qi: nat, k: nat)
    ensures QuizzesOf(Rest(qi, k)) == Range(qi, k)
    ensures ParagraphsOf(Rest(qi, k)) == []
    decreases k - qi
  {
    if qi < k {
      RestQuizzes(qi + 1, k);
      assert ([Quiz(qi)] + Rest(qi + 1, k))[1..] == Rest(qi + 1, k);
    }
  }

  lemma ItemsOfCons(x: Item, rest: seq<Item>)
    ensures ParagraphsOf([x] + rest) == (if x.Paragraph? then [x.index] else []) + ParagraphsOf(rest)
    ensures QuizzesOf([x] + rest) == (if x.Quiz? then [x.index] else []) + QuizzesOf(rest)
  {
    assert ([x] + rest)[1..] == rest;
  }

  /** Every paragraph from `i` on appears once, in order. */
  lemma {:induction false} InterleaveKeepsParagraphs(n: nat, i: nat, qi: nat, pos: seq<nat>, k: nat)
    requires i <= n
    ensures ParagraphsOf(Interleave(n, i, qi, pos, k)) == Range(i, n)
    decreases n - i
  {
    if i == n {
      RestQuizzes(qi, k);
    } else if i in pos && qi < k {
      var rest := Interleave(n, i + 1, qi + 1, pos, k);
      InterleaveKeepsParagraphs(n, i + 1, qi + 1, pos, k);
      assert [Paragraph(i), Quiz(qi)] + rest == [Paragraph(i)] + ([Quiz(qi)] + rest);
      ItemsOfCons(Paragraph(i), [Quiz(qi)] + rest);
      ItemsOfCons(Quiz(qi), rest);
    } else {
      InterleaveKeepsParagraphs(n, i + 1, qi, pos, k);
      ItemsOfCons(Paragraph(i), Interleave(n, i + 1, qi, pos, k));
    }
  }

  /** Every QCM from `qi` on appears once, in list order. */
  lemma {:induction false} InterleaveKeepsQuizzes(n: nat, i: nat, qi: nat, pos: seq<nat>, k: nat)
    requires i <= n && qi <= k
    ensures QuizzesOf(Interleave(n, i, qi, pos, k)) == Range(qi, k)
    decreases n - i
  {
    if i == n {
      RestQuizzes(qi, k);
    } else if i in pos && qi < k {
      var rest := Interleave(n, i + 1, qi + 1, pos, k);
      InterleaveKeepsQuizzes(n, i + 1, qi + 1, pos, k);
      assert [Paragraph(i), Quiz(qi)] + rest == [Paragraph(i)] + ([Quiz(qi)] + rest);
      ItemsOfCons(Paragraph(i), [Quiz(qi)] + rest);
      ItemsOfCons(Quiz(qi), rest);
    } else {
      InterleaveKeepsQuizzes(n, i + 1, qi, pos, k);
      ItemsOfCons(Paragraph(i), Interleave(n, i + 1, qi, pos, k));
    }
  }

  /** Each paragraph of the script appears once in the final script, in order, and each QCM
      once, in list order. */
  lemma LayoutKeepsAll(n: nat, k: nat)
    ensures n >= 3 ==> ParagraphsOf(Layout(n, k)) == Range(0, n)
    ensures QuizzesOf(Layout(n, k)) == Range(0, k)
  {
    if n < 3 {
      RestQuizzes(0, k);
    } else {
      InterleaveKeepsParagraphs(n, 0, 0, Positions(n, k), k);
      InterleaveKeepsQuizzes(n, 0, 0, Positions(n, k), k);
    }
  }

  /** Every QCM in `r` comes right after the paragraph its position names. */
  predicate AtPositions(r: seq<Item>, pos: seq<nat>) {
    forall t :: 0 <= t < |r| && r[t].Quiz? ==> t > 0 && r[t].index < |pos| && r[t - 1] == Paragraph(pos[r[t].index])
  }

  lemma PrependParagraph(i: nat, rest: seq<Item>, pos: seq<nat>)
    requires AtPositions(rest, pos)
    ensures AtPositions([Paragraph(i)] + rest, pos)
  {
    var r := [Paragraph(i)] + rest;
    forall t | 0 <= t < |r| && r[t].Quiz?
      ensures t > 0 && r[t].index < |pos| && r[t - 1] == Paragraph(pos[r[t].index])
    {
      assert r[t] == rest[t - 1];
      assert t - 1 > 0 && r[t - 1] == rest[t - 2];
    }
  }

  lemma PrependPlaced(i: nat, j: nat, rest: seq<Item>, pos: seq<nat>)
    requires j < |pos| && pos[j] == i
    requires AtPositions(rest, pos)
    ensures AtPositions([Paragraph(i), Quiz(j)] + rest, pos)
  {
    var r := [Paragraph(i), Quiz(j)] + rest;
    forall t | 0 <= t < |r| && r[t].Quiz?
      ensures t > 0 && r[t].index < |pos| && r[t - 1] == Paragraph(pos[r[t].index])
    {
      if t >= 2 {
        assert r[t] == rest[t - 2];
        assert t - 2 > 0 && r[t - 1] == rest[t - 3];
      }
    }
  }

  /** When the next position lies beyond paragraph `i`, no position names `i`. */
  lemma NotAPosition(pos: seq<nat>, i: nat, qi: nat)
    requires Increasing(pos) && qi < |pos|
    requires forall t :: 0 <= t < qi ==> pos[t] < i
    requires pos[qi] > i
    ensures i !in pos
  {
    forall t | 0 <= t < |pos| ensures pos[t] != i {
      if t > qi {
        assert pos[qi] < pos[t];
      }
    }
  }

  /** With no more QCMs than positions, every QCM is placed right after the paragraph its
      position names: none reaches the closing loop and no two are adjacent. */
  lemma {:induction false} QuizzesAtPositions(n: nat, i: nat, qi: nat, pos: seq<nat>, k: nat)
    requires i <= n && qi <= k <= |pos|
    requires Increasing(pos) && forall t :: 0 <= t < |pos| ==> pos[t] < n
    requires forall t :: 0 <= t < qi ==> pos[t] < i
    requires qi < k ==> pos[qi] >= i
    ensures AtPositions(Interleave(n, i, qi, pos, k), pos)
    decreases n - i, 1
  {
    if i == n {
      assert Rest(qi, k) == [];
    } else if i in pos && qi < k {
      PlacedAtPosition(n, i, qi, pos, k);
    } else {
      ParagraphAtPosition(n, i, qi, pos, k);
    }
  }

  lemma {:induction false} PlacedAtPosition(n: nat, i: nat, qi: nat, pos: seq<nat>, k: nat)
    requires i < n && qi < k <= |pos| && i in pos
    requires Increasing(pos) && forall t :: 0 <= t < |pos| ==> pos[t] < n
    requires forall t :: 0 <= t < qi ==> pos[t] < i
    requires pos[qi] >= i
    ensures AtPositions(Interleave(n, i, qi, pos, k), pos)
    decreases n - i, 0
  {
    if pos[qi] != i {
      NotAPosition(pos, i, qi);
    }
    QuizzesAtPositions(n, i + 1, qi + 1, pos, k);
    PrependPlaced(i, qi, Interleave(n, i + 1, qi + 1, pos, k), pos);
  }

  lemma {:induction false} ParagraphAtPosition(n: nat, i: nat, qi: nat, pos: seq<nat>, k: nat)
    requires i < n && qi <= k <= |pos| && !(i in pos && qi < k)
    requires Increasing(pos) && forall t :: 0 <= t < |pos| ==> pos[t] < n
    requires forall t :: 0 <= t < qi ==> pos[t] < i
    requires qi < k ==> pos[qi] >= i
    ensures AtPositions(Interleave(n, i, qi, pos, k), pos)
    decreases n - i, 0
  {
    assert qi < k ==> pos[qi] != i;
    QuizzesAtPositions(n, i + 1, qi, pos, k);
    PrependParagraph(i, Interleave(n, i + 1, qi, pos, k), pos);
  }

  /** `_assemble_final_script` for at least three paragraphs and one to three QCMs: each QCM
      follows the paragraph at its position and the closing loop adds nothing. */
  lemma QuizzesInline(n: nat, k: nat)
    requires n >= 3 && 1 <= k <= 3
    ensures AtPositions(Layout(n, k), Positions(n, k))
  {
    var pos := Positions(n, k);
    PositionsFit(n, k);
    assert Layout(n, k) == Interleave(n, 0, 0, pos, k);
    QuizzesAtPositions(n, 0, 0, pos, k);
  }

  // ---------------------------------------------------------------------------
  // _find_qcm_positions
  // ---------------------------------------------------------------------------

  /** The indices of the lines that start with `=== QCM`, in increasing order. */
  method FindQcmPositions(script: string) returns (positions: seq<nat>)
    ensures var lines := Split(script, "\n");
      (forall t :: 0 <= t < |positions| ==> positions[t] < |lines| && StartsWith(lines[positions[t]], "=== QCM"))
      && Increasing(positions)
      && (forall i :: 0 <= i < |lines| && StartsWith(lines[i], "=== QCM") ==> i in positions)
  {
    var lines := Split(script, "\n");
    positions := [];
    var i := 0;
    while i < |lines|
      invariant 0 <= i <= |lines|
      invariant forall t :: 0 <= t < |positions| ==> positions[t] < i && StartsWith(lines[positions[t]], "=== QCM")
      invariant Increasing(positions)
      invariant forall j :: 0 <= j < i && StartsWith(lines[j], "=== QCM") ==> j in positions
    {
      if StartsWith(lines[i], "=== QCM") {
        positions := positions + [i];
      }
      i := i + 1;
    }
  }
}
