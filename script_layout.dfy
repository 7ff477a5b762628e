/** `_format_script_simple` of `PDFGenerator`: the escaped script is cleaned, its `=== QCM n ===`
    blocks are found by a line scanner, cut out of the narrative from the last to the first, the
    rest is split into paragraphs and rendered, and one `qcmbox` per block is put back between
    the paragraphs by a spacing rule, the boxes not placed going at the end. */
module ScriptLayout {
  import opened Strings
  import opened Rewrite
  import opened Patterns
  import opened Latex
  import opened QcmRender

  // ---------------------------------------------------------------------------
  // Cleanup before the scan
  // ---------------------------------------------------------------------------

  /** `\textbackslash` and the white space after it become one space, then the four `textbf`
      rules delete the formatting artefacts. */
  function PreClean(script: string): string {
    AllSound();
    StripTextbf(ReSub(script, BsTextbackslash, OneSpace))
  }

  /** A lone space passes the four `textbf` rules unchanged. */
  lemma SpaceSurvivesTextbf(sp: string)
    requires sp == " "
    ensures StripTextbf(sp) == sp
  {
    AllSound();
    assert !StartsWith(sp, "textbf{") && !StartsWith(sp, "\\textbf{");
    OneCharUnmatched(sp, TextbfDigits, Nothing);
    OneCharUnmatched(sp, BsTextbfDigits, Nothing);
    OneCharUnmatched(sp, TextbfAny, Nothing);
    OneCharUnmatched(sp, BsTextbfAny, Nothing);
  }

  /** A one-character text on which the pattern does not match is left as it is. */
  lemma OneCharUnmatched(sp: string, m: Matcher, r: string -> string)
    requires Sound(m) && |sp| == 1 && m('\n', sp) == 0
    ensures ReSub(sp, m, r) == sp
  {
    assert sp[1..] == [];
    assert Sub(sp[0], sp[1..], m, r) == [];
    assert Sub('\n', sp, m, r) == [sp[0]] + Sub(sp[0], sp[1..], m, r);
    assert [sp[0]] == sp;
  }

  /** The cleanup before the scan turns `\textbackslash ` into a single space. */
  lemma PreCleanOfTextbackslash(e: string)
    requires e == "\\textbackslash "
    ensures PreClean(e) == " "
  {
    AllSound();
    var x := "\\textbackslash";
    assert e == x + " ";
    assert e[..14] == x && e[14..] == " ";
    assert SpaceSpan(" ") == 1 by { assert IsSpace(' '); }
    assert BsTextbackslash('\n', e) == 15;
    SubFirstMatch('\n', e, BsTextbackslash, OneSpace, 15);
    assert e[15..] == [];
    SpaceSurvivesTextbf(" ");
  }

  /** On the PDF path a one-line bold span `**x**` is reduced to a single space before the scan:
      `process_markdown` replaces it by the template text, `latex_escape` leaves
      `\textbackslash ` of it, and the cleanup of `_format_script_simple` turns that into " ". */
  lemma BoldTextBecomesSpace(x: string)
    requires '*' !in x && '\n' !in x
    ensures PreClean(LatexEscape(ProcessMarkdown("**" + x + "**"))) == " "
  {
    BoldTextIsLost(x);
    PreCleanOfTextbackslash(LatexEscape(ProcessMarkdown("**" + x + "**")));
  }

  // ---------------------------------------------------------------------------
  // The block scanner
  // ---------------------------------------------------------------------------

  /** How the inner loop treats a line, judged on the stripped line: an explanation label, a line
      that may end the block (a `**...**` title or a line starting with `===`), or another line. */
  datatype ScanRow = ExplanationMark | Terminator | Ordinary

  predicate IsBoldTitle(s: string) {
    StartsWith(s, "**") && EndsWith(s, "**")
  }

  function ScanRowOf(line: string): ScanRow {
    var s := Strip(line);
    if IsExplanationLabel(s) then ExplanationMark
    else if IsBoldTitle(s) || StartsWith(s, "===") then Terminator
    else Ordinary
  }

  /** `re.match(r'={3,}\s*QCM\s+\d+\s*={3,}', line.strip(), re.IGNORECASE)` */
  predicate IsMarker(line: string) {
    MarkerHead(Strip(line)) > 0
  }

  /** Whether an explanation line was seen before index `j`, counting from `i`. */
  ghost predicate SeenExplanation(lines: seq<string>, i: nat, j: nat, found: bool, row: string -> ScanRow)
    requires i <= j <= |lines|
  {
    found || exists k :: i <= k < j && row(lines[k]) == ExplanationMark
  }

  /** The inner loop from index `i`: the index it stops at (`end_line`) and the lines it
      appends after the marker line. */
  function Collect(lines: seq<string>, i: nat, found: bool, row: string -> ScanRow): (r: (nat, seq<string>))
    requires i <= |lines|
    ensures i <= r.0 <= |lines|
    decreases |lines| - i
  {
    if i == |lines| then (i, [])
    else
      var c := row(lines[i]);
      if c == ExplanationMark then
        var rest := Collect(lines, i + 1, true, row);
        (rest.0, [lines[i]] + rest.1)
      else if found && (c == Terminator || i == |lines| - 1) then
        (i, if i == |lines| - 1 then [lines[i]] else [])
      else
        var rest := Collect(lines, i + 1, found, row);
        (rest.0, [lines[i]] + rest.1)
  }

  /** One block found by the scanner. */
  datatype Block = Block(num: string, content: string, start: nat, end: nat)

  /** The block of the marker line at index `i` (none when its QCM text comes out empty) and the
      index the scan resumes at. */
  function BlockAt(lines: seq<string>, i: nat, row: string -> ScanRow): (r: (seq<Block>, nat))
    requires i < |lines|
    ensures i < r.1 <= |lines| && r.1 == Collect(lines, i + 1, false, row).0
    ensures |r.0| <= 1 && forall b :: b in r.0 ==> b.start == i && b.end == r.1
  {
    var head := Strip(lines[i]);
    var c := Collect(lines, i + 1, false, row);
    var content := PureQcm(Join([head] + c.1, "\n"));
    (if content != [] then [Block(MarkerNumber(head), content, i, c.0)] else [], c.0)
  }

  /** The blocks found from index `i` on, in order. */
  function ScanFrom(lines: seq<string>, i: nat, marker: string -> bool, row: string -> ScanRow): seq<Block>
    requires i <= |lines|
    decreases |lines| - i
  {
    if i == |lines| then []
    else if marker(lines[i]) then
      var b := BlockAt(lines, i, row);
      b.0 + ScanFrom(lines, b.1, marker, row)
    else ScanFrom(lines, i + 1, marker, row)
  }

  /** The inner loop, for any classification of the lines. */
  method CollectBlock(lines: seq<string>, from: nat, head: string, row: string -> ScanRow)
    returns (qcmLines: seq<string>, i: nat)
    requires from <= |lines|
    ensures i == Collect(lines, from, false, row).0
    ensures qcmLines == [head] + Collect(lines, from, false, row).1
  {
    qcmLines := [head];
    i := from;
    var found := false;
    while i < |lines|
      invariant from <= i <= |lines|
      invariant Collect(lines, i, found, row).0 == Collect(lines, from, false, row).0
      invariant qcmLines + Collect(lines, i, found, row).1 == [head] + Collect(lines, from, false, row).1
    {
      var c := row(lines[i]);
      var rest := Collect(lines, i + 1, found, row);
      qcmLines := qcmLines + [lines[i]];
      if c == ExplanationMark {
        var restT := Collect(lines, i + 1, true, row);
        assert qcmLines + restT.1 == (qcmLines[..|qcmLines| - 1]) + ([lines[i]] + restT.1);
        found := true;
        i := i + 1;
        continue;
      }
      if found && (c == Terminator || i == |lines| - 1) {
        ghost var before := qcmLines[..|qcmLines| - 1];
        if !(i == |lines| - 1) {
          qcmLines := qcmLines[..|qcmLines| - 1];
          assert qcmLines == before + [];
        }
        break;
      }
      assert qcmLines + rest.1 == (qcmLines[..|qcmLines| - 1]) + ([lines[i]] + rest.1);
      i := i + 1;
    }
    if i == |lines| {
      assert qcmLines + [] == qcmLines;
    }
  }

  /** The body of the outer loop at a marker line. */
  method TakeBlock(lines: seq<string>, i: nat, row: string -> ScanRow) returns (found: seq<Block>, end: nat)
    requires i < |lines|
    ensures found == BlockAt(lines, i, row).0 && end == BlockAt(lines, i, row).1
  {
    var line := Strip(lines[i]);
    var num := MarkerNumber(line);
    var start := i;
    var qcmLines;
    qcmLines, end := CollectBlock(lines, i + 1, line, row);
    var pure := ExtractPureQcm(Join(qcmLines, "\n"));
    if pure != [] {
      found := [Block(num, pure, start, end)];
    } else {
      found := [];
    }
  }

  /** The outer loop of the scanner, for any marker test and classification of the lines. */
  method ScanLines(lines: seq<string>, marker: string -> bool, row: string -> ScanRow) returns (blocks: seq<Block>)
    ensures blocks == ScanFrom(lines, 0, marker, row)
  {
    blocks := [];
    var i := 0;
    while i < |lines|
      invariant 0 <= i <= |lines|
      invariant blocks + ScanFrom(lines, i, marker, row) == ScanFrom(lines, 0, marker, row)
      decreases |lines| - i
    {
      if marker(lines[i]) {
        var found, end := TakeBlock(lines, i, row);
        AppendAssoc(blocks, found, ScanFrom(lines, end, marker, row));
        blocks := blocks + found;
        i := end;
      } else {
        i := i + 1;
      }
    }
  }

  method ScanBlocks(lines: seq<string>) returns (blocks: seq<Block>)
    ensures blocks == ScanFrom(lines, 0, IsMarker, ScanRowOf)
  {
    blocks := ScanLines(lines, IsMarker, ScanRowOf);
  }

  // ---------------------------------------------------------------------------
  // What the scanner finds
  // ---------------------------------------------------------------------------

  /** Where the inner loop stops and what it takes. It stops at `|lines|`, or at a line after an
      explanation that is no explanation itself and either may end a block or is the last line.
      It takes every line from `i` up to the stop; the stopping line itself only when it is the
      last line. */
  lemma {:induction false} CollectStops(lines: seq<string>, i: nat, found: bool, row: string -> ScanRow)
    requires i <= |lines|
    ensures var r := Collect(lines, i, found, row);
      (r.0 + 1 >= |lines| ==> r.1 == lines[i..])
      && (r.0 + 1 < |lines| ==> r.1 == lines[i..r.0])
      && (r.0 < |lines| ==> row(lines[r.0]) != ExplanationMark && SeenExplanation(lines, i, r.0, found, row)
                            && (row(lines[r.0]) == Terminator || r.0 == |lines| - 1))
    decreases |lines| - i
  {
    if i < |lines| {
      var c := row(lines[i]);
      if c == ExplanationMark {
        CollectStops(lines, i + 1, true, row);
        var e := Collect(lines, i + 1, true, row).0;
        assert [lines[i]] + lines[i + 1..] == lines[i..];
        if e + 1 < |lines| {
          assert [lines[i]] + lines[i + 1..e] == lines[i..e];
        }
      } else if found && (c == Terminator || i == |lines| - 1) {
      } else {
        CollectStops(lines, i + 1, found, row);
        var e := Collect(lines, i + 1, found, row).0;
        assert [lines[i]] + lines[i + 1..] == lines[i..];
        if e + 1 < |lines| {
          assert [lines[i]] + lines[i + 1..e] == lines[i..e];
        }
      }
    }
  }

  /** The inner loop stops at the first line where it may: no line before the stop that follows
      an explanation (and is none) ends a block or is the last line. */
  lemma {:induction false} CollectFirstStop(lines: seq<string>, i: nat, found: bool, row: string -> ScanRow, j: nat)
    requires i <= |lines|
    requires i <= j < Collect(lines, i, found, row).0
    requires row(lines[j]) != ExplanationMark && SeenExplanation(lines, i, j, found, row)
    ensures row(lines[j]) != Terminator && j != |lines| - 1
    decreases j - i
  {
    var c := row(lines[i]);
    if j > i {
      if c == ExplanationMark {
        CollectFirstStop(lines, i + 1, true, row, j);
      } else {
        if !found {
          var k :| i <= k < j && row(lines[k]) == ExplanationMark;
          assert i + 1 <= k;
        }
        CollectFirstStop(lines, i + 1, found, row, j);
      }
    }
  }

  /** Blocks lie inside `[lo, hi)` in order, each non-empty and ending before the next starts. */
  ghost predicate Chained(bs: seq<Block>, lo: nat, hi: nat)
    decreases |bs|
  {
    bs == [] || (lo <= bs[0].start < bs[0].end <= hi && Chained(bs[1..], bs[0].end, hi))
  }

  /** Each block starts at a marker line and ends where the inner loop stops after it. */
  ghost predicate FromMarkers(bs: seq<Block>, lines: seq<string>, marker: string -> bool, row: string -> ScanRow) {
    forall k :: 0 <= k < |bs| ==>
      bs[k].start < |lines| && marker(lines[bs[k].start]) && bs[k].end == Collect(lines, bs[k].start + 1, false, row).0
  }

  lemma BlocksCons(x: Block, rest: seq<Block>, lines: seq<string>, marker: string -> bool, row: string -> ScanRow)
    requires FromMarkers([x], lines, marker, row) && FromMarkers(rest, lines, marker, row)
    ensures FromMarkers([x] + rest, lines, marker, row)
  {
    var bs := [x] + rest;
    assert forall k :: 1 <= k < |bs| ==> bs[k] == rest[k - 1];
  }

  lemma {:induction false} ScanBlocksPlaced(lines: seq<string>, i: nat, marker: string -> bool, row: string -> ScanRow)
    requires i <= |lines|
    ensures var bs := ScanFrom(lines, i, marker, row);
      Chained(bs, i, |lines|) && FromMarkers(bs, lines, marker, row)
    decreases |lines| - i, 1
  {
    if i < |lines| {
      if marker(lines[i]) {
        MarkerBlockPlaced(lines, i, marker, row);
      } else {
        ScanBlocksPlaced(lines, i + 1, marker, row);
      }
    }
  }

  lemma {:induction false} MarkerBlockPlaced(lines: seq<string>, i: nat, marker: string -> bool, row: string -> ScanRow)
    requires i < |lines| && marker(lines[i])
    ensures var bs := ScanFrom(lines, i, marker, row);
      Chained(bs, i, |lines|) && FromMarkers(bs, lines, marker, row)
    decreases |lines| - i, 0
  {
    var b := BlockAt(lines, i, row);
    ScanBlocksPlaced(lines, b.1, marker, row);
    var rest := ScanFrom(lines, b.1, marker, row);
    assert ScanFrom(lines, i, marker, row) == b.0 + rest;
    if b.0 != [] {
      assert b.0[0] in b.0;
      BlockThenRest(lines, i, b.0[0], b.1, rest, marker, row);
    } else {
      assert b.0 + rest == rest;
    }
  }

  lemma BlockThenRest(lines: seq<string>, i: nat, x: Block, next: nat, rest: seq<Block>,
                      marker: string -> bool, row: string -> ScanRow)
    requires i < |lines| && marker(lines[i]) && x.start == i && x.end == next && i < next <= |lines|
    requires next == Collect(lines, i + 1, false, row).0
    requires Chained(rest, next, |lines|) && FromMarkers(rest, lines, marker, row)
    ensures Chained([x] + rest, i, |lines|) && FromMarkers([x] + rest, lines, marker, row)
  {
    assert ([x] + rest)[1..] == rest;
    BlocksCons(x, rest, lines, marker, row);
  }

  /** The text of a block whose first line is a marker line keeps that line: it is never empty. */
  lemma PureQcmOfMarker(head: string, t: seq<string>)
    requires head != [] && head[0] == '=' && '\n' !in head
    ensures PureQcm(Join([head] + t, "\n")) != []
  {
    var text := Join([head] + t, "\n");
    if t == [] {
      assert text == head;
      SplitNoSep(head, '\n');
    } else {
      JoinCons(head, t, "\n");
      SplitLine(head, '\n', Join(t, "\n"));
    }
    var ls := Split(text, "\n");
    assert ls[0] == head;
    var kept := PureScan(ls, false, ClassifyRow);
    assert kept == [head] + PureScan(ls[1..], ClassifyRow(head) == ExplanationRow, ClassifyRow);
    var joined := Join(kept, "\n");
    if |kept| > 1 {
      JoinCons(head, kept[1..], "\n");
      assert kept == [head] + kept[1..];
    }
    assert joined[0] == '=';
    StripEmptyIffBlank(joined);
  }

  lemma StripKeepsAbsent(s: string, c: char)
    requires c !in s
    ensures c !in Strip(s)
  {
    var r := Strip(s);
    var k := |s| - |LStrip(s)|;
    assert forall j :: 0 <= j < |r| ==> r[j] == s[k + j];
  }

  lemma MarkerStartsWithRun(h: string)
    requires MarkerHead(h) > 0
    ensures h != [] && h[0] == '='
  {
    assert h[..3] == "===";
  }

  /** A scan step at a marker line records exactly one block. */
  lemma MarkerYieldsBlock(lines: seq<string>, i: nat, row: string -> ScanRow)
    requires i < |lines| && IsMarker(lines[i]) && '\n' !in lines[i]
    ensures |BlockAt(lines, i, row).0| == 1
  {
    var head := Strip(lines[i]);
    StripKeepsAbsent(lines[i], '\n');
    MarkerStartsWithRun(head);
    PureQcmOfMarker(head, Collect(lines, i + 1, false, row).1);
  }

  /** Until an explanation line is seen, the inner loop does not stop: it runs at least up to
      the first explanation line, past any `===` line. */
  lemma {:induction false} CollectPassesUnexplained(lines: seq<string>, i: nat, j: nat, row: string -> ScanRow)
    requires i <= j <= |lines|
    requires forall k :: i <= k < j ==> row(lines[k]) != ExplanationMark
    ensures Collect(lines, i, false, row).0 >= j
    decreases |lines| - i
  {
    if i < j {
      CollectPassesUnexplained(lines, i + 1, j, row);
    }
  }

  /** A marker line at `j` inside the block of the marker at `i`, with no explanation line after
      `i` up to and including `j`, is swallowed: the scan resumes after `j`, so `j` starts no
      block. A QCM without an explanation line swallows every later marker. */
  lemma MarkerSwallowed(lines: seq<string>, i: nat, j: nat, row: string -> ScanRow)
    requires i < j < |lines|
    requires forall k :: i < k <= j ==> row(lines[k]) != ExplanationMark
    ensures BlockAt(lines, i, row).1 > j
  {
    CollectPassesUnexplained(lines, i + 1, j + 1, row);
  }

  // ---------------------------------------------------------------------------
  // Cutting the blocks out of the narrative
  // ---------------------------------------------------------------------------

  /** The lines outside the blocks, from `pos` on, in their order: the lines between one block's
      end and the next one's start. */
  function Gaps(lines: seq<string>, bs: seq<Block>, pos: nat): seq<string>
    requires pos <= |lines| && Chained(bs, pos, |lines|)
    decreases |bs|
  {
    if bs == [] then lines[pos..]
    else lines[pos..bs[0].start] + Gaps(lines, bs[1..], bs[0].end)
  }

  /** The `(num, content)` pairs of the blocks, in order. */
  function BoxesOf(bs: seq<Block>): (r: seq<(string, string)>)
    ensures |r| == |bs| && forall k :: 0 <= k < |bs| ==> r[k] == (bs[k].num, bs[k].content)
  {
    if bs == [] then [] else [(bs[0].num, bs[0].content)] + BoxesOf(bs[1..])
  }

  function Reverse<T>(s: seq<T>): (r: seq<T>)
    ensures |r| == |s| && forall k :: 0 <= k < |s| ==> r[k] == s[|s| - 1 - k]
  {
    if s == [] then [] else Reverse(s[1..]) + [s[0]]
  }

  /** The index the lines from block `k` on start at. */
  function From(lines: seq<string>, bs: seq<Block>, k: nat): nat
    requires k <= |bs|
  {
    if k < |bs| then bs[k].start else |lines|
  }

  lemma ChainedSuffix(bs: seq<Block>, lo: nat, hi: nat, k: nat)
    requires Chained(bs, lo, hi) && k < |bs|
    ensures Chained(bs[k..], bs[k].start, hi)
    ensures k + 1 < |bs| ==> bs[k].end <= bs[k + 1].start
    ensures bs[k].end <= hi
    ensures Chained(bs[k + 1..], bs[k].end, hi)
    decreases k
  {
    if k > 0 {
      ChainedSuffix(bs[1..], bs[0].end, hi, k - 1);
      assert bs[1..][k - 1..] == bs[k..];
      assert bs[1..][k..] == bs[k + 1..];
    }
  }

  /** Gaps from the start of the next block on are the gaps of the following blocks, once the
      lines before that start are added. */
  lemma GapsJoin(lines: seq<string>, bs: seq<Block>, e: nat, p: nat)
    requires e <= p <= |lines| && Chained(bs, p, |lines|) && (bs != [] ==> bs[0].start == p)
    ensures Chained(bs, e, |lines|)
    ensures lines[e..p] + Gaps(lines, bs, p) == Gaps(lines, bs, e)
  {
    if bs == [] {
      assert lines[e..p] + lines[p..] == lines[e..];
    } else {
      assert lines[p..p] == [];
    }
  }

  /** Deleting block `k` from the lines with blocks `k+1..` already deleted. */
  lemma CutStep(lines: seq<string>, blocks: seq<Block>, k: nat, remaining: seq<string>)
    requires Chained(blocks, 0, |lines|) && k < |blocks|
    requires From(lines, blocks, k + 1) <= |lines| && Chained(blocks[k + 1..], From(lines, blocks, k + 1), |lines|)
    requires remaining == lines[..From(lines, blocks, k + 1)] + Gaps(lines, blocks[k + 1..], From(lines, blocks, k + 1))
    ensures blocks[k].start < blocks[k].end <= |remaining|
    ensures Chained(blocks[k..], From(lines, blocks, k), |lines|)
    ensures remaining[..blocks[k].start] + remaining[blocks[k].end..]
            == lines[..From(lines, blocks, k)] + Gaps(lines, blocks[k..], From(lines, blocks, k))
  {
    var b := blocks[k];
    ChainedSuffix(blocks, 0, |lines|, k);
    var p := From(lines, blocks, k + 1);
    var g := Gaps(lines, blocks[k + 1..], p);
    GapsJoin(lines, blocks[k + 1..], b.end, p);
    GapsHead(lines, blocks, k);
    Splice(lines, g, b.start, b.end, p);
  }

  /** The gaps from the start of block `k` on are the gaps from its end on. */
  lemma GapsHead(lines: seq<string>, blocks: seq<Block>, k: nat)
    requires k < |blocks| && blocks[k].start <= |lines| && Chained(blocks[k..], blocks[k].start, |lines|)
    ensures blocks[k].end <= |lines| && Chained(blocks[k + 1..], blocks[k].end, |lines|)
    ensures Gaps(lines, blocks[k..], blocks[k].start) == Gaps(lines, blocks[k + 1..], blocks[k].end)
  {
    var b := blocks[k];
    assert blocks[k..][0] == b && blocks[k..][1..] == blocks[k + 1..];
    assert lines[b.start..b.start] == [];
    assert Gaps(lines, blocks[k..], b.start) == [] + Gaps(lines, blocks[k + 1..], b.end);
  }

  /** Deleting `[s, e)` from `lines[..p] + g`, when `e <= p`. */
  lemma Splice<T>(lines: seq<T>, g: seq<T>, s: nat, e: nat, p: nat)
    requires s <= e <= p <= |lines|
    ensures (lines[..p] + g)[..s] + (lines[..p] + g)[e..] == lines[..s] + (lines[e..p] + g)
  {
    var r := lines[..p] + g;
    assert r[..s] == lines[..s];
    assert r[e..] == lines[e..p] + g;
  }

  lemma ReverseStep(bs: seq<Block>, k: nat)
    requires k < |bs|
    ensures Reverse(BoxesOf(bs[k..])) == Reverse(BoxesOf(bs[k + 1..])) + [(bs[k].num, bs[k].content)]
  {
    assert bs[k..][1..] == bs[k + 1..];
    assert BoxesOf(bs[k..]) == [(bs[k].num, bs[k].content)] + BoxesOf(bs[k + 1..]);
  }

  /** The state of the deletion loop once the blocks from `k` on are cut out: the lines before
      block `k` followed by the gaps after it, and the pairs of the cut blocks, last first. */
  ghost predicate CutFrom(lines: seq<string>, blocks: seq<Block>, k: nat, remaining: seq<string>, rev: seq<(string, string)>) {
    k <= |blocks| && From(lines, blocks, k) <= |lines| && Chained(blocks[k..], From(lines, blocks, k), |lines|)
    && remaining == lines[..From(lines, blocks, k)] + Gaps(lines, blocks[k..], From(lines, blocks, k))
    && rev == Reverse(BoxesOf(blocks[k..]))
  }

  /** One turn of the deletion loop keeps its state. */
  lemma CutAdvance(lines: seq<string>, blocks: seq<Block>, k: nat, remaining: seq<string>, rev: seq<(string, string)>)
    requires Chained(blocks, 0, |lines|) && 0 < k && CutFrom(lines, blocks, k, remaining, rev)
    ensures blocks[k - 1].start <= blocks[k - 1].end <= |remaining|
    ensures CutFrom(lines, blocks, k - 1,
                    remaining[..blocks[k - 1].start] + remaining[blocks[k - 1].end..],
                    rev + [(blocks[k - 1].num, blocks[k - 1].content)])
  {
    CutStep(lines, blocks, k - 1, remaining);
    ReverseStep(blocks, k - 1);
  }

  /** Once every block is cut, the lines left are the gaps and the pairs are the blocks'. */
  lemma CutDone(lines: seq<string>, blocks: seq<Block>, remaining: seq<string>, rev: seq<(string, string)>)
    requires Chained(blocks, 0, |lines|) && CutFrom(lines, blocks, 0, remaining, rev)
    ensures remaining == Gaps(lines, blocks, 0)
    ensures Reverse(rev) == BoxesOf(blocks)
  {
    assert blocks[0..] == blocks;
    var p := From(lines, blocks, 0);
    GapsJoin(lines, blocks, 0, p);
    assert lines[..p] == lines[0..p];
  }

  /** `del remaining[start:end]` for each block, from the last to the first, collecting the
      `(num, content)` pairs; the pairs are reversed back into the order of the blocks. */
  method CutBlocks(lines: seq<string>, blocks: seq<Block>) returns (remaining: seq<string>, boxes: seq<(string, string)>)
    requires Chained(blocks, 0, |lines|)
    ensures remaining == Gaps(lines, blocks, 0)
    ensures boxes == BoxesOf(blocks)
  {
    remaining := lines;
    var rev: seq<(string, string)> := [];
    var k := |blocks|;
    assert blocks[k..] == [] && remaining == lines[..|lines|] + lines[|lines|..];
    while k > 0
      invariant CutFrom(lines, blocks, k, remaining, rev)
    {
      var b := blocks[k - 1];
      CutAdvance(lines, blocks, k, remaining, rev);
      rev := rev + [(b.num, b.content)];
      remaining := remaining[..b.start] + remaining[b.end..];
      k := k - 1;
    }
    CutDone(lines, blocks, remaining, rev);
    boxes := Reverse(rev);
  }

  // ---------------------------------------------------------------------------
  // Paragraphs and the placement of the boxes
  // ---------------------------------------------------------------------------

  /** `[p.strip() for p in main_content.split('\n\n') if p.strip()]` */
  function Paragraphs(main: string): seq<string> {
    NonBlankLines(Split(main, "\n\n"))
  }

  /** The per-paragraph cleanup: the four `textbf` rules, then every white-space run becomes one
      space and the result is stripped. */
  function CleanParagraph(p: string): string {
    AllSound();
    Strip(ReSub(StripTextbf(p), WsRun, OneSpace))
  }

  /** `paragraph[2:-2].strip()` */
  function TitleOf(p: string): string {
    Strip(if |p| >= 4 then p[2..|p| - 2] else [])
  }

  /** A `**...**` paragraph becomes a `\subsection*` when its title starts with `Point ` or
      `Transition`, a bold line otherwise; any other paragraph is kept as it is. */
  function RenderParagraph(p: string): string {
    if IsBoldTitle(p) then
      var title := TitleOf(p);
      if StartsWith(title, "Point ") || StartsWith(title, "Transition") then "\\subsection*{" + title + "}\n\n"
      else "\\textbf{" + title + "}\n\n"
    else p + "\n\n"
  }

  const VSpaceHalf := "\\vspace{0.5cm}\n"
  const BeginBox := "\\begin{qcmbox}\n"
  const EndBox := "\\end{qcmbox}\n"
  const VSpaceHalfPara := "\\vspace{0.5cm}\n\n"

  /** One QCM box: the rendered QCM between the box's opening and closing lines. */
  function BoxMarkup(content: string): string {
    VSpaceHalf + BeginBox + QcmMarkup(Strip(content)) + EndBox + VSpaceHalfPara
  }

  function Max(a: int, b: int): int { if a >= b then a else b }

  /** `max(1, len(paragraphs) // (len(boxes) + 1))` */
  function Spacing(n: nat, k: nat): nat {
    Max(1, n / (k + 1))
  }

  /** The test that puts the next box after paragraph `i`. */
  predicate PlacesBox(i: nat, inserted: nat, n: nat, k: nat) {
    inserted < k && i > 0 && (i + 1) % Spacing(n, k) == 0
  }

  /** What the output is made of: rendered paragraphs (with their index in the paragraph list)
      and boxes. */
  datatype Piece = Para(index: nat, text: string) | Box(content: string)

  /** The loop over the paragraphs from index `i`, with `inserted` boxes already placed; `clean` is
      the per-paragraph cleanup. */
  function InlineFrom(ps: seq<string>, i: nat, inserted: nat, boxes: seq<(string, string)>, clean: string -> string): (r: seq<Piece>)
    requires i <= |ps| && inserted <= |boxes|
    decreases |ps| - i
  {
    if i == |ps| then []
    else
      var p := clean(ps[i]);
      if p == [] then InlineFrom(ps, i + 1, inserted, boxes, clean)
      else if PlacesBox(i, inserted, |ps|, |boxes|) then
        [Para(i, p), Box(boxes[inserted].1)] + InlineFrom(ps, i + 1, inserted + 1, boxes, clean)
      else [Para(i, p)] + InlineFrom(ps, i + 1, inserted, boxes, clean)
  }

  /** The boxes from index `j` on, as pieces. */
  function BoxPieces(boxes: seq<(string, string)>, j: nat): (r: seq<Piece>)
    requires j <= |boxes|
    ensures |r| == |boxes| - j && forall k :: 0 <= k < |r| ==> r[k] == Box(boxes[j + k].1)
    decreases |boxes| - j
  {
    if j == |boxes| then [] else [Box(boxes[j].1)] + BoxPieces(boxes, j + 1)
  }

  /** The contents of the boxes among `pieces`, in order. */
  function BoxContents(pieces: seq<Piece>): seq<string> {
    if pieces == [] then []
    else (if pieces[0].Box? then [pieces[0].content] else []) + BoxContents(pieces[1..])
  }

  /** The texts of the paragraphs among `pieces`, in order. */
  function ParaTexts(pieces: seq<Piece>): seq<string> {
    if pieces == [] then []
    else (if pieces[0].Para? then [pieces[0].text] else []) + ParaTexts(pieces[1..])
  }

  lemma {:induction false} InlineCount(ps: seq<string>, i: nat, inserted: nat, boxes: seq<(string, string)>, clean: string -> string)
    requires i <= |ps| && inserted <= |boxes|
    ensures inserted + |BoxContents(InlineFrom(ps, i, inserted, boxes, clean))| <= |boxes|
    ensures var c := BoxContents(InlineFrom(ps, i, inserted, boxes, clean));
      forall j :: 0 <= j < |c| ==> c[j] == boxes[inserted + j].1
    decreases |ps| - i, 1
  {
    if i < |ps| {
      var p := clean(ps[i]);
      if p == [] {
        InlineCount(ps, i + 1, inserted, boxes, clean);
      } else if PlacesBox(i, inserted, |ps|, |boxes|) {
        InlineCountBox(ps, i, inserted, boxes, clean);
      } else {
        InlineCount(ps, i + 1, inserted, boxes, clean);
        var rest := InlineFrom(ps, i + 1, inserted, boxes, clean);
        BoxContentsAppend([Para(i, p)], rest);
      }
    }
  }

  /** `InlineCount` when paragraph `i` is followed by a box. */
  lemma {:induction false} InlineCountBox(ps: seq<string>, i: nat, inserted: nat, boxes: seq<(string, string)>, clean: string -> string)
    requires i < |ps| && inserted <= |boxes| && clean(ps[i]) != [] && PlacesBox(i, inserted, |ps|, |boxes|)
    ensures inserted + |BoxContents(InlineFrom(ps, i, inserted, boxes, clean))| <= |boxes|
    ensures var c := BoxContents(InlineFrom(ps, i, inserted, boxes, clean));
      forall j :: 0 <= j < |c| ==> c[j] == boxes[inserted + j].1
    decreases |ps| - i, 0
  {
    var p := clean(ps[i]);
    InlineCount(ps, i + 1, inserted + 1, boxes, clean);
    var rest := InlineFrom(ps, i + 1, inserted + 1, boxes, clean);
    var x := [Para(i, p), Box(boxes[inserted].1)];
    assert InlineFrom(ps, i, inserted, boxes, clean) == x + rest;
    BoxContentsAppend(x, rest);
    assert BoxContents(x) == [boxes[inserted].1];
  }

  /** The second halves of the pairs. */
  function Contents(boxes: seq<(string, string)>): (r: seq<string>)
    ensures |r| == |boxes| && forall k :: 0 <= k < |boxes| ==> r[k] == boxes[k].1
  {
    if boxes == [] then [] else [boxes[0].1] + Contents(boxes[1..])
  }

  lemma {:induction false} BoxContentsAppend(a: seq<Piece>, b: seq<Piece>)
    ensures BoxContents(a + b) == BoxContents(a) + BoxContents(b)
    decreases |a|
  {
    if a == [] {
      assert a + b == b;
    } else {
      assert (a + b)[1..] == a[1..] + b;
      BoxContentsAppend(a[1..], b);
    }
  }

  /** The boxes of `BoxPieces` are the remaining contents. */
  lemma {:induction false} BoxPiecesContents(boxes: seq<(string, string)>, j: nat)
    requires j <= |boxes|
    ensures var c := BoxContents(BoxPieces(boxes, j));
      |c| == |boxes| - j && forall k :: 0 <= k < |c| ==> c[k] == boxes[j + k].1
    ensures ParaTexts(BoxPieces(boxes, j)) == []
    decreases |boxes| - j
  {
    if j < |boxes| {
      BoxPiecesContents(boxes, j + 1);
      var r := BoxPieces(boxes, j);
      assert r[1..] == BoxPieces(boxes, j + 1);
    }
  }

  lemma {:induction false} ParaTextsAppend(a: seq<Piece>, b: seq<Piece>)
    ensures ParaTexts(a + b) == ParaTexts(a) + ParaTexts(b)
    decreases |a|
  {
    if a == [] {
      assert a + b == b;
    } else {
      assert (a + b)[1..] == a[1..] + b;
      ParaTextsAppend(a[1..], b);
    }
  }

  /** The inline pieces followed by the boxes that were not placed. */
  function Layout(ps: seq<string>, boxes: seq<(string, string)>, clean: string -> string): seq<Piece> {
    var inl := InlineFrom(ps, 0, 0, boxes, clean);
    InlineCount(ps, 0, 0, boxes, clean);
    inl + BoxPieces(boxes, |BoxContents(inl)|)
  }

  /** Every box appears exactly once, in the order of the blocks. */
  lemma LayoutBoxes(ps: seq<string>, boxes: seq<(string, string)>, clean: string -> string)
    ensures BoxContents(Layout(ps, boxes, clean)) == Contents(boxes)
  {
    var inl := InlineFrom(ps, 0, 0, boxes, clean);
    InlineCount(ps, 0, 0, boxes, clean);
    var c := |BoxContents(inl)|;
    BoxContentsAppend(inl, BoxPieces(boxes, c));
    BoxPiecesContents(boxes, c);
    var all := BoxContents(inl) + BoxContents(BoxPieces(boxes, c));
    assert forall k :: c <= k < |all| ==> all[k] == BoxContents(BoxPieces(boxes, c))[k - c];
  }

  /** The non-empty cleaned paragraphs from index `i` on, in order. */
  function CleanedFrom(ps: seq<string>, i: nat, clean: string -> string): seq<string>
    requires i <= |ps|
    decreases |ps| - i
  {
    if i == |ps| then [] else (if clean(ps[i]) != [] then [clean(ps[i])] else []) + CleanedFrom(ps, i + 1, clean)
  }

  lemma {:induction false} InlineParagraphs(ps: seq<string>, i: nat, inserted: nat, boxes: seq<(string, string)>, clean: string -> string)
    requires i <= |ps| && inserted <= |boxes|
    ensures ParaTexts(InlineFrom(ps, i, inserted, boxes, clean)) == CleanedFrom(ps, i, clean)
    decreases |ps| - i
  {
    if i < |ps| {
      var p := clean(ps[i]);
      if p == [] {
        InlineParagraphs(ps, i + 1, inserted, boxes, clean);
      } else if PlacesBox(i, inserted, |ps|, |boxes|) {
        InlineParagraphs(ps, i + 1, inserted + 1, boxes, clean);
        ParaTextsAppend([Para(i, p), Box(boxes[inserted].1)], InlineFrom(ps, i + 1, inserted + 1, boxes, clean));
      } else {
        InlineParagraphs(ps, i + 1, inserted, boxes, clean);
        ParaTextsAppend([Para(i, p)], InlineFrom(ps, i + 1, inserted, boxes, clean));
      }
    }
  }

  /** Every non-empty paragraph appears once, in order, and nothing else is a paragraph. */
  lemma LayoutParagraphs(ps: seq<string>, boxes: seq<(string, string)>, clean: string -> string)
    ensures ParaTexts(Layout(ps, boxes, clean)) == CleanedFrom(ps, 0, clean)
  {
    var inl := InlineFrom(ps, 0, 0, boxes, clean);
    InlineCount(ps, 0, 0, boxes, clean);
    var c := |BoxContents(inl)|;
    InlineParagraphs(ps, 0, 0, boxes, clean);
    ParaTextsAppend(inl, BoxPieces(boxes, c));
    BoxPiecesContents(boxes, c);
  }

  /** Among the inline pieces a box always follows a paragraph (so at most one box follows a
      paragraph), and that paragraph's index `i` passes the spacing test: `i > 0` and
      `(i + 1) % Spacing(n, k) == 0`. */
  lemma {:induction false} InlineRule(ps: seq<string>, i: nat, inserted: nat, boxes: seq<(string, string)>, clean: string -> string)
    requires i <= |ps| && inserted <= |boxes|
    ensures var r := InlineFrom(ps, i, inserted, boxes, clean);
      (r != [] ==> r[0].Para? && r[0].index >= i)
      && forall p :: 0 < p < |r| && r[p].Box? ==>
           r[p - 1].Para? && r[p - 1].index > 0 && (r[p - 1].index + 1) % Spacing(|ps|, |boxes|) == 0
    decreases |ps| - i, 1
  {
    if i < |ps| {
      var p := clean(ps[i]);
      if p == [] {
        InlineRule(ps, i + 1, inserted, boxes, clean);
      } else if PlacesBox(i, inserted, |ps|, |boxes|) {
        InlineRuleBox(ps, i, inserted, boxes, clean);
      } else {
        InlineRuleAlone(ps, i, inserted, boxes, clean);
      }
    }
  }

  /** `InlineRule` when paragraph `i` is followed by a box. */
  lemma {:induction false} InlineRuleBox(ps: seq<string>, i: nat, inserted: nat, boxes: seq<(string, string)>, clean: string -> string)
    requires i < |ps| && inserted <= |boxes| && clean(ps[i]) != [] && PlacesBox(i, inserted, |ps|, |boxes|)
    ensures var r := InlineFrom(ps, i, inserted, boxes, clean);
      (r != [] ==> r[0].Para? && r[0].index >= i)
      && forall p :: 0 < p < |r| && r[p].Box? ==>
           r[p - 1].Para? && r[p - 1].index > 0 && (r[p - 1].index + 1) % Spacing(|ps|, |boxes|) == 0
    decreases |ps| - i, 0
  {
    InlineRule(ps, i + 1, inserted + 1, boxes, clean);
    var rest := InlineFrom(ps, i + 1, inserted + 1, boxes, clean);
    assert InlineFrom(ps, i, inserted, boxes, clean) == [Para(i, clean(ps[i])), Box(boxes[inserted].1)] + rest;
    SpacedAfterBox(i, clean(ps[i]), boxes[inserted].1, rest, Spacing(|ps|, |boxes|));
  }

  /** `InlineRule` when paragraph `i` is not followed by a box. */
  lemma {:induction false} InlineRuleAlone(ps: seq<string>, i: nat, inserted: nat, boxes: seq<(string, string)>, clean: string -> string)
    requires i < |ps| && inserted <= |boxes| && clean(ps[i]) != [] && !PlacesBox(i, inserted, |ps|, |boxes|)
    ensures var r := InlineFrom(ps, i, inserted, boxes, clean);
      (r != [] ==> r[0].Para? && r[0].index >= i)
      && forall p :: 0 < p < |r| && r[p].Box? ==>
           r[p - 1].Para? && r[p - 1].index > 0 && (r[p - 1].index + 1) % Spacing(|ps|, |boxes|) == 0
    decreases |ps| - i, 0
  {
    InlineRule(ps, i + 1, inserted, boxes, clean);
    var rest := InlineFrom(ps, i + 1, inserted, boxes, clean);
    assert InlineFrom(ps, i, inserted, boxes, clean) == [Para(i, clean(ps[i]))] + rest;
    SpacedAfterPara(i, clean(ps[i]), rest, Spacing(|ps|, |boxes|));
  }

  /** Putting a spaced paragraph and its box in front of pieces that start with a paragraph keeps
      every box after a spaced paragraph. */
  lemma SpacedAfterBox(i: nat, t: string, c: string, rest: seq<Piece>, sp: nat)
    requires sp > 0 && i > 0 && (i + 1) % sp == 0
    requires rest != [] ==> rest[0].Para?
    requires forall p :: 0 < p < |rest| && rest[p].Box? ==>
      rest[p - 1].Para? && rest[p - 1].index > 0 && (rest[p - 1].index + 1) % sp == 0
    ensures var r := [Para(i, t), Box(c)] + rest;
      forall p :: 0 < p < |r| && r[p].Box? ==> r[p - 1].Para? && r[p - 1].index > 0 && (r[p - 1].index + 1) % sp == 0
  {
    var r := [Para(i, t), Box(c)] + rest;
    forall p | 0 < p < |r| && r[p].Box?
      ensures r[p - 1].Para? && r[p - 1].index > 0 && (r[p - 1].index + 1) % sp == 0
    {
      if p > 2 {
        assert r[p] == rest[p - 2] && r[p - 1] == rest[p - 3];
      }
    }
  }

  /** Putting a paragraph in front of pieces that start with a paragraph keeps every box after a
      spaced paragraph. */
  lemma SpacedAfterPara(i: nat, t: string, rest: seq<Piece>, sp: nat)
    requires sp > 0
    requires rest != [] ==> rest[0].Para?
    requires forall p :: 0 < p < |rest| && rest[p].Box? ==>
      rest[p - 1].Para? && rest[p - 1].index > 0 && (rest[p - 1].index + 1) % sp == 0
    ensures var r := [Para(i, t)] + rest;
      forall p :: 0 < p < |r| && r[p].Box? ==> r[p - 1].Para? && r[p - 1].index > 0 && (r[p - 1].index + 1) % sp == 0
  {
    var r := [Para(i, t)] + rest;
    forall p | 0 < p < |r| && r[p].Box?
      ensures r[p - 1].Para? && r[p - 1].index > 0 && (r[p - 1].index + 1) % sp == 0
    {
      assert r[p] == rest[p - 1];
      if p > 1 {
        assert r[p - 1] == rest[p - 2];
      }
    }
  }

  // ---------------------------------------------------------------------------
  // Rendering
  // ---------------------------------------------------------------------------

  function RenderPiece(x: Piece): string {
    match x
    case Para(_, t) => RenderParagraph(t)
    case Box(c) => BoxMarkup(c)
  }

  function RenderAll(pieces: seq<Piece>): string {
    if pieces == [] then [] else RenderAll(pieces[..|pieces| - 1]) + RenderPiece(pieces[|pieces| - 1])
  }

  /** The body `_format_script_simple` returns for an escaped script. */
  function ScriptMarkup(script: string): (r: string)
    ensures script == [] ==> r == "Contenu non disponible."
  {
    if script == [] then "Contenu non disponible."
    else
      var lines := Split(PreClean(script), "\n");
      var bs := ScanFrom(lines, 0, IsMarker, ScanRowOf);
      ScanBlocksPlaced(lines, 0, IsMarker, ScanRowOf);
      var ps := Paragraphs(Join(Gaps(lines, bs, 0), "\n"));
      Strip(RenderAll(Layout(ps, BoxesOf(bs), CleanParagraph)))
  }

  /** The five appends of one box. */
  method AppendBox(formatted: string, content: string) returns (r: string)
    ensures r == formatted + BoxMarkup(content)
  {
    r := formatted + VSpaceHalf;
    r := r + BeginBox;
    var q := FormatQcmSimple(Strip(content));
    r := r + q;
    r := r + EndBox;
    r := r + VSpaceHalfPara;
    Regroup5(formatted, VSpaceHalf, BeginBox, q, EndBox, VSpaceHalfPara);
  }

  lemma RenderAllSnoc(done: seq<Piece>, x: Piece)
    ensures RenderAll(done + [x]) == RenderAll(done) + RenderPiece(x)
  {
    assert (done + [x])[..|done|] == done;
  }

  /** The state of the paragraph loop before paragraph `i`, with `inserted` boxes placed: the
      pieces `done` so far followed by the pieces still to come make the whole inline layout. */
  ghost predicate Placing(ps: seq<string>, boxes: seq<(string, string)>, clean: string -> string,
                          i: nat, inserted: nat, done: seq<Piece>, formatted: string) {
    i <= |ps| && inserted <= |boxes|
    && done + InlineFrom(ps, i, inserted, boxes, clean) == InlineFrom(ps, 0, 0, boxes, clean)
    && formatted == RenderAll(done) && inserted == |BoxContents(done)|
  }

  /** A paragraph that cleans to nothing is skipped. */
  lemma PlaceSkip(ps: seq<string>, boxes: seq<(string, string)>, clean: string -> string,
                  i: nat, inserted: nat, done: seq<Piece>, formatted: string)
    requires Placing(ps, boxes, clean, i, inserted, done, formatted) && i < |ps| && clean(ps[i]) == []
    ensures Placing(ps, boxes, clean, i + 1, inserted, done, formatted)
  {
  }

  /** A paragraph not followed by a box. */
  lemma PlaceAlone(ps: seq<string>, boxes: seq<(string, string)>, clean: string -> string,
                   i: nat, inserted: nat, done: seq<Piece>, formatted: string)
    requires Placing(ps, boxes, clean, i, inserted, done, formatted) && i < |ps| && clean(ps[i]) != []
    requires !PlacesBox(i, inserted, |ps|, |boxes|)
    ensures Placing(ps, boxes, clean, i + 1, inserted, done + [Para(i, clean(ps[i]))],
                    formatted + RenderParagraph(clean(ps[i])))
  {
    var x := Para(i, clean(ps[i]));
    AppendAssoc(done, [x], InlineFrom(ps, i + 1, inserted, boxes, clean));
    PieceSnoc(done, x);
  }

  /** A paragraph followed by the next box. */
  lemma PlaceWithBox(ps: seq<string>, boxes: seq<(string, string)>, clean: string -> string,
                     i: nat, inserted: nat, done: seq<Piece>, formatted: string)
    requires Placing(ps, boxes, clean, i, inserted, done, formatted) && i < |ps| && clean(ps[i]) != []
    requires PlacesBox(i, inserted, |ps|, |boxes|)
    ensures inserted < |boxes|
    ensures Placing(ps, boxes, clean, i + 1, inserted + 1,
                    (done + [Para(i, clean(ps[i]))]) + [Box(boxes[inserted].1)],
                    formatted + RenderParagraph(clean(ps[i])) + BoxMarkup(boxes[inserted].1))
  {
    var x := Para(i, clean(ps[i]));
    var y := Box(boxes[inserted].1);
    var rest := InlineFrom(ps, i + 1, inserted + 1, boxes, clean);
    assert InlineFrom(ps, i, inserted, boxes, clean) == [x, y] + rest;
    PiecesTwo(done, x, y, rest);
    RenderTwo(done, x, y);
    assert RenderPiece(x) == RenderParagraph(clean(ps[i]));
    assert RenderPiece(y) == BoxMarkup(boxes[inserted].1);
  }

  lemma PiecesTwo(done: seq<Piece>, x: Piece, y: Piece, rest: seq<Piece>)
    ensures ((done + [x]) + [y]) + rest == done + ([x, y] + rest)
  {
    assert [x, y] + rest == [x] + ([y] + rest);
    AppendAssoc(done, [x], [y] + rest);
    AppendAssoc(done + [x], [y], rest);
  }

  /** Appending two pieces to the pieces done. */
  lemma RenderTwo(done: seq<Piece>, x: Piece, y: Piece)
    ensures RenderAll((done + [x]) + [y]) == RenderAll(done) + RenderPiece(x) + RenderPiece(y)
    ensures |BoxContents((done + [x]) + [y])|
            == |BoxContents(done)| + (if x.Box? then 1 else 0) + (if y.Box? then 1 else 0)
  {
    PieceSnoc(done, x);
    PieceSnoc(done + [x], y);
  }

  /** Appending one piece to the pieces done. */
  lemma PieceSnoc(done: seq<Piece>, x: Piece)
    ensures RenderAll(done + [x]) == RenderAll(done) + RenderPiece(x)
    ensures |BoxContents(done + [x])| == |BoxContents(done)| + (if x.Box? then 1 else 0)
  {
    RenderAllSnoc(done, x);
    BoxContentsAppend(done, [x]);
  }

  /** After the last paragraph the pieces done are the inline layout. */
  lemma PlaceDone(ps: seq<string>, boxes: seq<(string, string)>, clean: string -> string,
                  inserted: nat, done: seq<Piece>, formatted: string)
    requires Placing(ps, boxes, clean, |ps|, inserted, done, formatted)
    ensures formatted == RenderAll(InlineFrom(ps, 0, 0, boxes, clean))
    ensures inserted == |BoxContents(InlineFrom(ps, 0, 0, boxes, clean))| <= |boxes|
  {
    assert done + [] == done;
    InlineCount(ps, 0, 0, boxes, clean);
  }

  /** One turn of the loop over the paragraphs: paragraph `i` is cleaned and, unless it comes out
      empty, rendered, and followed by the next box when the spacing test passes. */
  method PlaceOne(ps: seq<string>, boxes: seq<(string, string)>, clean: string -> string,
                  i: nat, inserted: nat, formatted: string, ghost done: seq<Piece>)
    returns (formatted': string, inserted': nat, ghost done': seq<Piece>)
    requires Placing(ps, boxes, clean, i, inserted, done, formatted) && i < |ps|
    ensures Placing(ps, boxes, clean, i + 1, inserted', done', formatted')
  {
    var paragraph := clean(ps[i]);
    if paragraph == [] {
      PlaceSkip(ps, boxes, clean, i, inserted, done, formatted);
      return formatted, inserted, done;
    }
    formatted' := AppendParagraph(formatted, paragraph);
    if inserted < |boxes| && i > 0 && (i + 1) % Max(1, |ps| / (|boxes| + 1)) == 0 {
      PlaceWithBox(ps, boxes, clean, i, inserted, done, formatted);
      formatted' := AppendBox(formatted', boxes[inserted].1);
      done' := (done + [Para(i, paragraph)]) + [Box(boxes[inserted].1)];
      inserted' := inserted + 1;
    } else {
      PlaceAlone(ps, boxes, clean, i, inserted, done, formatted);
      done' := done + [Para(i, paragraph)];
      inserted' := inserted;
    }
  }

  /** The loop over the paragraphs. */
  method PlaceParagraphs(ps: seq<string>, boxes: seq<(string, string)>, clean: string -> string)
    returns (formatted: string, inserted: nat)
    ensures formatted == RenderAll(InlineFrom(ps, 0, 0, boxes, clean))
    ensures inserted == |BoxContents(InlineFrom(ps, 0, 0, boxes, clean))| <= |boxes|
  {
    formatted := "";
    inserted := 0;
    ghost var done: seq<Piece> := [];
    var i := 0;
    while i < |ps|
      invariant Placing(ps, boxes, clean, i, inserted, done, formatted)
    {
      formatted, inserted, done := PlaceOne(ps, boxes, clean, i, inserted, formatted, done);
      i := i + 1;
    }
    PlaceDone(ps, boxes, clean, inserted, done, formatted);
  }

  /** The bold-title test and the three ways a paragraph is appended. */
  method AppendParagraph(formatted: string, paragraph: string) returns (r: string)
    ensures r == formatted + RenderParagraph(paragraph)
  {
    if IsBoldTitle(paragraph) {
      var title := TitleOf(paragraph);
      if StartsWith(title, "Point ") || StartsWith(title, "Transition") {
        r := formatted + ("\\subsection*{" + title + "}\n\n");
      } else {
        r := formatted + ("\\textbf{" + title + "}\n\n");
      }
    } else {
      r := formatted + (paragraph + "\n\n");
    }
  }

  /** The loop that appends the boxes not placed. */
  method AppendRemaining(formatted: string, boxes: seq<(string, string)>, from: nat, ghost done: seq<Piece>)
    returns (r: string)
    requires from <= |boxes| && formatted == RenderAll(done)
    ensures r == RenderAll(done + BoxPieces(boxes, from))
  {
    r := formatted;
    var inserted := from;
    ghost var acc := done;
    while inserted < |boxes|
      invariant from <= inserted <= |boxes|
      invariant acc + BoxPieces(boxes, inserted) == done + BoxPieces(boxes, from)
      invariant r == RenderAll(acc)
    {
      var x := Box(boxes[inserted].1);
      assert BoxPieces(boxes, inserted) == [x] + BoxPieces(boxes, inserted + 1);
      AppendAssoc(acc, [x], BoxPieces(boxes, inserted + 1));
      RenderAllSnoc(acc, x);
      r := AppendBox(r, boxes[inserted].1);
      acc := acc + [x];
      inserted := inserted + 1;
    }
    assert acc + [] == acc;
  }

  method FormatScriptSimple(script: string) returns (r: string)
    ensures r == ScriptMarkup(script)
  {
    if |script| == 0 {
      return "Contenu non disponible.";
    }
    AllSound();
    var s := ReSub(script, BsTextbackslash, OneSpace);
    s := StripTextbf(s);
    var lines := Split(s, "\n");
    var blocks := ScanBlocks(lines);
    ScanBlocksPlaced(lines, 0, IsMarker, ScanRowOf);
    var remaining, boxes := CutBlocks(lines, blocks);
    var paragraphs := Paragraphs(Join(remaining, "\n"));
    var formatted, inserted := PlaceParagraphs(paragraphs, boxes, CleanParagraph);
    formatted := AppendRemaining(formatted, boxes, inserted, InlineFrom(paragraphs, 0, 0, boxes, CleanParagraph));
    r := Strip(formatted);
  }
}
