/** `CapsuleRegenerator` of regenerate_capsules.py: re-reading a saved script into its sections,
    deciding which parts of a capsule to rebuild, and counting the outcome of a batch. The audio
    and PDF generators, the file system and the clock are parameters: a capsule directory is an
    `Entry`, and whether loading it or rebuilding one of its parts succeeds is given. */
module Regenerate {
  import opened Outcomes
  import opened Strings

  // ---------------------------------------------------------------------------
  // parse_script_content
  // ---------------------------------------------------------------------------

  datatype Section = Introduction | Development | Conclusion | Quiz

  /** The value under 'quiz': the list it starts as, or the string a later `# ` heading
      stores there when the quiz section is closed like any other section. */
  datatype QuizValue = Entries(items: seq<string>) | Overwritten(text: string)

  datatype ScriptData = ScriptData(title: string, introduction: string, development: string,
                                   conclusion: string, quiz: QuizValue)

  const EmptyScript: ScriptData := ScriptData("", "", "", "", Entries([]))

  predicate IsHeading(line: string) { StartsWith(line, "# ") }
  predicate IsQuestion(line: string) { StartsWith(line, "## ") }

  /** The section a `# ` title opens, checked in this order; `None` for a plain title. */
  function ClassifyTitle(title: string): Option<Section> {
    var t := Lower(title);
    if Contains(t, "introduction") then Some(Introduction)
    else if Contains(t, "développement") || Contains(t, "developpement") then Some(Development)
    else if Contains(t, "conclusion") then Some(Conclusion)
    else if Contains(t, "quiz") || Contains(t, "qcm") then Some(Quiz)
    else None
  }

  /** `'\n'.join(lines).strip()` */
  function Gathered(lines: seq<string>): string { Strip(Join(lines, "\n")) }

  /** How a title is classified and how a section's lines become its text. The parser is
      stated for any such rules, so that the lemmas about its structure do not depend on them;
      `parse_script_content` uses `ScriptRules`. */
  datatype Rules = Rules(classify: string -> Option<Section>, gather: seq<string> -> string)

  const ScriptRules: Rules := Rules(ClassifyTitle, Gathered)

  /** `script_data[section] = text`; for the quiz this replaces the list by a string. */
  function Store(d: ScriptData, sec: Section, text: string): ScriptData {
    match sec
    case Introduction => d.(introduction := text)
    case Development => d.(development := text)
    case Conclusion => d.(conclusion := text)
    case Quiz => d.(quiz := Overwritten(text))
  }

  /** The parser's variables between two lines; `failed` once the `append` on a quiz that has
      become a string has raised. */
  datatype Parser = Parser(data: ScriptData, section: Option<Section>, content: seq<string>, failed: bool)

  const Start: Parser := Parser(EmptyScript, None, [], false)

  /** The data once the current section, if any, has been stored. */
  function Closed(p: Parser, r: Rules): ScriptData {
    if p.section.Some? then Store(p.data, p.section.value, r.gather(p.content)) else p.data
  }

  function TitleOf(line: string): string
    requires IsHeading(line)
  {
    Strip(line[2..])
  }

  /** A `# ` line: close the current section, then open the one the title names, or record
      the title. */
  function Heading(p: Parser, line: string, r: Rules): Parser
    requires IsHeading(line)
  {
    var title := TitleOf(line);
    match r.classify(title)
    case Some(sec) => Parser(Closed(p, r), Some(sec), [], false)
    case None => Parser(Closed(p, r).(title := title), None, [], false)
  }

  /** The accumulated lines appended to the quiz as one entry; raises if the quiz is a string. */
  function AppendEntry(p: Parser, r: Rules): Parser {
    if p.data.quiz.Entries? then p.(data := p.data.(quiz := Entries(p.data.quiz.items + [r.gather(p.content)])))
    else p.(failed := true)
  }

  /** A `## ` line in the quiz: flush the lines so far, start a new entry. */
  function Question(p: Parser, line: string, r: Rules): Parser {
    if p.content == [] then p.(content := [line])
    else
      var q := AppendEntry(p, r);
      if q.failed then q else q.(content := [line])
  }

  /** What one line of the script does to the parser. */
  function Step(p: Parser, raw: string, r: Rules): Parser {
    if p.failed then p
    else
      var line := Strip(raw);
      if IsHeading(line) then Heading(p, line, r)
      else if IsQuestion(line) && p.section == Some(Quiz) then Question(p, line, r)
      else if p.section.Some? then p.(content := p.content + [line])
      else p
  }

  function Run(p: Parser, lines: seq<string>, r: Rules): Parser
    decreases |lines|
  {
    if lines == [] then p else Run(Step(p, lines[0], r), lines[1..], r)
  }

  /** The flush after the last line. */
  function Finish(p: Parser, r: Rules): Parser {
    if p.failed || p.section.None? || p.content == [] then p
    else if p.section.value == Quiz then AppendEntry(p, r)
    else p.(data := Store(p.data, p.section.value, r.gather(p.content)))
  }

  function ParseLines(lines: seq<string>, r: Rules): Parser {
    Finish(Run(Start, lines, r), r)
  }

  /** The result of `parse_script_content`: after an exception the sections found so far stay,
      and the development is the whole script. */
  function ParseScript(script: string): ScriptData {
    var p := ParseLines(Split(script, "\n"), ScriptRules);
    if p.failed then p.data.(development := script) else p.data
  }

  /** `parse_script_content` */
  method ParseScriptContent(script: string) returns (data: ScriptData)
    ensures data == ParseScript(script)
  {
    data := EmptyScript;
    var lines := Split(script, "\n");
    var section: Option<Section> := None;
    var content: seq<string> := [];
    var failed := false;
    var i := 0;
    while i < |lines| && !failed
      invariant 0 <= i <= |lines|
      invariant Run(Parser(data, section, content, failed), lines[i..], ScriptRules) == Run(Start, lines, ScriptRules)
    {
      assert lines[i..][1..] == lines[i + 1..];
      var line := Strip(lines[i]);
      if StartsWith(line, "# ") {
        if section.Some? {
          data := Store(data, section.value, Gathered(content));
        }
        var title := Strip(line[2..]);
        var kind := ClassifyTitle(title);
        if kind.Some? {
          section := kind;
        } else {
          data := data.(title := title);
          section := None;
        }
        content := [];
      } else if StartsWith(line, "## ") && section == Some(Quiz) {
        if content != [] {
          if data.quiz.Entries? {
            data := data.(quiz := Entries(data.quiz.items + [Gathered(content)]));
          } else {
            failed := true;
          }
        }
        if !failed {
          content := [line];
        }
      } else if section.Some? {
        content := content + [line];
      }
      i := i + 1;
    }
    if failed {
      RunFailed(Parser(data, section, content, failed), lines[i..], ScriptRules);
    } else {
      assert lines[i..] == [];
      if section.Some? && content != [] {
        if section.value == Quiz {
          if data.quiz.Entries? {
            data := data.(quiz := Entries(data.quiz.items + [Gathered(content)]));
          } else {
            failed := true;
          }
        } else {
          data := Store(data, section.value, Gathered(content));
        }
      }
    }
    if failed {
      data := data.(development := script);
    }
  }

  // --- the parser over any rules

  /** Once the parser has raised, the remaining lines change nothing. */
  lemma {:induction false} RunFailed(p: Parser, lines: seq<string>, r: Rules)
    requires p.failed
    ensures Run(p, lines, r) == p
    decreases |lines|
  {
    if lines != [] {
      RunFailed(Step(p, lines[0], r), lines[1..], r);
    }
  }

  lemma {:induction false} RunConcat(p: Parser, a: seq<string>, b: seq<string>, r: Rules)
    ensures Run(p, a + b, r) == Run(Run(p, a, r), b, r)
    decreases |a|
  {
    if a != [] {
      assert (a + b)[1..] == a[1..] + b;
      RunConcat(Step(p, a[0], r), a[1..], b, r);
    } else {
      assert a + b == b;
    }
  }

  /** The lines as the parser sees them. */
  function StripAll(lines: seq<string>): (s: seq<string>)
    ensures |s| == |lines|
  {
    if lines == [] then [] else [Strip(lines[0])] + StripAll(lines[1..])
  }

  /** Outside a section, lines without headings are discarded. */
  lemma {:induction false} RunOutside(p: Parser, lines: seq<string>, r: Rules)
    requires !p.failed && p.section.None?
    requires forall k :: 0 <= k < |lines| ==> !IsHeading(Strip(lines[k]))
    ensures Run(p, lines, r) == p
    decreases |lines|
  {
    if lines != [] {
      assert !IsHeading(Strip(lines[0]));
      assert Step(p, lines[0], r) == p;
      RunOutside(p, lines[1..], r);
    }
  }

  /** Inside a section, a line that is neither a heading nor (in the quiz) a question is
      stripped and kept. */
  lemma StepContent(p: Parser, raw: string, r: Rules)
    requires !p.failed && p.section.Some? && !IsHeading(Strip(raw))
    requires p.section == Some(Quiz) ==> !IsQuestion(Strip(raw))
    ensures Step(p, raw, r) == p.(content := p.content + [Strip(raw)])
  {
  }

  lemma ContentCons(c: seq<string>, lines: seq<string>)
    requires lines != []
    ensures c + [Strip(lines[0])] + StripAll(lines[1..]) == c + StripAll(lines)
  {
    AppendAssoc(c, [Strip(lines[0])], StripAll(lines[1..]));
  }

  lemma {:induction false} RunContent(p: Parser, lines: seq<string>, r: Rules)
    requires !p.failed && p.section.Some?
    requires forall k :: 0 <= k < |lines| ==> !IsHeading(Strip(lines[k]))
    requires p.section == Some(Quiz) ==> forall k :: 0 <= k < |lines| ==> !IsQuestion(Strip(lines[k]))
    ensures Run(p, lines, r) == p.(content := p.content + StripAll(lines))
    decreases |lines|
  {
    if lines != [] {
      StepContent(p, lines[0], r);
      RunContent(p.(content := p.content + [Strip(lines[0])]), lines[1..], r);
      ContentCons(p.content, lines);
    } else {
      assert p.content + [] == p.content;
    }
  }

  /** The heading line `h` opens section `sec`. */
  predicate Opens(h: string, sec: Section, r: Rules) {
    IsHeading(Strip(h)) && r.classify(TitleOf(Strip(h))) == Some(sec)
  }

  lemma StepOpens(p: Parser, h: string, sec: Section, r: Rules)
    requires !p.failed && Opens(h, sec, r)
    ensures Step(p, h, r) == Parser(Closed(p, r), Some(sec), [], false)
  {
  }

  /** A question line is not a heading. */
  lemma QuestionIsNoHeading(line: string)
    requires IsQuestion(line)
    ensures !IsHeading(line)
  {
    assert line[1] == '#';
  }

  lemma RunCons(p: Parser, x: string, rest: seq<string>, r: Rules)
    ensures Run(p, [x] + rest, r) == Run(Step(p, x, r), rest, r)
  {
    assert ([x] + rest)[1..] == rest;
  }

  /** The flush at the end of a section other than the quiz. */
  lemma FinishSection(sec: Section, c: seq<string>, r: Rules)
    requires sec != Quiz
    ensures Finish(Parser(EmptyScript, Some(sec), c, false), r) ==
      Parser(if c == [] then EmptyScript else Store(EmptyScript, sec, r.gather(c)), Some(sec), c, false)
  {
  }

  lemma FinishQuiz(d: ScriptData, c: seq<string>, r: Rules)
    requires d.quiz.Entries? && c != []
    ensures Finish(Parser(d, Some(Quiz), c, false), r) ==
      Parser(d.(quiz := Entries(d.quiz.items + [r.gather(c)])), Some(Quiz), c, false)
  {
  }

  /** One section heading, other than the quiz, followed by lines without headings. */
  lemma SectionLines(h: string, body: seq<string>, sec: Section, r: Rules)
    requires Opens(h, sec, r) && sec != Quiz
    requires forall k :: 0 <= k < |body| ==> !IsHeading(Strip(body[k]))
    ensures ParseLines([h] + body, r) ==
      Parser(if body == [] then EmptyScript else Store(EmptyScript, sec, r.gather(StripAll(body))),
             Some(sec), StripAll(body), false)
  {
    RunCons(Start, h, body, r);
    StepOpens(Start, h, sec, r);
    var p := Parser(EmptyScript, Some(sec), [], false);
    RunContent(p, body, r);
    assert [] + StripAll(body) == StripAll(body);
    assert Run(Start, [h] + body, r) == Parser(EmptyScript, Some(sec), StripAll(body), false);
    FinishSection(sec, StripAll(body), r);
  }

  // --- quiz entries

  /** A question of the quiz: a `## ` line followed by lines that are neither headings nor
      questions. */
  predicate IsGroup(g: seq<string>) {
    |g| >= 1 && IsQuestion(Strip(g[0]))
    && forall k :: 1 <= k < |g| ==> !IsHeading(Strip(g[k])) && !IsQuestion(Strip(g[k]))
  }

  function Concat(groups: seq<seq<string>>): seq<string>
    decreases |groups|
  {
    if groups == [] then [] else Concat(groups[..|groups| - 1]) + groups[|groups| - 1]
  }

  /** The entry each question becomes. */
  function QuizEntries(groups: seq<seq<string>>, r: Rules): (s: seq<string>)
    ensures |s| == |groups|
    decreases |groups|
  {
    if groups == [] then [] else QuizEntries(groups[..|groups| - 1], r) + [r.gather(StripAll(groups[|groups| - 1]))]
  }

  /** The lines accumulated so far, as the entry a flush appends. */
  function Flushed(content: seq<string>, r: Rules): seq<string> {
    if content == [] then [] else [r.gather(content)]
  }

  /** In the quiz section, a question flushes what was accumulated and starts a new entry. */
  lemma GroupRun(p: Parser, g: seq<string>, r: Rules)
    requires !p.failed && p.section == Some(Quiz) && p.data.quiz.Entries?
    requires IsGroup(g)
    ensures Run(p, g, r) == Parser(p.data.(quiz := Entries(p.data.quiz.items + Flushed(p.content, r))),
                                   Some(Quiz), StripAll(g), false)
  {
    var line := Strip(g[0]);
    QuestionIsNoHeading(line);
    var d := p.data.(quiz := Entries(p.data.quiz.items + Flushed(p.content, r)));
    var q := Step(p, g[0], r);
    assert q == Parser(d, Some(Quiz), [line], false);
    assert Run(p, g, r) == Run(q, g[1..], r);
    RunContent(q, g[1..], r);
    assert [line] + StripAll(g[1..]) == StripAll(g);
  }

  /** One more question after questions whose entries, but the last, were appended. */
  lemma GroupsRunSnoc(p: Parser, init: seq<seq<string>>, last: seq<string>, r: Rules)
    requires !p.failed && p.section == Some(Quiz) && p.data.quiz.Entries?
    requires |init| >= 1 && IsGroup(init[|init| - 1]) && IsGroup(last)
    requires Run(p, Concat(init), r) ==
      Parser(p.data.(quiz := Entries(p.data.quiz.items + Flushed(p.content, r) + QuizEntries(init[..|init| - 1], r))),
             Some(Quiz), StripAll(init[|init| - 1]), false)
    ensures Run(p, Concat(init) + last, r) ==
      Parser(p.data.(quiz := Entries(p.data.quiz.items + Flushed(p.content, r) + QuizEntries(init, r))),
             Some(Quiz), StripAll(last), false)
  {
    RunConcat(p, Concat(init), last, r);
    var base := p.data.quiz.items + Flushed(p.content, r);
    var p1 := Run(p, Concat(init), r);
    GroupRun(p1, last, r);
    var e := r.gather(StripAll(init[|init| - 1]));
    assert |StripAll(init[|init| - 1])| >= 1;
    assert Flushed(StripAll(init[|init| - 1]), r) == [e];
    assert QuizEntries(init, r) == QuizEntries(init[..|init| - 1], r) + [e];
    AppendAssoc(base, QuizEntries(init[..|init| - 1], r), [e]);
  }

  /** Consecutive questions: all but the last have been appended, the last is accumulated. */
  lemma {:induction false} GroupsRun(p: Parser, groups: seq<seq<string>>, r: Rules)
    requires !p.failed && p.section == Some(Quiz) && p.data.quiz.Entries?
    requires |groups| >= 1 && forall k :: 0 <= k < |groups| ==> IsGroup(groups[k])
    ensures Run(p, Concat(groups), r) ==
      Parser(p.data.(quiz := Entries(p.data.quiz.items + Flushed(p.content, r) + QuizEntries(groups[..|groups| - 1], r))),
             Some(Quiz), StripAll(groups[|groups| - 1]), false)
    decreases |groups|
  {
    if |groups| == 1 {
      GroupsRunOne(p, groups, r);
    } else {
      var init := groups[..|groups| - 1];
      InitGroups(groups);
      GroupsRun(p, init, r);
      GroupsRunSnoc(p, init, groups[|groups| - 1], r);
    }
  }

  lemma GroupsRunOne(p: Parser, groups: seq<seq<string>>, r: Rules)
    requires !p.failed && p.section == Some(Quiz) && p.data.quiz.Entries?
    requires |groups| == 1 && IsGroup(groups[0])
    ensures Run(p, Concat(groups), r) ==
      Parser(p.data.(quiz := Entries(p.data.quiz.items + Flushed(p.content, r) + QuizEntries(groups[..0], r))),
             Some(Quiz), StripAll(groups[0]), false)
  {
    var init := groups[..0];
    assert |init| == 0;
    assert Concat(init) == [] && QuizEntries(init, r) == [];
    assert Concat(groups) == groups[0];
    GroupRun(p, groups[0], r);
    assert p.data.quiz.items + Flushed(p.content, r) + [] == p.data.quiz.items + Flushed(p.content, r);
  }

  /** The groups before the last one, and the last one, are groups. */
  lemma InitGroups(groups: seq<seq<string>>)
    requires |groups| >= 2 && forall k :: 0 <= k < |groups| ==> IsGroup(groups[k])
    ensures var init := groups[..|groups| - 1];
      IsGroup(groups[|groups| - 1]) && IsGroup(init[|init| - 1])
      && forall k :: 0 <= k < |init| ==> IsGroup(init[k])
  {
    var init := groups[..|groups| - 1];
    assert IsGroup(groups[|groups| - 1]);
    forall k | 0 <= k < |init| ensures IsGroup(init[k]) { assert init[k] == groups[k]; }
  }

  /** The parser after a quiz heading and its questions. */
  lemma QuizRun(h: string, groups: seq<seq<string>>, r: Rules)
    requires Opens(h, Quiz, r)
    requires |groups| >= 1 && forall k :: 0 <= k < |groups| ==> IsGroup(groups[k])
    ensures Run(Start, [h] + Concat(groups), r) ==
      Parser(EmptyScript.(quiz := Entries(QuizEntries(groups[..|groups| - 1], r))), Some(Quiz),
             StripAll(groups[|groups| - 1]), false)
  {
    StepOpens(Start, h, Quiz, r);
    var p := Parser(EmptyScript, Some(Quiz), [], false);
    RunCons(Start, h, Concat(groups), r);
    GroupsRun(p, groups, r);
    var x := QuizEntries(groups[..|groups| - 1], r);
    assert Flushed(p.content, r) == [];
    assert EmptyScript.quiz.items + [] + x == x;
  }

  /** A quiz heading followed by questions: one entry per question, in order. */
  lemma QuizLines(h: string, groups: seq<seq<string>>, r: Rules)
    requires Opens(h, Quiz, r)
    requires forall k :: 0 <= k < |groups| ==> IsGroup(groups[k])
    ensures ParseLines([h] + Concat(groups), r).data == EmptyScript.(quiz := Entries(QuizEntries(groups, r)))
    ensures !ParseLines([h] + Concat(groups), r).failed
  {
    if groups == [] {
      StepOpens(Start, h, Quiz, r);
      assert Concat(groups) == [];
      RunCons(Start, h, [], r);
      assert [h] + [] == [h];
    } else {
      QuizRun(h, groups, r);
      var n := |groups|;
      var x := QuizEntries(groups[..n - 1], r);
      FinishQuiz(EmptyScript.(quiz := Entries(x)), StripAll(groups[n - 1]), r);
      assert QuizEntries(groups, r) == x + [r.gather(StripAll(groups[n - 1]))];
    }
  }

  lemma RunOne(p: Parser, x: string, r: Rules)
    ensures Run(p, [x], r) == Step(p, x, r)
  {
    RunCons(p, x, [], r);
    assert [x] + [] == [x];
  }

  /** A heading closes the quiz: its last entry, not yet appended, replaces the list. */
  lemma StepClosesQuiz(q: Parser, h2: string, r: Rules)
    requires !q.failed && q.section == Some(Quiz) && IsHeading(Strip(h2))
    ensures var s := Step(q, h2, r);
      !s.failed && s.content == [] && s.data.quiz == Overwritten(r.gather(q.content))
      && s.section == r.classify(TitleOf(Strip(h2)))
  {
    var line := Strip(h2);
    assert Step(q, h2, r) == Heading(q, line, r);
    var d := q.data.(quiz := Overwritten(r.gather(q.content)));
    assert Closed(q, r) == d;
    match r.classify(TitleOf(line))
    case Some(sec) =>
      assert Heading(q, line, r) == Parser(d, Some(sec), [], false);
    case None =>
      assert Heading(q, line, r) == Parser(d.(title := TitleOf(line)), None, [], false);
  }

  /** After a quiz, a heading stores the text of the last question under 'quiz'. */
  lemma QuizClosedLines(h: string, groups: seq<seq<string>>, h2: string, r: Rules)
    requires Opens(h, Quiz, r) && IsHeading(Strip(h2))
    requires |groups| >= 1 && forall k :: 0 <= k < |groups| ==> IsGroup(groups[k])
    ensures var q := Run(Start, [h] + Concat(groups) + [h2], r);
      !q.failed && q.content == [] && q.data.quiz == Overwritten(r.gather(StripAll(groups[|groups| - 1])))
      && q.section == r.classify(TitleOf(Strip(h2)))
  {
    QuizRun(h, groups, r);
    var q := Run(Start, [h] + Concat(groups), r);
    RunConcat(Start, [h] + Concat(groups), [h2], r);
    RunOne(q, h2, r);
    StepClosesQuiz(q, h2, r);
  }

  /** Lines without headings leave the closed quiz as it is. */
  lemma RunKeepsQuiz(q: Parser, rest: seq<string>, r: Rules)
    requires !q.failed && q.section != Some(Quiz)
    requires forall k :: 0 <= k < |rest| ==> !IsHeading(Strip(rest[k]))
    ensures var p := Finish(Run(q, rest, r), r); !p.failed && p.data.quiz == q.data.quiz
  {
    if q.section.Some? {
      RunContent(q, rest, r);
    } else {
      RunOutside(q, rest, r);
    }
  }

  /** ... and the lines after a further heading other than the quiz leave it at that. */
  lemma QuizOverwrittenLines(h: string, groups: seq<seq<string>>, h2: string, rest: seq<string>, r: Rules)
    requires Opens(h, Quiz, r) && IsHeading(Strip(h2)) && !Opens(h2, Quiz, r)
    requires |groups| >= 1 && forall k :: 0 <= k < |groups| ==> IsGroup(groups[k])
    requires forall k :: 0 <= k < |rest| ==> !IsHeading(Strip(rest[k]))
    ensures var p := ParseLines([h] + Concat(groups) + [h2] + rest, r);
      !p.failed && p.data.quiz == Overwritten(r.gather(StripAll(groups[|groups| - 1])))
  {
    QuizClosedLines(h, groups, h2, r);
    var q := Run(Start, [h] + Concat(groups) + [h2], r);
    RunConcat(Start, [h] + Concat(groups) + [h2], rest, r);
    RunKeepsQuiz(q, rest, r);
  }

  /** Closing a section leaves a quiz that is a string as a string. */
  lemma ClosedKeepsOverwritten(q: Parser, r: Rules)
    requires q.data.quiz.Overwritten?
    ensures Closed(q, r).quiz.Overwritten?
  {
    if q.section.Some? {
      match q.section.value
      case Quiz =>
      case Introduction =>
      case Development =>
      case Conclusion =>
    }
  }

  /** The first question of a quiz section starts its lines. */
  lemma StepFirstQuestion(s: Parser, raw: string, r: Rules)
    requires !s.failed && s.section == Some(Quiz) && s.content == [] && IsQuestion(Strip(raw))
    ensures Step(s, raw, r) == s.(content := [Strip(raw)])
  {
    QuestionIsNoHeading(Strip(raw));
  }

  lemma FinishRaises(t: Parser, r: Rules)
    requires !t.failed && t.section == Some(Quiz) && t.content != [] && t.data.quiz.Overwritten?
    ensures Finish(t, r).failed
  {
  }

  lemma QuestionLinesRaise(t: Parser, rest: seq<string>, r: Rules)
    requires !t.failed && t.section == Some(Quiz) && t.content != [] && t.data.quiz.Overwritten?
    requires forall k :: 0 <= k < |rest| ==> !IsHeading(Strip(rest[k])) && !IsQuestion(Strip(rest[k]))
    ensures Finish(Run(t, rest, r), r).failed
  {
    RunContent(t, rest, r);
    FinishRaises(Run(t, rest, r), r);
  }

  /** Reopening the quiz once it is a string: the first question line is kept, and the flush
      of the lines raises. */
  lemma ReopenedQuizRaises(q: Parser, h3: string, g: seq<string>, r: Rules)
    requires !q.failed && q.data.quiz.Overwritten? && Opens(h3, Quiz, r)
    requires IsGroup(g)
    ensures Finish(Run(q, [h3] + g, r), r).failed
  {
    StepOpens(q, h3, Quiz, r);
    ClosedKeepsOverwritten(q, r);
    var s := Parser(Closed(q, r), Some(Quiz), [], false);
    RunCons(q, h3, g, r);
    StepFirstQuestion(s, g[0], r);
    var t := s.(content := [Strip(g[0])]);
    assert Run(s, g, r) == Run(t, g[1..], r);
    QuestionLinesRaise(t, g[1..], r);
  }

  /** ... while a second quiz section makes the next `append` raise. */
  lemma QuizAppendRaisesLines(h: string, groups: seq<seq<string>>, h2: string, h3: string, g: seq<string>, r: Rules)
    requires Opens(h, Quiz, r) && IsHeading(Strip(h2)) && Opens(h3, Quiz, r)
    requires |groups| >= 1 && forall k :: 0 <= k < |groups| ==> IsGroup(groups[k])
    requires IsGroup(g)
    ensures ParseLines([h] + Concat(groups) + [h2] + [h3] + g, r).failed
  {
    QuizClosedLines(h, groups, h2, r);
    var q := Run(Start, [h] + Concat(groups) + [h2], r);
    AppendAssoc([h] + Concat(groups) + [h2], [h3], g);
    RunConcat(Start, [h] + Concat(groups) + [h2], [h3] + g, r);
    ReopenedQuizRaises(q, h3, g, r);
  }

  // --- parse_script_content

  lemma GatheredNothing()
    ensures Gathered([]) == ""
  {
  }

  /** A script without any `# ` heading leaves every key at its default. */
  lemma NoHeadingsKeepDefaults(script: string)
    requires forall k :: 0 <= k < |Split(script, "\n")| ==> !IsHeading(Strip(Split(script, "\n")[k]))
    ensures ParseScript(script) == EmptyScript
  {
    RunOutside(Start, Split(script, "\n"), ScriptRules);
  }

  /** A script made of one section heading (other than the quiz) and lines without headings:
      that section holds the stripped lines joined by line breaks and stripped, every other
      key keeps its default. */
  lemma SectionBody(script: string, h: string, body: seq<string>, sec: Section)
    requires Split(script, "\n") == [h] + body
    requires Opens(h, sec, ScriptRules) && sec != Quiz
    requires forall k :: 0 <= k < |body| ==> !IsHeading(Strip(body[k]))
    ensures ParseScript(script) == Store(EmptyScript, sec, Gathered(StripAll(body)))
  {
    SectionLines(h, body, sec, ScriptRules);
    GatheredNothing();
  }

  /** A quiz heading followed by questions: the quiz is the list of the questions' texts, one
      entry per `## ` line, in order; every other key keeps its default. */
  lemma QuizSection(script: string, h: string, groups: seq<seq<string>>)
    requires Split(script, "\n") == [h] + Concat(groups)
    requires Opens(h, Quiz, ScriptRules)
    requires forall k :: 0 <= k < |groups| ==> IsGroup(groups[k])
    ensures ParseScript(script) == EmptyScript.(quiz := Entries(QuizEntries(groups, ScriptRules)))
  {
    QuizLines(h, groups, ScriptRules);
  }

  /** The caveat of the quiz: a later heading stores the last question's text under 'quiz',
      replacing the list of all questions by a single string. */
  lemma QuizOverwritten(script: string, h: string, groups: seq<seq<string>>, h2: string, rest: seq<string>)
    requires Split(script, "\n") == [h] + Concat(groups) + [h2] + rest
    requires Opens(h, Quiz, ScriptRules) && IsHeading(Strip(h2)) && !Opens(h2, Quiz, ScriptRules)
    requires |groups| >= 1 && forall k :: 0 <= k < |groups| ==> IsGroup(groups[k])
    requires forall k :: 0 <= k < |rest| ==> !IsHeading(Strip(rest[k]))
    ensures ParseScript(script).quiz == Overwritten(Gathered(StripAll(groups[|groups| - 1])))
  {
    QuizOverwrittenLines(h, groups, h2, rest, ScriptRules);
  }

  /** After that, a second quiz section makes the next `append` raise, and the whole script
      is returned as the development. */
  lemma QuizAppendRaises(script: string, h: string, groups: seq<seq<string>>, h2: string, h3: string, g: seq<string>)
    requires Split(script, "\n") == [h] + Concat(groups) + [h2] + [h3] + g
    requires Opens(h, Quiz, ScriptRules) && IsHeading(Strip(h2)) && Opens(h3, Quiz, ScriptRules)
    requires |groups| >= 1 && forall k :: 0 <= k < |groups| ==> IsGroup(groups[k])
    requires IsGroup(g)
    ensures ParseScript(script).development == script
  {
    QuizAppendRaisesLines(h, groups, h2, h3, g, ScriptRules);
  }

  // ---------------------------------------------------------------------------
  // regenerate_capsule
  // ---------------------------------------------------------------------------

  const LoadError: string := "Impossible de charger les données de la capsule"
  const AudioError: string := "Échec de la régénération audio"
  const PdfError: string := "Échec de la régénération PDF"

  datatype CapsuleReport = CapsuleReport(capsule: string, audioSuccess: bool, pdfSuccess: bool, errors: seq<string>)

  /** The audio is rebuilt unless only the PDF is asked for; the PDF unless only the audio is. */
  predicate RebuildsAudio(audioOnly: bool, pdfOnly: bool) { audioOnly || !pdfOnly }
  predicate RebuildsPdf(audioOnly: bool, pdfOnly: bool) { !audioOnly }

  /** A capsule ends up regenerated: it loaded, and each part asked for was rebuilt. */
  predicate Succeeds(audioOnly: bool, pdfOnly: bool, loaded: bool, audioOk: bool, pdfOk: bool) {
    loaded && (audioOk || !RebuildsAudio(audioOnly, pdfOnly)) && (pdfOk || !RebuildsPdf(audioOnly, pdfOnly))
  }

  /** `audio_only` rebuilds the audio alone, `pdf_only` the PDF alone, neither flag both. */
  lemma FlagsSelectParts(audioOnly: bool, pdfOnly: bool)
    ensures audioOnly ==> RebuildsAudio(audioOnly, pdfOnly) && !RebuildsPdf(audioOnly, pdfOnly)
    ensures !audioOnly && pdfOnly ==> !RebuildsAudio(audioOnly, pdfOnly) && RebuildsPdf(audioOnly, pdfOnly)
    ensures !audioOnly && !pdfOnly ==> RebuildsAudio(audioOnly, pdfOnly) && RebuildsPdf(audioOnly, pdfOnly)
    ensures RebuildsAudio(audioOnly, pdfOnly) || RebuildsPdf(audioOnly, pdfOnly)
  {
  }

  /** `regenerate_capsule`, given whether loading the capsule and rebuilding each part work. */
  method RegenerateCapsule(name: string, audioOnly: bool, pdfOnly: bool, loaded: bool, audioOk: bool, pdfOk: bool)
    returns (r: CapsuleReport)
    ensures r.capsule == name
    ensures !loaded ==> !r.audioSuccess && !r.pdfSuccess && r.errors == [LoadError]
    ensures loaded ==> r.audioSuccess == (audioOk || !RebuildsAudio(audioOnly, pdfOnly))
    ensures loaded ==> r.pdfSuccess == (pdfOk || !RebuildsPdf(audioOnly, pdfOnly))
    ensures loaded ==> r.errors == (if r.audioSuccess then [] else [AudioError]) + (if r.pdfSuccess then [] else [PdfError])
    ensures r.audioSuccess && r.pdfSuccess <==> Succeeds(audioOnly, pdfOnly, loaded, audioOk, pdfOk)
    ensures r.audioSuccess && r.pdfSuccess <==> r.errors == []
  {
    r := CapsuleReport(name, false, false, []);
    if !loaded {
      r := r.(errors := r.errors + [LoadError]);
      return;
    }
    var regenerateAudio := !audioOnly && !pdfOnly;
    var regeneratePdf := !audioOnly && !pdfOnly;
    if audioOnly {
      regenerateAudio := true;
      regeneratePdf := false;
    } else if pdfOnly {
      regenerateAudio := false;
      regeneratePdf := true;
    }
    if regenerateAudio {
      r := r.(audioSuccess := audioOk);
      if !r.audioSuccess {
        r := r.(errors := r.errors + [AudioError]);
      }
    } else {
      r := r.(audioSuccess := true);
    }
    if regeneratePdf {
      r := r.(pdfSuccess := pdfOk);
      if !r.pdfSuccess {
        r := r.(errors := r.errors + [PdfError]);
      }
    } else {
      r := r.(pdfSuccess := true);
    }
  }

  // ---------------------------------------------------------------------------
  // Capsule directories
  // ---------------------------------------------------------------------------

  /** An item of the output directory: its name, whether it is a directory, and whether it
      holds both script.txt and metadata.json. */
  datatype Entry = Entry(name: string, isDir: bool, complete: bool)

  predicate IsCapsule(e: Entry) { e.isDir && StartsWith(e.name, "capsule_") && e.complete }

  /** `find_capsule_directories`, before sorting. */
  method FindCapsuleDirectories(listing: seq<Entry>) returns (dirs: seq<string>)
    ensures forall d :: d in dirs <==> exists k :: 0 <= k < |listing| && IsCapsule(listing[k]) && listing[k].name == d
    ensures |dirs| <= |listing|
  {
    dirs := [];
    var i := 0;
    while i < |listing|
      invariant 0 <= i <= |listing| && |dirs| <= i
      invariant forall d :: d in dirs <==> exists k :: 0 <= k < i && IsCapsule(listing[k]) && listing[k].name == d
    {
      if listing[i].isDir && StartsWith(listing[i].name, "capsule_") {
        if listing[i].complete {
          dirs := dirs + [listing[i].name];
        }
      }
      i := i + 1;
    }
  }

  /** The name prefix `--capsule n` looks for. */
  function CapsulePrefix(number: string): string { "capsule_" + ZFill(number, 3) }

  predicate Selects(e: Entry, prefix: string) { e.isDir && StartsWith(e.name, prefix) && e.complete }

  /** Item `k` is the first complete directory whose name starts with `prefix`. */
  predicate FirstSelected(listing: seq<Entry>, prefix: string, k: int) {
    0 <= k < |listing| && Selects(listing[k], prefix) && forall j :: 0 <= j < k ==> !Selects(listing[j], prefix)
  }

  /** `get_capsule_by_number` */
  method GetCapsuleByNumber(listing: seq<Entry>, number: string) returns (found: Option<string>)
    ensures found.None? <==> forall k :: 0 <= k < |listing| ==> !Selects(listing[k], CapsulePrefix(number))
    ensures found.Some? ==> exists k :: FirstSelected(listing, CapsulePrefix(number), k) && listing[k].name == found.value
  {
    var capsuleNum := ZFill(number, 3);
    var prefix := "capsule_" + capsuleNum;
    var i := 0;
    while i < |listing|
      invariant 0 <= i <= |listing|
      invariant forall j :: 0 <= j < i ==> !Selects(listing[j], prefix)
    {
      if listing[i].isDir && StartsWith(listing[i].name, prefix) {
        if listing[i].complete {
          assert FirstSelected(listing, prefix, i);
          return Some(listing[i].name);
        }
      }
      i := i + 1;
    }
    return None;
  }

  /** The number given is padded with zeros to three digits and denotes the same number; a
      number of three digits or more is used as it is. */
  lemma CapsuleNumberPadded(number: string)
    requires forall i :: 0 <= i < |number| ==> IsDigit(number[i])
    ensures var z := ZFill(number, 3);
      |z| == (if |number| >= 3 then |number| else 3)
      && (forall i :: 0 <= i < |z| ==> IsDigit(z[i]))
      && DecimalValue(z) == DecimalValue(number)
      && (|number| >= 3 ==> z == number)
  {
    ZFillDigits(number, 3);
  }

  // ---------------------------------------------------------------------------
  // regenerate_all and main
  // ---------------------------------------------------------------------------

  datatype Summary = Summary(total: nat, success: nat, failed: nat, results: seq<CapsuleReport>)

  predicate Regenerated(r: CapsuleReport) { r.audioSuccess && r.pdfSuccess }

  function CountRegenerated(rs: seq<CapsuleReport>): (n: nat)
    ensures n <= |rs|
    decreases |rs|
  {
    if rs == [] then 0 else CountRegenerated(rs[..|rs| - 1]) + (if Regenerated(rs[|rs| - 1]) then 1 else 0)
  }

  /** Every report is a success exactly when the count of successes is the number of reports. */
  lemma {:induction false} AllRegenerated(rs: seq<CapsuleReport>)
    ensures CountRegenerated(rs) == |rs| <==> forall i :: 0 <= i < |rs| ==> Regenerated(rs[i])
    decreases |rs|
  {
    if rs != [] {
      var init := rs[..|rs| - 1];
      AllRegenerated(init);
      assert forall i :: 0 <= i < |init| ==> init[i] == rs[i];
    }
  }

  lemma CountSnoc(rs: seq<CapsuleReport>, x: CapsuleReport)
    ensures CountRegenerated(rs + [x]) == CountRegenerated(rs) + (if Regenerated(x) then 1 else 0)
    ensures forall j :: 0 <= j < |rs| ==> (rs + [x])[j] == rs[j]
  {
    assert (rs + [x])[..|rs|] == rs;
  }

  /** `regenerate_all` over the capsule directories found. */
  method RegenerateAll(dirs: seq<string>, audioOnly: bool, pdfOnly: bool,
                       loaded: string -> bool, audioOk: string -> bool, pdfOk: string -> bool)
    returns (s: Summary)
    ensures s.total == |dirs| && |s.results| == |dirs|
    ensures s.success + s.failed == s.total
    ensures s.success == CountRegenerated(s.results)
    ensures forall i :: 0 <= i < |dirs| ==>
        s.results[i].capsule == dirs[i]
        && (Regenerated(s.results[i]) <==> Succeeds(audioOnly, pdfOnly, loaded(dirs[i]), audioOk(dirs[i]), pdfOk(dirs[i])))
    ensures s.failed == 0 <==> forall d :: d in dirs ==> Succeeds(audioOnly, pdfOnly, loaded(d), audioOk(d), pdfOk(d))
  {
    if dirs == [] {
      return Summary(0, 0, 0, []);
    }
    s := Summary(|dirs|, 0, 0, []);
    var i := 0;
    while i < |dirs|
      invariant 0 <= i <= |dirs| && |s.results| == i && s.total == |dirs|
      invariant s.success == CountRegenerated(s.results) && s.success + s.failed == i
      invariant forall j :: 0 <= j < i ==>
          s.results[j].capsule == dirs[j]
          && (Regenerated(s.results[j]) <==> Succeeds(audioOnly, pdfOnly, loaded(dirs[j]), audioOk(dirs[j]), pdfOk(dirs[j])))
    {
      var d := dirs[i];
      var result := RegenerateCapsule(d, audioOnly, pdfOnly, loaded(d), audioOk(d), pdfOk(d));
      CountSnoc(s.results, result);
      s := s.(results := s.results + [result]);
      if result.audioSuccess && result.pdfSuccess {
        s := s.(success := s.success + 1);
      } else {
        s := s.(failed := s.failed + 1);
      }
      i := i + 1;
    }
    AllRegenerated(s.results);
  }

  /** The exit status of the command: 1 for `--audio-only --pdf-only` together or a missing
      output directory; for one capsule, 0 iff it is found and regenerated; for the batch, 0 iff
      no capsule failed. */
  method ExitStatus(audioOnly: bool, pdfOnly: bool, capsule: Option<string>, outputExists: bool,
                    listing: seq<Entry>, loaded: string -> bool, audioOk: string -> bool, pdfOk: string -> bool)
    returns (code: int)
    ensures code == 0 || code == 1
    ensures audioOnly && pdfOnly ==> code == 1
    ensures !outputExists ==> code == 1
    ensures !(audioOnly && pdfOnly) && outputExists && capsule.Some? && capsule.value != [] ==>
      (code == 0 <==> exists k :: FirstSelected(listing, CapsulePrefix(capsule.value), k)
                        && Succeeds(audioOnly, pdfOnly, loaded(listing[k].name), audioOk(listing[k].name), pdfOk(listing[k].name)))
    ensures !(audioOnly && pdfOnly) && outputExists && (capsule.None? || capsule.value == []) ==>
      (code == 0 <==> forall k :: 0 <= k < |listing| && IsCapsule(listing[k]) ==>
                        Succeeds(audioOnly, pdfOnly, loaded(listing[k].name), audioOk(listing[k].name), pdfOk(listing[k].name)))
  {
    if audioOnly && pdfOnly {
      return 1;
    }
    if !outputExists {
      return 1;
    }
    if capsule.Some? && capsule.value != [] {
      var found := GetCapsuleByNumber(listing, capsule.value);
      if found.None? {
        return 1;
      }
      var d := found.value;
      var result := RegenerateCapsule(d, audioOnly, pdfOnly, loaded(d), audioOk(d), pdfOk(d));
      code := if result.audioSuccess && result.pdfSuccess then 0 else 1;
      ghost var k :| FirstSelected(listing, CapsulePrefix(capsule.value), k) && listing[k].name == d;
      assert forall k' :: FirstSelected(listing, CapsulePrefix(capsule.value), k') ==> k' == k;
    } else {
      var dirs := FindCapsuleDirectories(listing);
      var results := RegenerateAll(dirs, audioOnly, pdfOnly, loaded, audioOk, pdfOk);
      code := if results.failed == 0 then 0 else 1;
      forall k | 0 <= k < |listing| && IsCapsule(listing[k]) ensures listing[k].name in dirs { }
    }
  }
}
