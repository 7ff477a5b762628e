# MedCast-Studio capsule pipeline, modelled in Dafny

MedCast-Studio turns the rows of an Excel sheet into "capsules". Each capsule is a short
teaching script about one subject, with multiple-choice questions (QCMs) inside it, built from
the web pages the row links to. The script is then rendered as a LaTeX/PDF document and as an
MP3 narration. A second tool re-parses saved scripts and regenerates their audio and PDF.

This project models the deterministic string and list logic between the external services:

- **Spreadsheet rows.** It models how a row dictionary is built from abstract cells. It also
  models how rows are kept or dropped, link extraction, row validation and summary statistics
  (`Excel`).
- **URLs and text cleaning.** It models link-text cleaning and URL guessing for CNIL,
  Légifrance, service-public and DuckDuckGo (`UrlExtractor`).
- **Batch orchestration.** It models filename sanitizing, selection of the valid links, the
  naming of the capsule directory, and the success and error counters of the batch
  (`Pipeline`).
- **Script assembly.** It models the sources context given to the language model, the
  serializer of one QCM, the insertion of QCMs between paragraphs, and the search for QCM
  markers (`ScriptAssembly`).
- **The document body.** It models the LaTeX escaping chain and the markdown bold rule
  (`Latex`). It models the scanner that finds, cuts out and re-inserts the `=== QCM n ===`
  blocks (`ScriptLayout`), and the QCM trimmer, parser and renderer (`QcmRender`).
- **Audio.** It models the speech preprocessing pipeline (`Speech`) and the greedy splitter
  into text-to-speech requests (`Chunking`). It also models how the synthesised parts are put
  in order into one track (`Audio`).
- **Regeneration.** It models the section parser of a saved script, the audio/PDF flag logic,
  capsule lookup by number, batch counting and the exit status (`Regenerate`).
- **The serialize-then-parse round trip** between the QCM serializer and the QCM parser
  (`QcmRoundTrip`).

Modelling conventions:

- **Regular expressions.** Each `re.sub` pattern is a matcher function (`Rewrite`, `Patterns`).
  The function gives the length of the match at the start of a suffix, given the character
  before it. One generic left-to-right substitution engine, `Rewrite.Sub`, applies it with
  Python's semantics for non-empty matches.
- **Python dictionaries whose order matters.** The QCM options, the count dictionaries and the
  pronunciation table are association lists in insertion order.
- **External I/O.** I/O and services are function parameters:
  - `isValid` stands for `_is_valid_url`;
  - `fetch` stands for `extract_content`;
  - `synth` stands for `_synthesize_speech`;
  - `build` stands for script generation plus all writing;
  - `loaded`, `audioOk` and `pdfOk` stand for the regeneration steps that touch files.

  A directory listing is a sequence of entries.
- **Imperative code becomes methods.** Each loop is a `method` whose `ensures` ties its result
  to a specification function. The lemmas then state what the source promises about that
  function.
- **As-written behaviour.** Five behaviours are modelled as written and proved as consequences:
  - the bold-text template that loses the captured text, which reaches the scanner as one space;
  - a QCM block without an explanation line swallowing the `=== QCM n ===` markers after it;
  - QCM lines being ignored after the explanation;
  - the chunk-ordering quirk of the splitter;
  - the empty chunk the splitter returns for a text that ends with whitespace.

## Model

| member | source | states |
|---|---|---|
| Latex.LatexEscape | pdf_generator.py:117-152 | an empty input gives ""; otherwise the result is the input with the `textbf` artefacts removed, escaped character by character, then cleaned |
| Latex.ReplaceChainIsEscapeAll | pdf_generator.py:132-141 | the ten ordered `str.replace` calls, backslash first, equal replacing every character by its own escape: no escape is escaped again by a later call |
| Latex.ReplaceChainConcat | pdf_generator.py:132-141 | the replacement chain acts on each part of a concatenation separately |
| Latex.EscapeCharFacts | pdf_generator.py:132-141 | each character's escape holds no `^` or `~`, does not start with a special character, and every special character inside it is preceded by a backslash |
| Latex.EscapeAllEscaped | pdf_generator.py:132-141 | after escaping, every `{ } $ & % # _` is immediately preceded by a backslash |
| Latex.EscapeAllNoCaret | pdf_generator.py:139-141 | no `^` and no `~` survives escaping: they have become `\textasciicircum ` and `\textasciitilde ` |
| Latex.CleanNoDoubleSpace | pdf_generator.py:143-150 | the cleaned text never holds two consecutive spaces |
| Latex.CleanNoControl | pdf_generator.py:143-150 | the cleaned text holds no character of \x00-\x08, \x0B, \x0C, \x0E-\x1F or \x7F |
| Latex.CleanKeepsEscapes | pdf_generator.py:143-150 | the three cleaning rules keep every special character preceded by a backslash |
| Latex.CleanKeepsNoCaret | pdf_generator.py:143-150 | the three cleaning rules bring back no `^` or `~` |
| Latex.LatexEscapeClean | pdf_generator.py:117-152 | the result of `latex_escape` has no double space and no control character, every special character in it is escaped, and it has no `^` or `~` |
| Latex.CleanEscapedFixed | pdf_generator.py:143-150 | cleaning leaves unchanged a one-line text with no control character and no double space |
| Latex.BoldTextIsReplacedByTemplate | pdf_generator.py:154-157 | `process_markdown` turns `**x**` (x on one line, no `*`) into the literal text `\textbf{\1}`, so the bold text is lost |
| Latex.StripTextbfOfTemplate | pdf_generator.py:126-129 | the four `textbf` removal rules reduce that template to a lone backslash |
| Latex.TemplateEscapesToBackslash | pdf_generator.py:117-152 | `latex_escape` turns the template into `\textbackslash ` |
| Latex.BoldTextIsLost | pdf_generator.py:117-157 | `latex_escape` of `process_markdown` turns a one-line `**x**` into exactly `\textbackslash `, whatever x is |
| QcmRender.ScanBlock | pdf_generator.py:430-453 | the loop with its `explanation_found` flag keeps exactly the lines chosen by the specification `PureScan` |
| QcmRender.ExtractPureQcm | pdf_generator.py:423-455 | the result is the specification `PureQcm`: the kept lines joined with '\n' and stripped |
| QcmRender.PureKeepsUpToExplanation | pdf_generator.py:433-453 | every line up to and including the first `EXPLICATION:` line is kept, in order |
| QcmRender.PureAfterExplanation | pdf_generator.py:441-450 | after the explanation, only input lines that are explanations or plain lines (non-blank, no label) are kept |
| QcmRender.KeptRowIsPlain | pdf_generator.py:443-450 | such a plain line is non-blank, has no SITUATION/QUESTION/RÉPONSE label and is not a course start |
| QcmRender.PureStopsAtCourse | pdf_generator.py:443-447 | after the explanation, nothing from the first course-start or marker line on is kept |
| QcmRender.NonBlankLines | pdf_generator.py:517 | each line kept for parsing is non-empty and stripped, and none is added |
| QcmRender.ParseLoop | pdf_generator.py:527-562 | the section loop computes `ParseWith`, the fold of one labelled step per cleaned, non-empty line |
| QcmRender.ClassifyIgnoresCase | pdf_generator.py:537-552 | a line's classification depends only on its `upper()` |
| QcmRender.AnswerLineHasColon | pdf_generator.py:548-549 | both answer labels put the first ':' at index 16 |
| QcmRender.AnswerIsAfterLabel | pdf_generator.py:548-550 | the answer is the stripped text after that first ':' |
| QcmRender.StepAddsOption | pdf_generator.py:544-547 | an option line's stripped text from index 2 is appended to the options |
| QcmRender.StepKeepsOptions | pdf_generator.py:537-560 | any other line leaves the options unchanged |
| QcmRender.ParsedOptions | pdf_generator.py:544-547 | the parsed options are exactly the texts of the option lines, in input order |
| QcmRender.ContinuationLine | pdf_generator.py:553-560 | an unlabelled line can only extend a non-empty situation or question whose section is open, by " " + line, and changes nothing else |
| QcmRender.LinesAfterExplanationIgnored | pdf_generator.py:553-562 | once the explanation section is open, further unlabelled lines do not change the parse |
| QcmRender.AppendItems | pdf_generator.py:574-576 | one `\item` line is appended per option, in order |
| QcmRender.RenderFields | pdf_generator.py:564-581 | exactly the blocks of the non-empty fields are appended, in the order situation, question, options, answer, explanation |
| QcmRender.FormatQcmSimple | pdf_generator.py:500-581 | the result is the parse of the cleaned text rendered by those blocks (`QcmMarkup`) |
| ScriptLayout.ScriptMarkup | pdf_generator.py:277-278 | an empty script gives exactly "Contenu non disponible." |
| ScriptLayout.CollectBlock | pdf_generator.py:309-330 | the inner loop stops at the index computed by `Collect` and gathers its lines after the marker line |
| ScriptLayout.BlockAt | pdf_generator.py:302-341 | a scan step from a marker line moves strictly forward and records at most one block, from that line to where the inner loop stopped |
| ScriptLayout.TakeBlock | pdf_generator.py:302-341 | one step of the outer loop computes `BlockAt` |
| ScriptLayout.ScanLines | pdf_generator.py:298-345 | the outer loop computes the block list `ScanFrom` |
| ScriptLayout.ScanBlocks | pdf_generator.py:295-345 | the scanner as used, with the marker pattern and the row classification, computes `ScanFrom` |
| ScriptLayout.CollectStops | pdf_generator.py:309-330 | after an explanation, a block ends at the first `**…**` title, `===` line or last line. A title or marker is dropped and end_line points at it. A last line is kept in the block text while end_line = len-1 |
| ScriptLayout.CollectFirstStop | pdf_generator.py:320-329 | no line before the stop that follows the explanation is a title, a marker or the last line |
| ScriptLayout.ScanBlocksPlaced | pdf_generator.py:298-345 | every block starts at a marker line, and the ranges [start_line, end_line) are increasing, disjoint and inside the script |
| ScriptLayout.MarkerBlockPlaced | pdf_generator.py:302-341 | the same holds for a scan that starts at a marker line |
| ScriptLayout.PureQcmOfMarker | pdf_generator.py:332-336 | a block text whose first line is a marker always gives a non-empty pure QCM, so the block is recorded |
| ScriptLayout.MarkerYieldsBlock | pdf_generator.py:302-341 | a scan step at a marker line records exactly one block |
| ScriptLayout.CollectPassesUnexplained | pdf_generator.py:309-330 | until an explanation line is seen the inner loop does not stop, even at a `===` line |
| ScriptLayout.MarkerSwallowed | pdf_generator.py:302-341 | with no explanation line after marker line i up to and including line j, the scan resumes after j, so a marker at j starts no block |
| ScriptLayout.PreCleanOfTextbackslash | pdf_generator.py:281-285 | the cleanup before the scan turns `\textbackslash ` into one space |
| ScriptLayout.BoldTextBecomesSpace | pdf_generator.py:281-285 | on the PDF path a one-line `**x**` is reduced to " " before the scan: its words are lost |
| ScriptLayout.GapsJoin | pdf_generator.py:352-358 | the lines outside the blocks from one index on are the lines before the next block followed by the gaps after it |
| ScriptLayout.CutBlocks | pdf_generator.py:348-358 | deleting the ranges from last to first leaves exactly the lines between blocks, in order, and gives the boxes in block order |
| ScriptLayout.InlineCount | pdf_generator.py:393-408 | the boxes placed between paragraphs are the first ones of the list, in order, and no more than there are |
| ScriptLayout.InlineRule | pdf_generator.py:393-396 | the output starts with a paragraph, and a box follows paragraph i only when i > 0 and (i+1) % max(1, n // (k+1)) == 0, with at most one box per paragraph |
| ScriptLayout.LayoutBoxes | pdf_generator.py:393-419 | every extracted block gives exactly one box, in original order, whether placed inline or appended at the end |
| ScriptLayout.LayoutParagraphs | pdf_generator.py:366-391 | every paragraph that is non-empty after cleaning appears once, in order |
| ScriptLayout.AppendParagraph | pdf_generator.py:377-391 | a `**…**` paragraph becomes a subsection or a bold title by its prefix; any other paragraph is kept, followed by a blank line |
| ScriptLayout.AppendBox | pdf_generator.py:399-405 | a box is the `qcmbox` environment around the formatted QCM, between two vertical spaces |
| ScriptLayout.PlaceOne | pdf_generator.py:369-408 | one iteration of the paragraph loop keeps the text and the count equal to the rendering of what the layout has produced so far |
| ScriptLayout.PlaceParagraphs | pdf_generator.py:368-408 | the paragraph loop's text is the rendering of the inline layout, and its counter is the number of boxes it placed |
| ScriptLayout.AppendRemaining | pdf_generator.py:410-419 | the closing loop appends the boxes not yet placed, in order |
| ScriptLayout.FormatScriptSimple | pdf_generator.py:274-421 | the method computes `ScriptMarkup`: clean, scan, cut, split into paragraphs, lay out, render and strip |
| ScriptAssembly.PrepareSourcesContext | content_generator.py:87-96 | the context is the fixed header followed by one block per source, numbered from 1 |
| ScriptAssembly.SourceInContext | content_generator.py:89-94 | source k's block, holding its title, URL and the first 2000 characters of its content followed by "...", is found at its offset; the excerpt is a prefix of the content |
| ScriptAssembly.FormatQcmForScript | content_generator.py:261-273 | the serializer's appends give `QcmScript` |
| ScriptAssembly.QcmScriptGrouped | content_generator.py:263-271 | the text is the marker, then the SITUATION and QUESTION lines each followed by a blank line, then the options, then a blank line, the RÉPONSE CORRECTE line and the EXPLICATION line |
| ScriptAssembly.OptionsTextLines | content_generator.py:267-268 | the options are one `X) option` line each, in dict order |
| ScriptAssembly.QcmScriptLines | content_generator.py:263-273 | the serialized QCM is the marker followed by its body lines joined with '\n' |
| ScriptAssembly.PositionsFit | content_generator.py:235-240 | for n ≥ 3 the positions are strictly increasing (so distinct) and < n, and there are k of them for 1 ≤ k ≤ 3 |
| ScriptAssembly.PlaceQuizzes | content_generator.py:242-250 | the paragraph loop's text, completed by the QCMs it has not placed, is the specification `Placed` |
| ScriptAssembly.AppendRemaining | content_generator.py:252-257 | the closing loop appends every remaining QCM followed by a blank line, in order |
| ScriptAssembly.RestRendered | content_generator.py:252-257 | what the closing loop renders is exactly the remaining QCMs |
| ScriptAssembly.PlacedRendered | content_generator.py:242-257 | the loops' text is the rendering of the interleaved items |
| ScriptAssembly.AssembleFinalScript | content_generator.py:216-259 | the method computes `AssembledScript` |
| ScriptAssembly.FewParagraphs | content_generator.py:222-227 | with fewer than 3 paragraphs, the result is main_script + "\n\n" followed by each serialized QCM + "\n\n", in order |
| ScriptAssembly.InterleaveKeepsParagraphs | content_generator.py:242-250 | the interleaving visits every paragraph once, in order |
| ScriptAssembly.InterleaveKeepsQuizzes | content_generator.py:242-257 | every QCM appears exactly once, in list order |
| ScriptAssembly.LayoutKeepsAll | content_generator.py:221-257 | for ≥ 3 paragraphs every paragraph appears once in order; in all cases every QCM appears once in list order |
| ScriptAssembly.QuizzesAtPositions | content_generator.py:242-250 | every QCM placed inline directly follows the paragraph at its position, and at most one follows a paragraph |
| ScriptAssembly.QuizzesInline | content_generator.py:235-257 | for n ≥ 3 and 1 ≤ k ≤ 3, every QCM is placed right after its paragraph, so the closing loop adds nothing |
| ScriptAssembly.FindQcmPositions | content_generator.py:275-284 | the line indices are strictly increasing and are exactly the lines starting with `=== QCM` |
| QcmRoundTrip.MarkerRemoved | pdf_generator.py:507 | the marker rule removes the `=== QCM n ===` line and the blank line after it |
| QcmRoundTrip.CleanedToBody | pdf_generator.py:507-515 | for a body without `=`, `\` or `}`, cleaning the serialized text leaves exactly the body |
| QcmRoundTrip.BodyText | content_generator.py:263-273 | for a plain QCM, cleaning gives the body lines joined with '\n', whose split gives those lines back |
| QcmRoundTrip.ParsedLines | pdf_generator.py:517 | the non-blank lines seen by the parser are exactly the six or more labelled lines of the serializer |
| QcmRoundTrip.OptionsParsed | pdf_generator.py:544-547 | the serialized option lines add exactly their texts to the options, in order |
| QcmRoundTrip.FormatThenParse | content_generator.py:261-273 | for single-line, non-empty, stripped fields without `=`, `\` or `}`, and options keyed A-D in either case, parsing the serialized QCM recovers situation, question, the options in order, answer and explanation |
| Speech.CollapsedSpaces | audio_generator.py:158 | after `\s+` → ' ', the only whitespace is ' ' and no two whitespace characters are adjacent |
| Speech.CollapseSpaceClean | audio_generator.py:158 | after the collapse and strip, the text also has no leading or trailing whitespace and no newline |
| Speech.LastRuleNeverMatches | audio_generator.py:157-161 | the blank-line rule never changes the text, so the output is the result of the collapse |
| Speech.SpeechWhitespace | audio_generator.py:103-163 | `_preprocess_text_for_speech` output is stripped, has no newline, and its only whitespace is single spaces |
| Speech.DotGetsBreak | audio_generator.py:154 | a '.' followed by whitespace gets `<break time="0.5s"/>` inserted right after it |
| Speech.SemicolonGetsBreak | audio_generator.py:155 | a ';' followed by whitespace gets `<break time="0.3s"/>` inserted right after it |
| Speech.DotsPaused | audio_generator.py:154 | after the dot rule, no '.' is directly followed by whitespace |
| Speech.SemicolonsPaused | audio_generator.py:155 | after the semicolon rule, no '.' or ';' is directly followed by whitespace |
| Speech.CollapseKeepsPaused | audio_generator.py:158 | the whitespace collapse keeps that property |
| Speech.BreaksSurviveCollapse | audio_generator.py:154-158 | whatever text the two pause rules and the whitespace collapse are applied to, no '.' or ';' is left directly followed by whitespace |
| Speech.PunctuationPaused | audio_generator.py:103-163 | in the final output no '.' or ';' is directly followed by whitespace |
| Speech.OptionLineSpoken | audio_generator.py:128-131 | for each option letter L from A to D, that letter's rule turns `\nL)` and the blanks after it into `\nOption L : `, then carries on after the blanks |
| Speech.ReplaceInsideWord | audio_generator.py:150-151 | the pronunciation table is applied by plain substring replacement, so a pattern inside a longer word is rewritten too |
| Chunking.SentenceBreakFirst | audio_generator.py:176 | the split point found is the first whitespace that follows '.', '!' or '?' |
| Chunking.SentencesStripped | audio_generator.py:176 | for a stripped text, every sentence is non-empty and stripped |
| Chunking.SentencesJoin | audio_generator.py:176 | for a text with single spaces only, the sentences joined with ' ' give back the text |
| Chunking.SplitWords | audio_generator.py:181-190 | the word loop computes the fold `WordsFold` |
| Chunking.AddSentence | audio_generator.py:178-205 | one sentence step, including the word fallback, computes `SentenceStep` |
| Chunking.SplitTextForTts | audio_generator.py:165-211 | the method computes `SplitForSpeech`, and returns `[text]` when len(text) ≤ max_chars |
| Chunking.ChunksWithinBudget | audio_generator.py:180-208 | for a text over max_chars, every chunk is stripped, and at most max_chars long unless it is a single longer word |
| Chunking.ChunksNonEmpty | audio_generator.py:165-208 | for a non-empty stripped text, no chunk is empty |
| Chunking.TrailingBlankSentences | audio_generator.py:176 | a word ending a sentence and followed by one blank splits into that word and an empty sentence |
| Chunking.TrailingBlankChunk | audio_generator.py:176-208 | such a word of exactly max_chars characters, followed by one blank, gives the chunks [word, ""] |
| Chunking.EmptyChunkOfUnstripped | audio_generator.py:176-208 | with max_chars 5, "aaaa. " is split into ["aaaa.", ""] |
| Chunking.ChunksKeepSentences | audio_generator.py:176-208 | when no sentence exceeds max_chars, the chunks joined with ' ' equal the sentences joined with ' ' |
| Chunking.ChunksRebuildText | audio_generator.py:165-208 | for a stripped text with single spaces and no sentence over max_chars, the chunks joined with ' ' give back the text |
| Chunking.PendingSentenceOvertaken | audio_generator.py:180-198 | the pieces of an over-long sentence are pushed before the buffered sentence is flushed, so for such inputs the chunks come out as [u, first, v] |
| Chunking.BufferedSentenceComesLate | audio_generator.py:180-198 | with max_chars 5, "a. bbbb cccc." is split into ["bbbb", "a.", "cccc."] |
| Audio.SynthesizeAll | audio_generator.py:87-91 | one request per chunk, answered in chunk order |
| Audio.JoinWithPauses | audio_generator.py:244-253 | the parts in order, with a 500 ms silence between consecutive parts and none after the last |
| Audio.PausesKeepParts | audio_generator.py:246-253 | dropping the silences gives back the parts in order, and the track starts and ends with a part |
| Audio.WriteInOrder | audio_generator.py:258-263 | without pydub, the file is the parts' bytes written one after the other |
| Audio.FlattenPrefix | audio_generator.py:261-263 | the first k parts written are a prefix of the file |
| Audio.PartAtOffset | audio_generator.py:261-263 | part k occupies its own slice of the file, at the end of the parts before it |
| Audio.AssembleTrack | audio_generator.py:81-94 | one chunk is saved directly. Several are synthesised in order; with pydub the track is the parts with a 500 ms pause between consecutive parts and none after the last, and without it the parts' bytes one after the other |
| Audio.GenerateAudio | audio_generator.py:64-97 | the saved track is that assembly of the chunks of the preprocessed script |
| Audio.RequestsNonEmpty | audio_generator.py:76-79 | when the preprocessed script is non-empty, no request sent to the speech service is empty |
| Audio.RequestsRebuildScript | audio_generator.py:76-79 | when no sentence of the preprocessed script exceeds 4000 characters, the requests joined with ' ' are exactly that script |
| Regenerate.ParseScriptContent | regenerate_capsules.py:109-169 | the line loop computes `ParseScript`, including the fallback to the whole script as development when it raises |
| Regenerate.RunOutside | regenerate_capsules.py:153-155 | lines outside a recognised section are discarded |
| Regenerate.RunContent | regenerate_capsules.py:125-155 | inside a section, lines are stripped and accumulated in order |
| Regenerate.NoHeadingsKeepDefaults | regenerate_capsules.py:111-155 | without any `# ` line the result is the defaults: empty title, introduction, development and conclusion, and an empty quiz list |
| Regenerate.SectionBody | regenerate_capsules.py:127-162 | a heading that opens a non-quiz section, followed by lines that are not headings, sets that section to the stripped lines joined with '\n' and stripped, and leaves the other keys at their defaults |
| Regenerate.QuizSection | regenerate_capsules.py:139-162 | in the quiz section each `## ` line flushes the lines gathered so far as one entry, the last entry being flushed at the end |
| Regenerate.QuizOverwritten | regenerate_capsules.py:129-130 | a later `# ` heading replaces the quiz list by the joined text of the last entry |
| Regenerate.QuizAppendRaises | regenerate_capsules.py:147-167 | reopening the quiz after that overwrite and starting an entry raises, so the whole script becomes the development |
| Regenerate.FlagsSelectParts | regenerate_capsules.py:254-262 | audio_only rebuilds only the audio, pdf_only only the PDF, neither rebuilds both |
| Regenerate.RegenerateCapsule | regenerate_capsules.py:228-296 | a part not requested counts as success; each failed part adds one error; a load failure gives one error and no success; success on both parts iff there are no errors |
| Regenerate.FindCapsuleDirectories | regenerate_capsules.py:54-68 | the result holds exactly the complete `capsule_` directories of the listing |
| Regenerate.CapsuleNumberPadded | regenerate_capsules.py:73 | zfill(3) pads a digit string to three digits, keeps longer strings unchanged and keeps the numeric value |
| Regenerate.GetCapsuleByNumber | regenerate_capsules.py:70-83 | the answer is the first complete directory whose name starts with `capsule_` + the padded number, or None when there is none |
| Regenerate.AllRegenerated | regenerate_capsules.py:316-325 | all capsules count as successes iff every report has both flags true |
| Regenerate.RegenerateAll | regenerate_capsules.py:298-327 | total is the number of directories and success + failed = total. A capsule is a success iff both its flags are true, and failed = 0 iff every capsule succeeds. No directories gives all zeros |
| Regenerate.ExitStatus | regenerate_capsules.py:359-444 | the exit code is 1 when --audio-only and --pdf-only are both given. A single capsule gives 0 iff it is found and succeeds; a batch gives 0 iff failed == 0 |
| UrlExtractor.Scrub | url_extractor.py:202 | every unwanted character becomes a space; the length and all other characters are kept |
| UrlExtractor.CleanedText | url_extractor.py:199-205 | after the substitutions and strip, the only whitespace is ' ', there is none at either end, and every character is a word character, listed punctuation or a listed accented letter |
| UrlExtractor.Truncated | url_extractor.py:207-211 | text longer than 10000 characters becomes its first 10000 characters + "..."; shorter text is unchanged |
| UrlExtractor.CleanTextShape | url_extractor.py:191-213 | `_clean_text` returns "" for empty input, keeps the character-class and whitespace guarantees, and returns at most 10003 characters |
| UrlExtractor.QueryOf | url_extractor.py:98 | the query `text.split('\|')[0].strip()` holds no '\|' and is stripped |
| UrlExtractor.QueryBeforeBar | url_extractor.py:98 | the query is the stripped text before the first '\|' |
| UrlExtractor.SearchUrl | url_extractor.py:100-112 | a search URL is the fixed site prefix followed by the query |
| UrlExtractor.FirstPattern | url_extractor.py:92-95 | the loop returns the first known pattern, in dict order, that occurs in the text |
| UrlExtractor.CnilUrl | url_extractor.py:78-98 | the first known pattern found in the lowercased text gives base + path; when none is found the result is the CNIL search URL for the query |
| UrlExtractor.GuessUrlNonEmpty | url_extractor.py:59-68 | a guessed URL is never empty |
| UrlExtractor.GuessEndsWithQuery | url_extractor.py:59-112 | every guess except a known CNIL definition ends with the query of the text |
| UrlExtractor.ExtractUrlFromExcelLink | url_extractor.py:43-68 | the stripped dictionary URL is returned when it is accepted. Otherwise blank link text gives None, and any other text gives the URL guessed by testing 'cnil', then 'legifrance', then 'service-public', then falling back to general search |
| Excel.RowOfKeys | excel_processor.py:45-50 | the keys of a row dictionary are exactly the headers of the columns present in the row |
| Excel.RowOfValues | excel_processor.py:48-72 | a header's value is given by the cell rules applied to its last cell: a link cell gives a link or None, any other cell gives its value |
| Excel.BuildRow | excel_processor.py:46-73 | the cell loop builds the dictionary `RowOf` |
| Excel.Missing | excel_processor.py:39 | the missing columns are exactly the required ones absent from the headers |
| Excel.KeptRows | excel_processor.py:74-78 | only rows whose `Sujets abordés` is non-blank are kept, and no more rows than were read |
| Excel.KeptRowsMembers | excel_processor.py:43-78 | a kept row is exactly a row built from the sheet that has a non-blank subject |
| Excel.ReadExcel | excel_processor.py:19-85 | a missing required header raises the error naming the missing columns; otherwise the result is the kept rows |
| Excel.LinkOf | excel_processor.py:94-106 | a link found in a column has non-empty stripped text, a stripped url, and that column |
| Excel.LinksMembers | excel_processor.py:94-106 | the links are exactly what the link columns contribute |
| Excel.GetLinksFromRow | excel_processor.py:87-108 | the loop scans `Lien 1`..`Lien 4` in order, keeps dictionary entries with non-blank text, and returns at most 4 links |
| Excel.NoColumnErrors | excel_processor.py:118-120 | no column error iff every required column is present and non-blank |
| Excel.ValidRow | excel_processor.py:115-127 | a row has no errors iff Compétences, Thématiques and Sujets abordés are filled and the row has a link |
| Excel.ValidateRowData | excel_processor.py:110-127 | the errors are one per missing or blank required column, in order, then one if there is no link; valid iff there are no errors |
| Excel.BumpCounts | excel_processor.py:147-153 | `stats[k] = get(k, 0) + 1` raises only that key's count, by one, raises the total by one, adds the key if it is new, and keeps the keys distinct |
| Excel.LinkTotals | excel_processor.py:141-145 | rows_with_links ≤ total_links ≤ 4·rows_with_links, and total_links = 0 iff rows_with_links = 0 |
| Excel.GetSummaryStats | excel_processor.py:129-155 | total_rows = len(rows); rows_with_links ≤ total_rows; the link bounds hold; each count dict has distinct keys, sums to total_rows and counts each value's rows |
| Pipeline.Sanitize | main.py:139-145 | each of `< > : " / \ \| ? *` becomes '_' and every other character is kept. The result is the first min(50, len) characters |
| Pipeline.SanitizeClean | main.py:143 | the result has no forbidden character, keeps every allowed one in place and has '_' where each forbidden one was |
| Pipeline.SanitizeIdempotent | main.py:143-145 | sanitizing twice is sanitizing once |
| Pipeline.PaddedDigits | main.py:58 | for an index below 1000, `{row_index:03d}` is three digits with the index's value |
| Pipeline.DirMatchesOwnNumber | main.py:58 | for an index below 1000, the directory `capsule_NNN_subject` is found by a lookup by number exactly when the number's value is the index |
| Pipeline.LongIndexShadows | main.py:58 | from index 1000 on, the directory also starts with the lookup prefix of index // 10, a different number |
| Pipeline.ExtractValidLinks | main.py:127-137 | the loop visits `Lien 1`..`Lien 4` in order, skips missing, falsy or blank entries and entries whose URL resolution gives None, and returns at most 4 pairs in column order |
| Pipeline.LinkEntryKept | main.py:132-136 | a link entry is kept with its dict's text form as link text. Its URL is the stripped dictionary URL when valid, otherwise the URL guessed from the text |
| Pipeline.FalsyEntrySkipped | main.py:132 | a missing or falsy entry gives no link |
| Pipeline.FetchContents | main.py:63-71 | the loop computes `Contents` |
| Pipeline.ContentsMembers | main.py:63-71 | a source is kept exactly when it comes from a link pair and its fetched content is non-empty |
| Pipeline.ProcessSingleCapsule | main.py:46-125 | success iff there are links, the subject is a string, some content was fetched and the build succeeds. The directory is created iff there are links and a subject, and it is named `capsule_` + index padded to 3 + `_` + sanitized subject |
| Pipeline.NoLinksFails | main.py:52-55 | a row none of whose link columns gives a link fails |
| Pipeline.AllSucceed | main.py:156-163 | the success count is the number of rows iff every row succeeds |
| Pipeline.NoneSucceed | main.py:156-163 | the success count is 0 iff no row succeeds |
| Pipeline.ProcessAllCapsules | main.py:147-172 | a missing required header raises. Otherwise success_count + error_count is the number of kept rows, and success_count counts the rows that succeed, numbered from 1 |

## Left out

- Strings.Upper: only ASCII and Latin-1 letters are mapped (no `ß` → `SS`, no dotless i and the like). Python's full Unicode case tables are not modelled.
- Strings.Lower: the same restriction as `Upper`.
- UrlExtractor.IsKept: `\w` is modelled as ASCII and Latin-1 letters, digits and '_'. Other Unicode word characters are not modelled.
- Strings.IsDigit: `\d` is modelled as ASCII digits, in the QCM marker patterns (`Patterns.MarkerHead`, `Patterns.SpeechMarker`), the `textbf{\d+}` rules (`Patterns.TextbfDigits`, `Patterns.BsTextbfDigits`) and the `Point \d+` title rule (`Patterns.PointTitle`). Other Unicode decimal digits are not modelled.
- UrlExtractor.CleanTextShape: it does not promise that there are no double spaces, because the substitution at url_extractor.py:202 can create them.
- Excel.CellEntry: cell values are strings. Numbers, dates and formulas in cells are not modelled, nor the `str()` of such values.
- Pipeline.EntryText: a link dictionary's text form is `{'text': '…', 'url': '…'}` without Python's `repr` quote selection and escaping.
- Pipeline.ProcessSingleCapsule: script generation, the metadata JSON, file writes, the PDF and the audio are one parameter `build`, whose failure stands for any exception they raise. `extract_content` is the parameter `fetch` (an empty string stands for None).
- Pipeline.ProcessAllCapsules: errors of workbook loading other than missing headers are not modelled. `_generate_summary_report` is left out: it writes a file, and its float percentage divides by zero on an empty sheet.
- UrlExtractor.ExtractUrlFromExcelLink: `_is_valid_url` (`urlparse`) is the parameter `isValid`.
- Regenerate.FindCapsuleDirectories: the result is stated as a set. The final `sorted` is not modelled, because path order is not modelled.
- Regenerate.RegenerateCapsule: `load_capsule_data`, `regenerate_audio` and `regenerate_pdf` are the boolean parameters `loaded`, `audioOk`, `pdfOk`. The mtime checks only log, and logging is left out. The catch-all "Erreur générale" path is not modelled. `audioOk` is true whenever `generate_audio` returns an existing file, and that includes the `.txt` placeholder it writes when the speech client is missing or raises (audio_generator.py:68-70, 99-101, 283-288; regenerate_capsules.py:187-189). So a capsule can count as regenerated with no audio produced.
- Regenerate.ExitStatus: argparse, `--output-dir` and `--verbose`, `print_results`, and the catch-all `except` are left out. A missing output directory is the flag `outputExists`.
- Audio.GenerateAudio: a missing text-to-speech client and exceptions from the service both lead to the placeholder file, which is not modelled. `_synthesize_speech` is the parameter `synth`, MP3 decoding and export are abstract (`Part(bytes)`), and `_save_audio` is the `Direct` track.
- `_estimate_duration` in content_generator.py is left out: it computes float minutes.
- The Gemini calls and prompts of content_generator.py are left out (`generate_capsule_script`, `_generate_main_script`, `_generate_qcm`, `_create_fallback_qcm`, `json.loads`).
- `_extract_remaining_content` (pdf_generator.py:457-498) is left out. Nothing shown calls it.
- The LaTeX preamble and template of `_create_latex_content`, including `datetime.now()`, are left out. So are the `pdflatex` runs, temporary files, and the reportlab and text fallbacks of pdf_generator.py. Only `latex_escape`, `process_markdown` and the body builders are modelled.
- The HTTP session and retries, `extract_content`, `test_url` and the BeautifulSoup selection of url_extractor.py are left out (network I/O).
- The voice listing and test functions of audio_generator.py are left out. setup_config.py is not part of this model (interactive setup and environment changes).
- QcmRoundTrip.FormatThenParse: the round trip is proved only for single-line, non-empty, stripped fields without `\`, `}` or `=`, with options keyed A-D in either case. Other text can be changed by the cleaning rules of `_format_qcm_simple`.
- Logging everywhere is left out.
