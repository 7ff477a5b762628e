/**
 * The capsule generator's driver (`CapsuleGenerator` in main.py): the name of a capsule's
 * output directory, the choice of the links of a sheet row, the processing of one capsule
 * and the success and error counts over the whole sheet.
 *
 * The collaborators are parameters: `resolve` is the URL extractor's
 * `extract_url_from_excel_link` (`UrlOf(isValid)` is UrlExtractor.ExtractUrlFromExcelLink
 * with the URL check `isValid`), `fetch` gives the extracted text of a URL ("" when nothing
 * could be extracted), and `build` says whether everything after the fetch (script
 * generation, the files written, the PDF and the audio) completes without raising.
 */
module Pipeline {
  import opened Outcomes
  import opened Strings
  import Excel
  import UrlExtractor
  import Regenerate

  // ---------------------------------------------------------------------------
  // _sanitize_filename
  // ---------------------------------------------------------------------------

  const MaxNameLength: nat := 50

  /** The characters of the class `[<>:"/\\|?*]`. */
  predicate IsForbidden(c: char) {
    c in "<>:\"/\\|?*"
  }

  function Replaced(c: char): char {
    if IsForbidden(c) then '_' else c
  }

  /** `_sanitize_filename`: every forbidden character becomes '_', then at most 50 are kept. */
  function Sanitize(filename: string): (r: string)
    ensures |r| == if |filename| > MaxNameLength then MaxNameLength else |filename|
    ensures forall i :: 0 <= i < |r| ==> r[i] == Replaced(filename[i])
  {
    var replaced := seq(|filename|, i requires 0 <= i < |filename| => Replaced(filename[i]));
    if |replaced| > MaxNameLength then replaced[..MaxNameLength] else replaced
  }

  /** The result has no forbidden character left, and nothing but forbidden characters changed. */
  lemma SanitizeClean(filename: string)
    ensures forall i :: 0 <= i < |Sanitize(filename)| ==> !IsForbidden(Sanitize(filename)[i])
    ensures forall i :: 0 <= i < |Sanitize(filename)| && !IsForbidden(filename[i]) ==>
      Sanitize(filename)[i] == filename[i]
    ensures forall i :: 0 <= i < |Sanitize(filename)| && IsForbidden(filename[i]) ==>
      Sanitize(filename)[i] == '_'
  {
    assert !IsForbidden('_');
  }

  /** Sanitizing a sanitized name changes nothing. */
  lemma SanitizeIdempotent(filename: string)
    ensures Sanitize(Sanitize(filename)) == Sanitize(filename)
  {
    var r := Sanitize(filename);
    SanitizeClean(filename);
    assert forall i :: 0 <= i < |r| ==> Sanitize(r)[i] == r[i];
  }

  // ---------------------------------------------------------------------------
  // The capsule directory
  // ---------------------------------------------------------------------------

  /** `f"{row_index:03d}"` */
  function Padded(index: nat): string {
    ZFill(NatToString(index), 3)
  }

  /** `capsule_{row_index:03d}_{sanitized subject}` */
  function CapsuleDirName(index: nat, subject: string): string {
    "capsule_" + Padded(index) + ("_" + Sanitize(subject))
  }

  /** Below 1000 the index is written with exactly three digits, and they denote the index. */
  lemma PaddedDigits(index: nat)
    requires index < 1000
    ensures var p := Padded(index);
      |p| == 3 && (forall i :: 0 <= i < 3 ==> IsDigit(p[i])) && DecimalValue(p) == index
  {
    NatToStringShort(index, 3);
    DecimalOfNatToString(index);
    Regenerate.CapsuleNumberPadded(NatToString(index));
  }

  /** For two parts of the same length after a common head, one name starts with the other
      exactly when the parts are equal. */
  lemma SameLengthPrefix(head: string, p: string, rest: string, z: string)
    requires |p| == |z|
    ensures StartsWith(head + p + rest, head + z) <==> p == z
  {
    var d := head + p + rest;
    if StartsWith(d, head + z) {
      forall i | 0 <= i < |z| ensures p[i] == z[i] {
        assert d[|head| + i] == p[i];
        assert (head + z)[|head| + i] == z[i];
      }
    }
  }

  /** Up to capsule 999, the prefix `get_capsule_by_number` looks for with a number of at most
      three digits matches the directory of capsule `index` exactly when the number denotes
      `index`. */
  lemma DirMatchesOwnNumber(index: nat, subject: string, number: string)
    requires index < 1000
    requires forall i :: 0 <= i < |number| ==> IsDigit(number[i])
    requires |number| <= 3
    ensures StartsWith(CapsuleDirName(index, subject), Regenerate.CapsulePrefix(number))
      <==> DecimalValue(number) == index
  {
    PaddedDigits(index);
    Regenerate.CapsuleNumberPadded(number);
    DigitsMatch("capsule_", Padded(index), "_" + Sanitize(subject), ZFill(number, 3));
  }

  /** Two digit strings of the same length after a common head: one name starts with the other
      exactly when they denote the same number. */
  lemma DigitsMatch(head: string, p: string, rest: string, z: string)
    requires |p| == |z|
    requires forall i :: 0 <= i < |p| ==> IsDigit(p[i])
    requires forall i :: 0 <= i < |z| ==> IsDigit(z[i])
    ensures StartsWith(head + p + rest, head + z) <==> DecimalValue(p) == DecimalValue(z)
  {
    SameLengthPrefix(head, p, rest, z);
    if DecimalValue(p) == DecimalValue(z) {
      DecimalInjective(p, z);
    }
  }

  /** From capsule 1000 on, the prefix for the number made of all but the last digit of the
      index also matches the directory, so a lookup of that other capsule can return it. */
  lemma LongIndexShadows(index: nat, subject: string)
    requires index >= 1000
    ensures index / 10 != index
    ensures StartsWith(CapsuleDirName(index, subject), Regenerate.CapsulePrefix(NatToString(index / 10)))
  {
    var n := NatToString(index);
    var m := NatToString(index / 10);
    NatToStringLong(index / 10);
    assert n == m + [DigitChar(index % 10)];
    var rest := [DigitChar(index % 10)] + "_" + Sanitize(subject);
    assert CapsuleDirName(index, subject) == "capsule_" + m + rest;
    assert Regenerate.CapsulePrefix(m) == "capsule_" + m;
  }

  // ---------------------------------------------------------------------------
  // _extract_valid_links
  // ---------------------------------------------------------------------------

  /** `str(value)` of a row entry. A link entry is a dictionary and prints as one. */
  function EntryText(v: Excel.Value): string {
    match v
    case Str(s) => s
    case Link(t, u) => DictRepr(t, u)
    case Null => "None"
  }

  function DictRepr(text: string, url: string): string {
    "{'text': '" + text + "', 'url': '" + url + "'}"
  }

  /** Python truthiness of a row entry: a dictionary with two keys is always true. */
  predicate Truthy(v: Excel.Value) {
    match v
    case Str(s) => s != ""
    case Link(_, _) => true
    case Null => false
  }

  /** The 'url' of the entry when the entry is a dictionary. */
  function DictUrl(v: Excel.Value): Option<string> {
    if v.Link? then Some(v.url) else None
  }

  /** The URL extractor's `extract_url_from_excel_link`: from a link text and the 'url' of the
      entry (when it is a dictionary) to the URL found, if any. */
  type Resolver = (string, Option<string>) -> Option<string>

  /** `extract_url_from_excel_link` for a given URL check, from the link text and the entry's
      'url' to the URL found. */
  function UrlOf(isValid: string -> bool): Resolver {
    (text: string, dictUrl: Option<string>) => UrlExtractor.ExtractUrlFromExcelLink(text, dictUrl, isValid)
  }

  /** What column `col` contributes: the entry's text and the URL `resolve` finds for it. */
  function ValidLink(row: Excel.Row, resolve: Resolver, col: string):
    Option<(string, string)>
  {
    if col in row && Truthy(row[col]) && Strip(EntryText(row[col])) != "" then
      var text := EntryText(row[col]);
      match resolve(text, DictUrl(row[col]))
      case Some(url) => if url != "" then Some((text, url)) else None
      case None => None
    else None
  }

  function ValidLinkFn(row: Excel.Row, resolve: Resolver):
    string -> Option<(string, string)>
  {
    col => ValidLink(row, resolve, col)
  }

  /** The pairs of `Lien 1` to `Lien 4`, in column order. */
  function ValidLinks(row: Excel.Row, resolve: Resolver): seq<(string, string)> {
    Excel.Collect(ValidLinkFn(row, resolve), Excel.LinkColumns)
  }

  /** `_extract_valid_links` */
  method ExtractValidLinks(row: Excel.Row, resolve: Resolver) returns (links: seq<(string, string)>)
    ensures links == ValidLinks(row, resolve)
    ensures |links| <= |Excel.LinkColumns|
  {
    links := [];
    var i := 0;
    while i < |Excel.LinkColumns|
      invariant 0 <= i <= |Excel.LinkColumns|
      invariant links == Excel.Collect(ValidLinkFn(row, resolve), Excel.LinkColumns[..i])
    {
      Excel.CollectSnoc(ValidLinkFn(row, resolve), Excel.LinkColumns, i);
      var linkKey := Excel.LinkColumns[i];
      assert ValidLinkFn(row, resolve)(linkKey) == ValidLink(row, resolve, linkKey);
      if linkKey in row && Truthy(row[linkKey]) && Strip(EntryText(row[linkKey])) != "" {
        var linkText := EntryText(row[linkKey]);
        var url := resolve(linkText, DictUrl(row[linkKey]));
        if url.Some? && url.value != "" {
          links := links + [(linkText, url.value)];
        }
      }
      i := i + 1;
    }
    assert Excel.LinkColumns[..i] == Excel.LinkColumns;
  }

  /** A dictionary entry is never skipped: its text is the dictionary's printed form, and its URL
      is the stripped 'url' when that is accepted, otherwise the one guessed from that form. */
  lemma LinkEntryKept(row: Excel.Row, isValid: string -> bool, col: string)
    requires col in row && row[col].Link?
    ensures var v := row[col];
      var text := DictRepr(v.text, v.url);
      ValidLink(row, UrlOf(isValid), col) == Some((text,
        if UrlExtractor.AcceptsUrl(Some(v.url), isValid) then Strip(v.url)
        else UrlExtractor.GuessUrl(Strip(text))))
  {
    var v := row[col];
    var text := DictRepr(v.text, v.url);
    assert EntryText(v) == text && Truthy(v) && DictUrl(v) == Some(v.url);
    assert text[0] == '{';
    StripEmptyIffBlank(text);
    assert !IsSpace(text[0]);
    var url := UrlExtractor.ExtractUrlFromExcelLink(text, Some(v.url), isValid);
    assert UrlOf(isValid)(text, Some(v.url)) == url;
    UrlExtractor.GuessUrlNonEmpty(Strip(text));
    assert url.Some? && url.value != "";
  }

  /** A missing, empty or `None` entry contributes nothing. */
  lemma FalsyEntrySkipped(row: Excel.Row, resolve: Resolver, col: string)
    requires col !in row || !Truthy(row[col])
    ensures ValidLink(row, resolve, col).None?
  {
  }

  // ---------------------------------------------------------------------------
  // process_single_capsule
  // ---------------------------------------------------------------------------

  /** An entry of `url_contents`. */
  datatype Source = Source(title: string, url: string, content: string)

  /** The links whose page gave some content, in order. */
  function Contents(links: seq<(string, string)>, fetch: string -> string): (cs: seq<Source>)
    ensures |cs| <= |links|
    decreases |links|
  {
    if links == [] then []
    else
      var l := links[|links| - 1];
      Contents(links[..|links| - 1], fetch) + (if fetch(l.1) != "" then [Source(l.0, l.1, fetch(l.1))] else [])
  }

  /** Exactly the links with content are kept, each with its content. */
  lemma {:induction false} ContentsMembers(links: seq<(string, string)>, fetch: string -> string)
    ensures forall s :: s in Contents(links, fetch) <==>
      (s.title, s.url) in links && s.content == fetch(s.url) && s.content != ""
    decreases |links|
  {
    if links != [] {
      var init := links[..|links| - 1];
      ContentsMembers(init, fetch);
      assert links == init + [links[|links| - 1]];
    }
  }

  /** The loop of `process_single_capsule` that fills `url_contents`. */
  method FetchContents(links: seq<(string, string)>, fetch: string -> string) returns (sources: seq<Source>)
    ensures sources == Contents(links, fetch)
  {
    sources := [];
    var i := 0;
    while i < |links|
      invariant 0 <= i <= |links|
      invariant sources == Contents(links[..i], fetch)
    {
      assert links[..i + 1][..i] == links[..i];
      var content := fetch(links[i].1);
      if content != "" {
        sources := sources + [Source(links[i].0, links[i].1, content)];
      }
      i := i + 1;
    }
    assert links[..i] == links;
  }

  /** `row_data.get('Sujets abordés', '')` as the sanitizer receives it: a dictionary or `None`
      is not a string, and the substitution raises. */
  function SubjectOf(row: Excel.Row): Option<string> {
    if Excel.Subjects !in row then Some("")
    else match row[Excel.Subjects]
      case Str(s) => Some(s)
      case _ => None
  }

  /** Whether capsule `index` made from `row` is reported as a success. */
  predicate Succeeds(row: Excel.Row, index: nat, resolve: Resolver, fetch: string -> string,
                     build: (Excel.Row, nat) -> bool) {
    var links := ValidLinks(row, resolve);
    links != [] && SubjectOf(row).Some? && Contents(links, fetch) != [] && build(row, index)
  }

  /** `process_single_capsule`: the directory it creates and whether the capsule succeeded. */
  method ProcessSingleCapsule(row: Excel.Row, index: nat, resolve: Resolver,
                              fetch: string -> string, build: (Excel.Row, nat) -> bool)
    returns (ok: bool, dir: Option<string>, sources: seq<Source>)
    ensures ok <==> Succeeds(row, index, resolve, fetch, build)
    ensures dir.Some? <==> ValidLinks(row, resolve) != [] && SubjectOf(row).Some?
    ensures dir.Some? ==> dir.value == CapsuleDirName(index, SubjectOf(row).value)
    ensures dir.Some? ==> sources == Contents(ValidLinks(row, resolve), fetch)
    ensures ok ==> sources != [] && |sources| <= |Excel.LinkColumns|
  {
    sources := [];
    dir := None;
    var links := ExtractValidLinks(row, resolve);
    if links == [] {
      return false, dir, sources;
    }
    var subject := SubjectOf(row);
    if subject.None? {
      return false, dir, sources;
    }
    dir := Some(CapsuleDirName(index, subject.value));
    sources := FetchContents(links, fetch);
    if sources == [] {
      return false, dir, sources;
    }
    ok := build(row, index);
  }

  /** A row without links fails, whatever the pages and the later steps do. */
  lemma NoLinksFails(row: Excel.Row, index: nat, resolve: Resolver, fetch: string -> string,
                     build: (Excel.Row, nat) -> bool)
    requires forall k :: 0 <= k < |Excel.LinkColumns| ==> ValidLink(row, resolve, Excel.LinkColumns[k]).None?
    ensures !Succeeds(row, index, resolve, fetch, build)
  {
    var f := ValidLinkFn(row, resolve);
    assert forall k :: 0 <= k < |Excel.LinkColumns| ==> f(Excel.LinkColumns[k]).None?;
    Excel.CollectNone(f, Excel.LinkColumns);
  }

  // ---------------------------------------------------------------------------
  // process_all_capsules
  // ---------------------------------------------------------------------------

  function SucceedsFn(resolve: Resolver, fetch: string -> string, build: (Excel.Row, nat) -> bool):
    (Excel.Row, nat) -> bool
  {
    (row: Excel.Row, index: nat) => Succeeds(row, index, resolve, fetch, build)
  }

  /** The number of rows for which `ok` holds, the k-th row being capsule k + 1. */
  function SuccessCount(rows: seq<Excel.Row>, ok: (Excel.Row, nat) -> bool): (n: nat)
    ensures n <= |rows|
    decreases |rows|
  {
    if rows == [] then 0
    else SuccessCount(rows[..|rows| - 1], ok) + (if ok(rows[|rows| - 1], |rows|) then 1 else 0)
  }

  /** Every capsule succeeds exactly when the success count is the number of rows. */
  lemma {:induction false} AllSucceed(rows: seq<Excel.Row>, ok: (Excel.Row, nat) -> bool)
    ensures SuccessCount(rows, ok) == |rows| <==> forall k :: 0 <= k < |rows| ==> ok(rows[k], k + 1)
    decreases |rows|
  {
    if rows != [] {
      var init := rows[..|rows| - 1];
      AllSucceed(init, ok);
      assert forall k :: 0 <= k < |init| ==> init[k] == rows[k];
    }
  }

  /** No capsule succeeds exactly when the success count is zero. */
  lemma {:induction false} NoneSucceed(rows: seq<Excel.Row>, ok: (Excel.Row, nat) -> bool)
    ensures SuccessCount(rows, ok) == 0 <==> forall k :: 0 <= k < |rows| ==> !ok(rows[k], k + 1)
    decreases |rows|
  {
    if rows != [] {
      var init := rows[..|rows| - 1];
      NoneSucceed(init, ok);
      assert forall k :: 0 <= k < |init| ==> init[k] == rows[k];
    }
  }

  lemma SuccessCountSnoc(rows: seq<Excel.Row>, ok: (Excel.Row, nat) -> bool, i: nat)
    requires i < |rows|
    ensures SuccessCount(rows[..i + 1], ok) == SuccessCount(rows[..i], ok) + (if ok(rows[i], i + 1) then 1 else 0)
  {
    assert rows[..i + 1][..i] == rows[..i];
  }

  /** `process_all_capsules`: the error of reading the sheet (the missing columns), or the
      success and error counts. */
  method ProcessAllCapsules(headerValues: seq<string>, cellRows: seq<seq<Excel.Cell>>, resolve: Resolver,
                            fetch: string -> string, build: (Excel.Row, nat) -> bool)
    returns (res: Result<(nat, nat), seq<string>>)
    ensures res.Err? <==> Excel.Missing(headerValues, Excel.RequiredColumns) != []
    ensures res.Err? ==> res.error == Excel.Missing(headerValues, Excel.RequiredColumns)
    ensures res.Ok? ==>
      var rows := Excel.KeptRows(headerValues, cellRows);
      res.value.0 + res.value.1 == |rows| && res.value.0 == SuccessCount(rows, SucceedsFn(resolve, fetch, build))
  {
    var read := Excel.ReadExcel(headerValues, cellRows);
    if read.Err? {
      return Err(read.error);
    }
    var rowsData := read.value;
    var successCount := 0;
    var errorCount := 0;
    var i := 0;
    while i < |rowsData|
      invariant 0 <= i <= |rowsData|
      invariant successCount == SuccessCount(rowsData[..i], SucceedsFn(resolve, fetch, build))
      invariant successCount + errorCount == i
    {
      SuccessCountSnoc(rowsData, SucceedsFn(resolve, fetch, build), i);
      var ok, _, _ := ProcessSingleCapsule(rowsData[i], i + 1, resolve, fetch, build);
      assert ok == SucceedsFn(resolve, fetch, build)(rowsData[i], i + 1);
      if ok {
        successCount := successCount + 1;
      } else {
        errorCount := errorCount + 1;
      }
      i := i + 1;
    }
    assert rowsData[..i] == rowsData;
    res := Ok((successCount, errorCount));
  }
}
