/** `URLExtractor` of url_extractor.py without the network: cleaning the text of a page and
    turning the link of a spreadsheet cell into a URL. `_is_valid_url` is a parameter
    (`isValid`), since it rests on `urlparse`. */
module UrlExtractor {
  import opened Outcomes
  import opened Strings
  import opened Rewrite
  import opened Patterns
  import Speech

  // ---------------------------------------------------------------------------
  // _clean_text
  // ---------------------------------------------------------------------------

  const MaxLength: nat := 10000

  /** The punctuation `_clean_text` keeps. */
  const KeptPunctuation: string := ".,;:!?()-'\""

  /** The accented letters `_clean_text` lists explicitly. */
  const KeptAccents: string := "àâäéèêëïîôöùûüÿç"

  /** `[\w\s\.,;:!?()\-\'"àâäéèêëïîôöùûüÿç]` */
  predicate IsKept(c: char) {
    IsWordChar(c) || IsSpace(c) || c in KeptPunctuation || c in KeptAccents
  }

  /** `re.sub(r'[^...]', ' ', text)` for a class `keep` of single characters: every character
      outside it becomes one space. */
  function Scrub(s: string, keep: char -> bool): (r: string)
    ensures |r| == |s|
    ensures forall i :: 0 <= i < |s| ==> r[i] == (if keep(s[i]) then s[i] else ' ')
  {
    seq(|s|, i requires 0 <= i < |s| => if keep(s[i]) then s[i] else ' ')
  }

  /** The text once its whitespace is collapsed, its other characters scrubbed and its ends
      stripped. */
  function Cleaned(text: string): string {
    AllSound();
    Strip(Scrub(ReSub(text, WsRun, OneSpace), IsKept))
  }

  /** Scrubbing and stripping a text whose only whitespace is the plain space. */
  lemma ScrubStrip(c: string, keep: char -> bool)
    requires keep(' ') && NoneOf(c, IsOtherSpace)
    ensures var t := Strip(Scrub(c, keep));
      IsStripped(t) && NoneOf(t, IsOtherSpace) && forall i :: 0 <= i < |t| ==> keep(t[i])
  {
    var s := Scrub(c, keep);
    assert forall i :: 0 <= i < |s| ==> keep(s[i]);
    assert forall i :: 0 <= i < |s| ==> !IsOtherSpace(s[i]);
    StripKeeps(s, keep);
    StripNoneOf(s, IsOtherSpace);
  }

  lemma StripKeeps(s: string, keep: char -> bool)
    requires forall i :: 0 <= i < |s| ==> keep(s[i])
    ensures forall i :: 0 <= i < |Strip(s)| ==> keep(Strip(s)[i])
  {
    StripSlice(s);
  }

  lemma StripNoneOf(s: string, bad: char -> bool)
    requires NoneOf(s, bad)
    ensures NoneOf(Strip(s), bad)
  {
    StripSlice(s);
  }

  lemma SpaceKept()
    ensures IsKept(' ')
  {
    assert IsSpace(' ');
  }

  /** The cut at `MaxLength` characters, marked by "...". */
  function Truncated(t: string): (r: string)
    ensures |t| <= MaxLength ==> r == t
    ensures |t| > MaxLength ==> |r| == MaxLength + 3 && StartsWith(r, t[..MaxLength]) && EndsWith(r, "...")
  {
    if |t| > MaxLength then t[..MaxLength] + "..." else t
  }

  /** `_clean_text` */
  function CleanText(text: string): string {
    if text == "" then "" else Truncated(Cleaned(text))
  }

  /** What is left of the text after cleaning: plain spaces as its only whitespace, none at
      either end, and only characters the class keeps. */
  lemma CleanedText(text: string)
    ensures var t := Cleaned(text);
      IsStripped(t) && NoneOf(t, IsOtherSpace) && forall i :: 0 <= i < |t| ==> IsKept(t[i])
  {
    AllSound();
    Speech.CollapsedSpaces(text);
    SpaceKept();
    ScrubStrip(ReSub(text, WsRun, OneSpace), IsKept);
  }

  /** `_clean_text`: "" for "", and otherwise plain spaces as the only whitespace, nothing to
      strip at either end, only kept characters, at most `MaxLength` characters plus "...". */
  lemma CleanTextShape(text: string)
    ensures var r := CleanText(text);
      (text == "" ==> r == "")
      && IsStripped(r) && NoneOf(r, IsOtherSpace) && (forall i :: 0 <= i < |r| ==> IsKept(r[i]))
      && |r| <= MaxLength + 3
      && (|Cleaned(text)| <= MaxLength ==> r == Cleaned(text))
  {
    if text != "" {
      CleanedText(text);
      DotKept();
      TruncatedShape(Cleaned(text), IsKept);
    }
  }

  lemma DotKept()
    ensures IsKept('.')
  {
    assert '.' == KeptPunctuation[0];
  }

  /** The cut keeps the first character and ends with a dot. */
  lemma TruncatedShape(t: string, keep: char -> bool)
    requires IsStripped(t) && NoneOf(t, IsOtherSpace) && (forall i :: 0 <= i < |t| ==> keep(t[i])) && keep('.')
    ensures var r := Truncated(t);
      IsStripped(r) && NoneOf(r, IsOtherSpace) && (forall i :: 0 <= i < |r| ==> keep(r[i])) && |r| <= MaxLength + 3
  {
    if |t| > MaxLength {
      var r := t[..MaxLength] + "...";
      assert r[0] == t[0];
      assert forall i :: 0 <= i < MaxLength ==> r[i] == t[i];
      assert forall i :: MaxLength <= i < |r| ==> r[i] == '.';
      assert r[|r| - 1] == '.';
    }
  }

  // ---------------------------------------------------------------------------
  // Search URLs
  // ---------------------------------------------------------------------------

  /** `text.split('|')[0].strip()` */
  function QueryOf(text: string): (q: string)
    ensures '|' !in q && IsStripped(q)
  {
    var b := Before(text, '|');
    StripSlice(b);
    Strip(b)
  }

  /** A text without '|' is its own query, stripped; otherwise the query stops at the first '|'. */
  lemma QueryBeforeBar(a: string, b: string)
    requires '|' !in a
    ensures QueryOf(a) == Strip(a) && QueryOf(a + "|" + b) == Strip(a)
  {
    var s := a + "|" + b;
    assert s[|a|] == '|';
    var k := IndexOf(s, '|').value;
    assert forall j :: 0 <= j < |a| ==> s[j] == a[j];
    assert forall j :: 0 <= j < k ==> s[..k][j] == s[j];
    assert k == |a|;
    assert s[..k] == a;
  }

  /** A search URL: a fixed prefix followed by the query. */
  function SearchUrl(base: string, text: string): (u: string)
    ensures StartsWith(u, base) && u[|base|..] == QueryOf(text)
  {
    base + QueryOf(text)
  }

  const LegifranceSearch: string := "https://www.legifrance.gouv.fr/search/all?tab=all&searchField=ALL&query="
  const ServicePublicSearch: string := "https://www.service-public.fr/recherche?keyword="
  const GeneralSearch: string := "https://duckduckgo.com/?q="
  const CnilBase: string := "https://www.cnil.fr"
  const CnilSearchPath: string := "/fr/rechercher?search="

  /** `known_patterns`, in the order of the dictionary. */
  const CnilPatterns: seq<(string, string)> := [
    ("donnée sensible", "/fr/definition/donnee-sensible"),
    ("données de santé", "/fr/definition/donnee-de-sante"),
    ("donnée à caractère personnel", "/fr/definition/donnee-caractere-personnel"),
    ("pseudonymisation", "/fr/definition/pseudonymisation"),
    ("anonymisation", "/fr/definition/anonymisation")
  ]

  /** Pattern `k` is the first of the table that occurs in `t`. */
  predicate FirstIn(t: string, table: seq<(string, string)>, k: int) {
    0 <= k < |table| && Contains(t, table[k].0) && forall j :: 0 <= j < k ==> !Contains(t, table[j].0)
  }

  /** The loop over `known_patterns` with its early return, from entry `from` on. */
  function FirstPattern(t: string, table: seq<(string, string)>, from: nat): (r: Option<nat>)
    requires from <= |table|
    ensures r.Some? ==>
      from <= r.value < |table| && Contains(t, table[r.value].0)
      && forall j :: from <= j < r.value ==> !Contains(t, table[j].0)
    ensures r.None? ==> forall j :: from <= j < |table| ==> !Contains(t, table[j].0)
    decreases |table| - from
  {
    if from == |table| then None
    else if Contains(t, table[from].0) then Some(from)
    else FirstPattern(t, table, from + 1)
  }

  /** `_search_cnil_url` over any table of known patterns. */
  function CnilUrl(text: string, table: seq<(string, string)>): (u: string)
    ensures forall k :: FirstIn(Lower(text), table, k) ==> u == CnilBase + table[k].1
    ensures (forall j :: 0 <= j < |table| ==> !Contains(Lower(text), table[j].0)) ==>
      u == SearchUrl(CnilBase + CnilSearchPath, text)
  {
    match FirstPattern(Lower(text), table, 0)
    case Some(k) => CnilBase + table[k].1
    case None => CnilBase + CnilSearchPath + QueryOf(text)
  }

  function SearchCnilUrl(text: string): string { CnilUrl(text, CnilPatterns) }
  function SearchLegifranceUrl(text: string): string { SearchUrl(LegifranceSearch, text) }
  function SearchServicePublicUrl(text: string): string { SearchUrl(ServicePublicSearch, text) }
  function SearchGeneralUrl(text: string): string { SearchUrl(GeneralSearch, text) }

  /** The URL guessed from a link text, by the first site named in it. */
  function GuessUrl(text: string): string {
    var t := Lower(text);
    if Contains(t, "cnil") then SearchCnilUrl(text)
    else if Contains(t, "legifrance") then SearchLegifranceUrl(text)
    else if Contains(t, "service-public") then SearchServicePublicUrl(text)
    else SearchGeneralUrl(text)
  }

  /** Every guessed URL starts with one of the fixed site prefixes, so it is never empty. */
  lemma GuessUrlNonEmpty(text: string)
    ensures GuessUrl(text) != ""
  {
    assert CnilBase != [] && LegifranceSearch != [];
    assert ServicePublicSearch != [] && GeneralSearch != [];
  }

  lemma SearchEndsWithQuery(base: string, text: string)
    ensures EndsWith(SearchUrl(base, text), QueryOf(text))
  {
    var u := SearchUrl(base, text);
    assert u[|u| - |QueryOf(text)|..] == QueryOf(text);
  }

  /** Every guess but a known CNIL definition ends with the query of the text. */
  lemma GuessEndsWithQuery(text: string)
    requires Contains(Lower(text), "cnil") ==> forall j :: 0 <= j < |CnilPatterns| ==> !Contains(Lower(text), CnilPatterns[j].0)
    ensures EndsWith(GuessUrl(text), QueryOf(text))
  {
    var t := Lower(text);
    if Contains(t, "cnil") {
      assert SearchCnilUrl(text) == SearchUrl(CnilBase + CnilSearchPath, text);
      SearchEndsWithQuery(CnilBase + CnilSearchPath, text);
    } else if Contains(t, "legifrance") {
      SearchEndsWithQuery(LegifranceSearch, text);
    } else if Contains(t, "service-public") {
      SearchEndsWithQuery(ServicePublicSearch, text);
    } else {
      SearchEndsWithQuery(GeneralSearch, text);
    }
  }

  // ---------------------------------------------------------------------------
  // extract_url_from_excel_link
  // ---------------------------------------------------------------------------

  /** The stripped 'url' of the row's dictionary for the column, when it is one and the URL is
      accepted. */
  predicate AcceptsUrl(dictUrl: Option<string>, isValid: string -> bool) {
    dictUrl.Some? && Strip(dictUrl.value) != "" && isValid(Strip(dictUrl.value))
  }

  /** `extract_url_from_excel_link`; `dictUrl` is the 'url' of `row_data[column]` when that
      is a dictionary, `None` otherwise. */
  function ExtractUrlFromExcelLink(linkText: string, dictUrl: Option<string>, isValid: string -> bool): (r: Option<string>)
    ensures AcceptsUrl(dictUrl, isValid) ==> r == Some(Strip(dictUrl.value))
    ensures !AcceptsUrl(dictUrl, isValid) ==> (r.None? <==> IsBlank(linkText))
    ensures !AcceptsUrl(dictUrl, isValid) && r.Some? ==> r.value == GuessUrl(Strip(linkText))
  {
    StripEmptyIffBlank(linkText);
    if AcceptsUrl(dictUrl, isValid) then Some(Strip(dictUrl.value))
    else
      var text := Strip(linkText);
      if text == "" then None else Some(GuessUrl(text))
  }
}
