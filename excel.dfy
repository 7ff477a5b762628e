/** `ExcelProcessor` of excel_processor.py: the rows of the spreadsheet as dictionaries, the
    links of a row, its validation and the statistics over all rows. Loading the workbook is
    left out: a sheet is its header values and its rows of cells. */
module Excel {
  import opened Outcomes
  import opened Strings

  // ---------------------------------------------------------------------------
  // Rows
  // ---------------------------------------------------------------------------

  /** A value of a row dictionary: a cell's text, the `{'text': ..., 'url': ...}` dictionary
      of a link column, or `None`. */
  datatype Value = Str(s: string) | Link(text: string, url: string) | Null

  type Row = map<string, Value>

  const Skills: string := "Compétences"
  const Themes: string := "Thématiques"
  const Subjects: string := "Sujets abordés"

  const RequiredColumns: seq<string> := [Skills, Themes, Subjects]
  const LinkColumns: seq<string> := ["Lien 1", "Lien 2", "Lien 3", "Lien 4"]

  /** A cell of the sheet: its value ("" for an empty cell) and, when it carries a hyperlink,
      the hyperlink's target ("" when it has none). */
  datatype Cell = Cell(value: string, hyperlink: Option<string>)

  /** The entry a cell gives under column `col`. */
  function CellEntry(col: string, cell: Cell): Value {
    if col in LinkColumns then
      if cell.hyperlink.Some? then Link(cell.value, cell.hyperlink.value)
      else if cell.value != "" && Strip(cell.value) != "" then Link(Strip(cell.value), "")
      else Null
    else Str(cell.value)
  }

  /** The row dictionary after the first `n` cells: a later column of the same name overwrites
      an earlier one, and cells beyond the headers are ignored. */
  function RowOf(headers: seq<string>, cells: seq<Cell>, n: nat): Row
    requires n <= |cells|
  {
    if n == 0 then map[]
    else if n - 1 < |headers| then RowOf(headers, cells, n - 1)[headers[n - 1] := CellEntry(headers[n - 1], cells[n - 1])]
    else RowOf(headers, cells, n - 1)
  }

  /** The columns of the first `n` cells that have a header. */
  predicate Covers(headers: seq<string>, n: nat, i: int) {
    0 <= i < n && i < |headers|
  }

  /** The keys of a row dictionary are the headers of its cells. */
  lemma {:induction false} RowOfKeys(headers: seq<string>, cells: seq<Cell>, n: nat)
    requires n <= |cells|
    ensures forall k :: k in RowOf(headers, cells, n) <==> exists i :: Covers(headers, n, i) && headers[i] == k
  {
    if n > 0 {
      RowOfKeys(headers, cells, n - 1);
      forall k | k in RowOf(headers, cells, n) ensures exists i :: Covers(headers, n, i) && headers[i] == k {
        if n - 1 < |headers| && k == headers[n - 1] {
          assert Covers(headers, n, n - 1);
        } else {
          assert k in RowOf(headers, cells, n - 1);
          var i :| Covers(headers, n - 1, i) && headers[i] == k;
          assert Covers(headers, n, i);
        }
      }
      forall k | exists i :: Covers(headers, n, i) && headers[i] == k ensures k in RowOf(headers, cells, n) {
        var i :| Covers(headers, n, i) && headers[i] == k;
        if i < n - 1 {
          assert Covers(headers, n - 1, i);
        }
      }
    }
  }

  /** The value under each header is the entry of the last cell under that header. */
  lemma {:induction false} RowOfValues(headers: seq<string>, cells: seq<Cell>, n: nat, i: nat)
    requires n <= |cells| && Covers(headers, n, i)
    requires forall j :: i < j < n && j < |headers| ==> headers[j] != headers[i]
    ensures headers[i] in RowOf(headers, cells, n)
    ensures RowOf(headers, cells, n)[headers[i]] == CellEntry(headers[i], cells[i])
  {
    if i < n - 1 {
      RowOfValues(headers, cells, n - 1, i);
    }
  }

  /** The loop over the cells of one row. */
  method BuildRow(headers: seq<string>, cells: seq<Cell>) returns (row: Row)
    ensures row == RowOf(headers, cells, |cells|)
  {
    row := map[];
    var colIdx := 0;
    while colIdx < |cells|
      invariant 0 <= colIdx <= |cells|
      invariant row == RowOf(headers, cells, colIdx)
    {
      if colIdx < |headers| {
        var colName := headers[colIdx];
        row := row[colName := CellEntry(colName, cells[colIdx])];
      }
      colIdx := colIdx + 1;
    }
  }

  /** `row_dict.get('Sujets abordés', '').strip()` is not empty. */
  predicate HasSubject(row: Row) {
    Subjects in row && row[Subjects].Str? && !IsBlank(row[Subjects].s)
  }

  /** The required columns missing from the headers, in order. */
  function Missing(headers: seq<string>, cols: seq<string>): (m: seq<string>)
    ensures forall c :: c in m <==> c in cols && c !in headers
    decreases |cols|
  {
    if cols == [] then []
    else Missing(headers, cols[..|cols| - 1]) + (if cols[|cols| - 1] in headers then [] else [cols[|cols| - 1]])
  }

  /** The rows kept: those that name a subject, in order. */
  function KeptRows(headers: seq<string>, rows: seq<seq<Cell>>): (kept: seq<Row>)
    ensures |kept| <= |rows|
    ensures forall r :: r in kept ==> HasSubject(r)
    decreases |rows|
  {
    if rows == [] then []
    else
      var last := RowOf(headers, rows[|rows| - 1], |rows[|rows| - 1]|);
      KeptRows(headers, rows[..|rows| - 1]) + (if HasSubject(last) then [last] else [])
  }

  /** A row's dictionary is kept exactly when it names a subject. */
  lemma {:induction false} KeptRowsMembers(headers: seq<string>, rows: seq<seq<Cell>>)
    ensures forall r :: r in KeptRows(headers, rows) <==>
      HasSubject(r) && exists i :: 0 <= i < |rows| && r == RowOf(headers, rows[i], |rows[i]|)
    decreases |rows|
  {
    if rows != [] {
      var init := rows[..|rows| - 1];
      KeptRowsMembers(headers, init);
      assert forall i :: 0 <= i < |init| ==> init[i] == rows[i];
    }
  }

  /** `read_excel` on the header values and the rows below them; `Err` carries the missing
      required columns of the `ValueError`. */
  method ReadExcel(headerValues: seq<string>, rows: seq<seq<Cell>>) returns (res: Result<seq<Row>, seq<string>>)
    ensures res.Err? <==> Missing(headerValues, RequiredColumns) != []
    ensures res.Err? ==> res.error == Missing(headerValues, RequiredColumns)
    ensures res.Ok? ==> res.value == KeptRows(headerValues, rows)
  {
    var headers := headerValues;
    var missing: seq<string> := [];
    var c := 0;
    while c < |RequiredColumns|
      invariant 0 <= c <= |RequiredColumns|
      invariant missing == Missing(headers, RequiredColumns[..c])
    {
      assert RequiredColumns[..c + 1][..c] == RequiredColumns[..c];
      if RequiredColumns[c] !in headers {
        missing := missing + [RequiredColumns[c]];
      }
      c := c + 1;
    }
    assert RequiredColumns[..c] == RequiredColumns;
    if missing != [] {
      return Err(missing);
    }
    var rowsData: seq<Row> := [];
    var i := 0;
    while i < |rows|
      invariant 0 <= i <= |rows|
      invariant rowsData == KeptRows(headers, rows[..i])
    {
      assert rows[..i + 1][..i] == rows[..i];
      var rowDict := BuildRow(headers, rows[i]);
      if HasSubject(rowDict) {
        rowsData := rowsData + [rowDict];
      }
      i := i + 1;
    }
    assert rows[..i] == rows;
    return Ok(rowsData);
  }

  // ---------------------------------------------------------------------------
  // get_links_from_row
  // ---------------------------------------------------------------------------

  datatype LinkInfo = LinkInfo(text: string, url: string, column: string)

  /** What column `col` contributes: a dictionary whose stripped text is not empty. */
  function LinkOf(row: Row, col: string): (l: Option<LinkInfo>)
    ensures l.Some? ==> l.value.text != "" && IsStripped(l.value.text) && IsStripped(l.value.url) && l.value.column == col
  {
    if col in row && row[col].Link? && Strip(row[col].text) != "" then
      Some(LinkInfo(Strip(row[col].text), Strip(row[col].url), col))
    else None
  }

  /** The value of `f` on each column of `cols` that has one, in order. */
  function Collect<T>(f: string -> Option<T>, cols: seq<string>): (ls: seq<T>)
    ensures |ls| <= |cols|
    decreases |cols|
  {
    if cols == [] then []
    else
      var l := f(cols[|cols| - 1]);
      Collect(f, cols[..|cols| - 1]) + (if l.Some? then [l.value] else [])
  }

  /** What `f` gives for some column, and nothing else, is collected. */
  lemma {:induction false} CollectMembers<T>(f: string -> Option<T>, cols: seq<string>)
    ensures forall l :: l in Collect(f, cols) <==> exists k :: 0 <= k < |cols| && f(cols[k]) == Some(l)
    decreases |cols|
  {
    if cols != [] {
      var init := cols[..|cols| - 1];
      CollectMembers(f, init);
      assert forall k :: 0 <= k < |init| ==> init[k] == cols[k];
    }
  }

  /** Nothing is collected when `f` gives nothing for every column. */
  lemma {:induction false} CollectNone<T>(f: string -> Option<T>, cols: seq<string>)
    requires forall k :: 0 <= k < |cols| ==> f(cols[k]).None?
    ensures Collect(f, cols) == []
    decreases |cols|
  {
    if cols != [] {
      var init := cols[..|cols| - 1];
      assert forall k :: 0 <= k < |init| ==> init[k] == cols[k];
      CollectNone(f, init);
    }
  }

  function LinkFn(row: Row): string -> Option<LinkInfo> {
    col => LinkOf(row, col)
  }

  /** The links of the columns `cols`, in order. */
  function Links(row: Row, cols: seq<string>): seq<LinkInfo> { Collect(LinkFn(row), cols) }

  function LinksOf(row: Row): seq<LinkInfo> { Links(row, LinkColumns) }

  /** The links are exactly what the columns contribute. */
  lemma LinksMembers(row: Row, cols: seq<string>)
    ensures forall l :: l in Links(row, cols) <==> exists k :: 0 <= k < |cols| && LinkOf(row, cols[k]) == Some(l)
  {
    CollectMembers(LinkFn(row), cols);
  }

  /** One more column adds what `f` gives for it, if anything. */
  lemma CollectSnoc<T>(f: string -> Option<T>, cols: seq<string>, c: nat)
    requires c < |cols|
    ensures var l := f(cols[c]);
      Collect(f, cols[..c + 1]) == Collect(f, cols[..c]) + (if l.Some? then [l.value] else [])
  {
    assert cols[..c + 1][..c] == cols[..c];
  }

  lemma LinksSnoc(row: Row, cols: seq<string>, c: nat)
    requires c < |cols|
    ensures var l := LinkOf(row, cols[c]);
      Links(row, cols[..c + 1]) == Links(row, cols[..c]) + (if l.Some? then [l.value] else [])
  {
    CollectSnoc(LinkFn(row), cols, c);
    assert LinkFn(row)(cols[c]) == LinkOf(row, cols[c]);
  }

  /** `get_links_from_row`: at most one link per column, each with a non-empty stripped text. */
  method GetLinksFromRow(row: Row) returns (links: seq<LinkInfo>)
    ensures links == LinksOf(row)
    ensures |links| <= |LinkColumns|
    ensures forall l :: l in links <==> exists k :: 0 <= k < |LinkColumns| && LinkOf(row, LinkColumns[k]) == Some(l)
  {
    links := [];
    var c := 0;
    while c < |LinkColumns|
      invariant 0 <= c <= |LinkColumns|
      invariant links == Links(row, LinkColumns[..c])
    {
      LinksSnoc(row, LinkColumns, c);
      var linkCol := LinkColumns[c];
      if linkCol in row && row[linkCol] != Null && row[linkCol] != Str("") {
        var linkData := row[linkCol];
        if linkData.Link? {
          var text := Strip(linkData.text);
          var url := Strip(linkData.url);
          if text != "" {
            links := links + [LinkInfo(text, url, linkCol)];
          }
        }
      }
      c := c + 1;
    }
    assert LinkColumns[..c] == LinkColumns;
    LinksMembers(row, LinkColumns);
  }

  // ---------------------------------------------------------------------------
  // validate_row_data
  // ---------------------------------------------------------------------------

  /** `col in row_data and str(row_data[col]).strip()`: a dictionary or `None` prints as a
      non-blank text. */
  predicate Filled(row: Row, col: string) {
    col in row && !(row[col].Str? && IsBlank(row[col].s))
  }

  function ColumnError(col: string): string { "Colonne '" + col + "' manquante ou vide" }

  const NoLinkError: string := "Aucun lien externe trouvé"

  /** One error per column of `cols` that is missing or blank, in order. */
  function ColumnErrors(row: Row, cols: seq<string>): (es: seq<string>)
    ensures |es| <= |cols|
    decreases |cols|
  {
    if cols == [] then []
    else ColumnErrors(row, cols[..|cols| - 1]) + (if Filled(row, cols[|cols| - 1]) then [] else [ColumnError(cols[|cols| - 1])])
  }

  function RowErrors(row: Row): seq<string> {
    ColumnErrors(row, RequiredColumns) + (if LinksOf(row) == [] then [NoLinkError] else [])
  }

  /** No column error exactly when every column is filled. */
  lemma {:induction false} NoColumnErrors(row: Row, cols: seq<string>)
    ensures ColumnErrors(row, cols) == [] <==> forall k :: 0 <= k < |cols| ==> Filled(row, cols[k])
    decreases |cols|
  {
    if cols != [] {
      var init := cols[..|cols| - 1];
      NoColumnErrors(row, init);
      assert forall k :: 0 <= k < |init| ==> init[k] == cols[k];
    }
  }

  /** A row is valid exactly when its three required columns are filled and it has a link. */
  lemma ValidRow(row: Row)
    ensures RowErrors(row) == [] <==> Filled(row, Skills) && Filled(row, Themes) && Filled(row, Subjects) && LinksOf(row) != []
  {
    NoColumnErrors(row, RequiredColumns);
    assert RequiredColumns[0] == Skills && RequiredColumns[1] == Themes && RequiredColumns[2] == Subjects;
    assert (forall k :: 0 <= k < |RequiredColumns| ==> Filled(row, RequiredColumns[k])) <==>
      Filled(row, RequiredColumns[0]) && Filled(row, RequiredColumns[1]) && Filled(row, RequiredColumns[2]);
  }

  /** `validate_row_data` */
  method ValidateRowData(row: Row) returns (isValid: bool, errors: seq<string>)
    ensures errors == RowErrors(row)
    ensures isValid <==> errors == []
  {
    errors := [];
    var c := 0;
    while c < |RequiredColumns|
      invariant 0 <= c <= |RequiredColumns|
      invariant errors == ColumnErrors(row, RequiredColumns[..c])
    {
      assert RequiredColumns[..c + 1][..c] == RequiredColumns[..c];
      var col := RequiredColumns[c];
      if col in row && row[col].Str? {
        StripEmptyIffBlank(row[col].s);
      }
      if col !in row || (row[col].Str? && Strip(row[col].s) == "") {
        errors := errors + [ColumnError(col)];
      }
      c := c + 1;
    }
    assert RequiredColumns[..c] == RequiredColumns;
    var links := GetLinksFromRow(row);
    if links == [] {
      errors := errors + [NoLinkError];
    }
    isValid := |errors| == 0;
  }

  // ---------------------------------------------------------------------------
  // get_summary_stats
  // ---------------------------------------------------------------------------

  /** A counting dictionary, as its items in insertion order. */
  type Counts = seq<(Value, nat)>

  /** `counts[key] = counts.get(key, 0) + 1` */
  function Bump(counts: Counts, key: Value): (c: Counts)
    decreases |counts|
  {
    if counts == [] then [(key, 1)]
    else if counts[0].0 == key then [(key, counts[0].1 + 1)] + counts[1..]
    else [counts[0]] + Bump(counts[1..], key)
  }

  /** `counts.get(key, 0)` */
  function CountOf(counts: Counts, key: Value): nat
    decreases |counts|
  {
    if counts == [] then 0 else (if counts[0].0 == key then counts[0].1 else 0) + CountOf(counts[1..], key)
  }

  /** The sum of the counts. */
  function Total(counts: Counts): nat
    decreases |counts|
  {
    if counts == [] then 0 else counts[0].1 + Total(counts[1..])
  }

  predicate DistinctKeys(counts: Counts) {
    forall i, j :: 0 <= i < j < |counts| ==> counts[i].0 != counts[j].0
  }

  /** Bumping a key counts it once more, leaves the other keys alone, adds one to the total
      and keeps the keys distinct. */
  lemma {:induction false} BumpCounts(counts: Counts, key: Value)
    ensures forall k :: CountOf(Bump(counts, key), k) == CountOf(counts, k) + (if k == key then 1 else 0)
    ensures Total(Bump(counts, key)) == Total(counts) + 1
    ensures forall k :: k in KeysOf(Bump(counts, key)) <==> k in KeysOf(counts) || k == key
    ensures DistinctKeys(counts) ==> DistinctKeys(Bump(counts, key))
  {
    BumpCount(counts, key);
    BumpTotal(counts, key);
    BumpKeys(counts, key);
    if DistinctKeys(counts) {
      BumpDistinct(counts, key);
    }
  }

  lemma {:induction false} BumpCount(counts: Counts, key: Value)
    ensures forall k :: CountOf(Bump(counts, key), k) == CountOf(counts, k) + (if k == key then 1 else 0)
    decreases |counts|
  {
    if counts != [] && counts[0].0 != key {
      BumpCount(counts[1..], key);
      assert Bump(counts, key)[1..] == Bump(counts[1..], key);
    } else if counts != [] {
      assert Bump(counts, key)[1..] == counts[1..];
    }
  }

  lemma {:induction false} BumpTotal(counts: Counts, key: Value)
    ensures Total(Bump(counts, key)) == Total(counts) + 1
    decreases |counts|
  {
    if counts != [] && counts[0].0 != key {
      BumpTotal(counts[1..], key);
      assert Bump(counts, key)[1..] == Bump(counts[1..], key);
    } else if counts != [] {
      assert Bump(counts, key)[1..] == counts[1..];
    }
  }

  lemma {:induction false} BumpKeys(counts: Counts, key: Value)
    ensures forall k :: k in KeysOf(Bump(counts, key)) <==> k in KeysOf(counts) || k == key
    decreases |counts|
  {
    if counts != [] && counts[0].0 != key {
      BumpKeys(counts[1..], key);
      var b := Bump(counts, key);
      assert b[1..] == Bump(counts[1..], key);
      assert KeysOf(b) == [counts[0].0] + KeysOf(Bump(counts[1..], key));
      assert KeysOf(counts) == [counts[0].0] + KeysOf(counts[1..]);
    } else if counts != [] {
      var b := Bump(counts, key);
      assert forall i :: 0 <= i < |b| ==> b[i].0 == counts[i].0;
      assert KeysOf(b) == KeysOf(counts);
    } else {
      assert KeysOf(Bump(counts, key)) == [key];
    }
  }

  lemma {:induction false} BumpDistinct(counts: Counts, key: Value)
    requires DistinctKeys(counts)
    ensures DistinctKeys(Bump(counts, key))
    decreases |counts|
  {
    if counts != [] && counts[0].0 != key {
      var rest := counts[1..];
      assert DistinctKeys(rest) by {
        forall i, j | 0 <= i < j < |rest| ensures rest[i].0 != rest[j].0 {
          assert rest[i] == counts[i + 1] && rest[j] == counts[j + 1];
        }
      }
      BumpDistinct(rest, key);
      BumpKeys(rest, key);
      var b := Bump(counts, key);
      var br := Bump(rest, key);
      assert b[1..] == br;
      assert forall i :: 0 <= i < |rest| ==> rest[i].0 != counts[0].0 by {
        forall i | 0 <= i < |rest| ensures rest[i].0 != counts[0].0 {
          assert rest[i] == counts[i + 1];
        }
      }
      assert counts[0].0 !in KeysOf(rest);
      forall i, j | 0 <= i < j < |b| ensures b[i].0 != b[j].0 {
        assert b[j] == br[j - 1];
        if i == 0 {
          assert b[j].0 in KeysOf(br);
        } else {
          assert b[i] == br[i - 1];
        }
      }
    } else if counts != [] {
      var b := Bump(counts, key);
      assert b[1..] == counts[1..];
      forall i, j | 0 <= i < j < |b| ensures b[i].0 != b[j].0 {
        assert b[j] == counts[j];
        if i > 0 { assert b[i] == counts[i]; }
      }
    }
  }

  function KeysOf(counts: Counts): (ks: seq<Value>)
    ensures |ks| == |counts| && forall i :: 0 <= i < |counts| ==> ks[i] == counts[i].0
  {
    seq(|counts|, i requires 0 <= i < |counts| => counts[i].0)
  }

  const NotSpecified: Value := Str("Non spécifié")

  /** `row.get(col, 'Non spécifié')` */
  function KeyOf(row: Row, col: string): Value {
    if col in row then row[col] else NotSpecified
  }

  /** The number of rows whose value under `col` is `key`. */
  function RowsWith(rows: seq<Row>, col: string, key: Value): (n: nat)
    ensures n <= |rows|
    decreases |rows|
  {
    if rows == [] then 0 else RowsWith(rows[..|rows| - 1], col, key) + (if KeyOf(rows[|rows| - 1], col) == key then 1 else 0)
  }

  /** The number of rows with at least one link, and the number of links in all. */
  function RowsWithLinks(rows: seq<Row>): (n: nat)
    ensures n <= |rows|
    decreases |rows|
  {
    if rows == [] then 0 else RowsWithLinks(rows[..|rows| - 1]) + (if LinksOf(rows[|rows| - 1]) != [] then 1 else 0)
  }

  function TotalLinks(rows: seq<Row>): nat
    decreases |rows|
  {
    if rows == [] then 0 else TotalLinks(rows[..|rows| - 1]) + |LinksOf(rows[|rows| - 1])|
  }

  /** Every row with links has between one and four of them. */
  lemma {:induction false} LinkTotals(rows: seq<Row>)
    ensures RowsWithLinks(rows) <= TotalLinks(rows) <= 4 * RowsWithLinks(rows)
    ensures TotalLinks(rows) == 0 <==> RowsWithLinks(rows) == 0
    decreases |rows|
  {
    if rows != [] {
      LinkTotals(rows[..|rows| - 1]);
      assert |LinksOf(rows[|rows| - 1])| <= 4;
    }
  }

  /** What one more row adds to each of the running totals. */
  lemma PrefixStep(rows: seq<Row>, i: nat)
    requires i < |rows|
    ensures forall col, k :: RowsWith(rows[..i + 1], col, k) == RowsWith(rows[..i], col, k) + (if KeyOf(rows[i], col) == k then 1 else 0)
    ensures RowsWithLinks(rows[..i + 1]) == RowsWithLinks(rows[..i]) + (if LinksOf(rows[i]) != [] then 1 else 0)
    ensures TotalLinks(rows[..i + 1]) == TotalLinks(rows[..i]) + |LinksOf(rows[i])|
  {
    assert rows[..i + 1][..i] == rows[..i] && rows[..i + 1][i] == rows[i];
  }

  datatype Stats = Stats(totalRows: nat, rowsWithLinks: nat, totalLinks: nat, thematiques: Counts, competences: Counts)

  /** `get_summary_stats` */
  method GetSummaryStats(rows: seq<Row>) returns (stats: Stats)
    ensures stats.totalRows == |rows|
    ensures stats.rowsWithLinks == RowsWithLinks(rows) && stats.totalLinks == TotalLinks(rows)
    ensures stats.rowsWithLinks <= stats.totalRows
    ensures stats.rowsWithLinks <= stats.totalLinks <= 4 * stats.rowsWithLinks
    ensures stats.totalLinks == 0 <==> stats.rowsWithLinks == 0
    ensures Total(stats.thematiques) == |rows| && Total(stats.competences) == |rows|
    ensures DistinctKeys(stats.thematiques) && DistinctKeys(stats.competences)
    ensures forall k :: CountOf(stats.thematiques, k) == RowsWith(rows, Themes, k)
    ensures forall k :: CountOf(stats.competences, k) == RowsWith(rows, Skills, k)
  {
    stats := Stats(|rows|, 0, 0, [], []);
    var i := 0;
    while i < |rows|
      invariant 0 <= i <= |rows| && stats.totalRows == |rows|
      invariant stats.rowsWithLinks == RowsWithLinks(rows[..i]) && stats.totalLinks == TotalLinks(rows[..i])
      invariant Total(stats.thematiques) == i && Total(stats.competences) == i
      invariant DistinctKeys(stats.thematiques) && DistinctKeys(stats.competences)
      invariant forall k :: CountOf(stats.thematiques, k) == RowsWith(rows[..i], Themes, k)
      invariant forall k :: CountOf(stats.competences, k) == RowsWith(rows[..i], Skills, k)
    {
      var row := rows[i];
      PrefixStep(rows, i);
      var links := GetLinksFromRow(row);
      if links != [] {
        stats := stats.(rowsWithLinks := stats.rowsWithLinks + 1, totalLinks := stats.totalLinks + |links|);
      }
      var them := KeyOf(row, Themes);
      BumpCounts(stats.thematiques, them);
      stats := stats.(thematiques := Bump(stats.thematiques, them));
      var comp := KeyOf(row, Skills);
      BumpCounts(stats.competences, comp);
      stats := stats.(competences := Bump(stats.competences, comp));
      i := i + 1;
    }
    assert rows[..i] == rows;
    LinkTotals(rows);
  }
}
