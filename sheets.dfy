/**
 * The Google Sheets reader behind sheet-backed feeds: a sheet's values grid is turned into mod
 * rows by locating its columns from the header row, rows are compared with the previous
 * snapshot to find version changes, and spreadsheet and tab ids are read out of a sheet's URL.
 * The HTTP answers (values grid, sheet list, Drive metadata) are passed in; an unset API key is
 * the empty string.
 */
module Sheets {
  import opened Wrappers
  import opened Text

  /** A cell of the values grid; `None` for a cell past the end of a short row. */
  type Cell = Option<string>
  type Row = seq<Cell>

  /** A mod's line in the sheet. */
  datatype SheetRow = SheetRow(modName: string, version: string, lastUpdate: string, downloadUrl: Option<string>, status: Option<string>)

  /** A mod whose version differs from the previous snapshot, or that it did not hold. */
  datatype SheetChange = SheetChange(modName: string, oldVersion: Option<string>, newVersion: string, lastUpdate: string, downloadUrl: Option<string>)

  /** The values request: a failure with its error message, or the grid (`[]` when it has no values). */
  datatype ValuesAnswer = ValuesFailed(message: string) | Values(grid: seq<Row>)

  const ApiKeyMissing: string := "Google Sheets API key not configured"
  const DefaultTitle: string := "Sheet1"

  const ModNameColumns: seq<string> := ["mod name", "name", "mod"]
  const VersionColumns: seq<string> := ["version", "ver", "latest version"]
  const UpdateColumns: seq<string> := ["last update", "updated", "date"]
  const UrlColumns: seq<string> := ["download", "url", "link"]
  const StatusColumns: seq<string> := ["status", "state"]

  // ---------------------------------------------------------------------------------------
  // findColumnIndex
  // ---------------------------------------------------------------------------------------

  /** A header as compared: lower-cased and trimmed, "" for a missing cell. */
  function HeaderText(h: Cell): string
  {
    if h.None? then "" else Trim(Lower(h.value))
  }

  function HeaderTexts(headers: Row): (r: seq<string>)
    ensures |r| == |headers|
  {
    seq(|headers|, i requires 0 <= i < |headers| => HeaderText(headers[i]))
  }

  /** `findIndex(h => h.includes(name))` from position `from` on. */
  function FirstContaining(hs: seq<string>, name: string, from: nat): int
    decreases |hs| - from
  {
    if from >= |hs| then -1
    else if Contains(hs[from], name) then from
    else FirstContaining(hs, name, from + 1)
  }

  /** The column of the first name, in the order given, that some header contains. */
  function ColumnIndex(hs: seq<string>, names: seq<string>): int
  {
    if |names| == 0 then -1
    else
      var i := FirstContaining(hs, names[0], 0);
      if i != -1 then i else ColumnIndex(hs, names[1..])
  }

  /** findColumnIndex: tries each candidate name in turn against the normalised headers. */
  method FindColumnIndex(headers: Row, possibleNames: seq<string>) returns (index: int)
    ensures index == ColumnIndex(HeaderTexts(headers), possibleNames)
  {
    var normalized := HeaderTexts(headers);
    var n := 0;
    while n < |possibleNames|
      invariant 0 <= n <= |possibleNames|
      invariant ColumnIndex(normalized, possibleNames) == ColumnIndex(normalized, possibleNames[n..])
    {
      var name := possibleNames[n];
      var i := 0;
      while i < |normalized| && !Contains(normalized[i], name)
        invariant 0 <= i <= |normalized|
        invariant FirstContaining(normalized, name, 0) == FirstContaining(normalized, name, i)
      {
        i := i + 1;
      }
      assert possibleNames[n..][0] == name && possibleNames[n..][1..] == possibleNames[n + 1..];
      if i < |normalized| {
        return i;
      }
      n := n + 1;
    }
    return -1;
  }

  lemma {:induction false} FirstContainingMeaning(hs: seq<string>, name: string, from: nat)
    ensures var r := FirstContaining(hs, name, from);
      (r == -1 ==> forall i :: from <= i < |hs| ==> !Contains(hs[i], name))
      && (r != -1 ==> from <= r < |hs| && Contains(hs[r], name)
                      && forall i :: from <= i < r ==> !Contains(hs[i], name))
    decreases |hs| - from
  {
    if from < |hs| && !Contains(hs[from], name) {
      FirstContainingMeaning(hs, name, from + 1);
    }
  }

  /**
   * The column found is the first header holding the earliest candidate name that any header
   * holds: no header holds an earlier candidate, and no header before it holds that one; -1
   * exactly when no header holds any candidate.
   */
  lemma {:induction false} ColumnIndexMeaning(hs: seq<string>, names: seq<string>)
    ensures var r := ColumnIndex(hs, names);
      (r == -1 <==> forall n, i :: 0 <= n < |names| && 0 <= i < |hs| ==> !Contains(hs[i], names[n]))
      && (r != -1 ==>
            0 <= r < |hs|
            && exists n :: 0 <= n < |names| && Contains(hs[r], names[n])
                 && (forall i :: 0 <= i < r ==> !Contains(hs[i], names[n]))
                 && (forall m, i :: 0 <= m < n && 0 <= i < |hs| ==> !Contains(hs[i], names[m])))
  {
    if |names| > 0 {
      FirstContainingMeaning(hs, names[0], 0);
      var i := FirstContaining(hs, names[0], 0);
      if i == -1 {
        ColumnIndexMeaning(hs, names[1..]);
        var r := ColumnIndex(hs, names[1..]);
        if r != -1 {
          var n :| 0 <= n < |names[1..]| && Contains(hs[r], names[1..][n])
                 && (forall i :: 0 <= i < r ==> !Contains(hs[i], names[1..][n]))
                 && (forall m, i :: 0 <= m < n && 0 <= i < |hs| ==> !Contains(hs[i], names[1..][m]));
          assert Contains(hs[r], names[n + 1]);
          forall m, j | 0 <= m < n + 1 && 0 <= j < |hs|
            ensures !Contains(hs[j], names[m])
          {
            if m > 0 {
              assert names[m] == names[1..][m - 1];
            }
          }
        } else {
          forall n, j | 0 <= n < |names| && 0 <= j < |hs|
            ensures !Contains(hs[j], names[n])
          {
            if n > 0 {
              assert names[n] == names[1..][n - 1];
            }
          }
        }
      }
    }
  }

  // ---------------------------------------------------------------------------------------
  // fetchSheetData
  // ---------------------------------------------------------------------------------------

  /** The five column positions (-1 when absent). */
  datatype Columns = Columns(modName: int, version: int, lastUpdate: int, url: int, status: int)

  function ColumnsOf(headers: Row): Columns
  {
    var hs := HeaderTexts(headers);
    Columns(ColumnIndex(hs, ModNameColumns), ColumnIndex(hs, VersionColumns), ColumnIndex(hs, UpdateColumns),
            ColumnIndex(hs, UrlColumns), ColumnIndex(hs, StatusColumns))
  }

  /** `row[i]`: nothing for -1 or past the end of the row. */
  function CellAt(row: Row, i: int): Cell
  {
    if 0 <= i < |row| then row[i] else None
  }

  predicate Truthy(c: Cell) { c.Some? && c.value != "" }

  /** `cell?.toString().trim() || ''`. */
  function TextOr(c: Cell): string
  {
    if c.None? then "" else Trim(c.value)
  }

  /** `cell?.toString().trim()`, left undefined for a missing cell. */
  function OptText(c: Cell): Option<string>
  {
    if c.None? then None else Some(Trim(c.value))
  }

  /** A data row is kept when the mod-name column exists and its raw cell is non-empty. */
  predicate Listed(row: Row, cols: Columns)
  {
    cols.modName != -1 && Truthy(CellAt(row, cols.modName))
  }

  function RowOf(row: Row, cols: Columns): SheetRow
  {
    SheetRow(TextOr(CellAt(row, cols.modName)),
             if cols.version != -1 then TextOr(CellAt(row, cols.version)) else "",
             if cols.lastUpdate != -1 then TextOr(CellAt(row, cols.lastUpdate)) else "",
             if cols.url != -1 then OptText(CellAt(row, cols.url)) else None,
             if cols.status != -1 then OptText(CellAt(row, cols.status)) else None)
  }

  /** The kept data rows, in sheet order. */
  function SheetRows(body: seq<Row>, cols: Columns): seq<SheetRow>
  {
    if |body| == 0 then []
    else
      var last := body[|body| - 1];
      SheetRows(body[..|body| - 1], cols) + (if Listed(last, cols) then [RowOf(last, cols)] else [])
  }

  /** The rows a grid yields: none for an empty grid; otherwise the header row locates the columns. */
  function SheetData(grid: seq<Row>): seq<SheetRow>
  {
    if |grid| == 0 then [] else SheetRows(grid[1..], ColumnsOf(grid[0]))
  }

  /**
   * fetchSheetData: fails without an API key or when the request fails (the error is passed
   * on); otherwise reads the grid's rows after the header.
   */
  method FetchSheetData(apiKey: string, answer: ValuesAnswer) returns (r: Result<seq<SheetRow>>)
    ensures apiKey == "" ==> r == Err(ApiKeyMissing)
    ensures apiKey != "" && answer.ValuesFailed? ==> r == Err(answer.message)
    ensures apiKey != "" && answer.Values? ==> r == Ok(SheetData(answer.grid))
  {
    if apiKey == "" {
      return Err(ApiKeyMissing);
    }
    if answer.ValuesFailed? {
      return Err(answer.message);
    }
    var rows := answer.grid;
    if |rows| == 0 {
      return Ok([]);
    }
    var headers := rows[0];
    var modNameIndex := FindColumnIndex(headers, ModNameColumns);
    var versionIndex := FindColumnIndex(headers, VersionColumns);
    var updateIndex := FindColumnIndex(headers, UpdateColumns);
    var urlIndex := FindColumnIndex(headers, UrlColumns);
    var statusIndex := FindColumnIndex(headers, StatusColumns);
    var cols := Columns(modNameIndex, versionIndex, updateIndex, urlIndex, statusIndex);
    assert cols == ColumnsOf(headers);
    var data := ReadRows(rows[1..], cols);
    return Ok(data);
  }

  /** The row loop of fetchSheetData. */
  method ReadRows(body: seq<Row>, cols: Columns) returns (data: seq<SheetRow>)
    ensures data == SheetRows(body, cols)
  {
    data := [];
    var i := 0;
    while i < |body|
      invariant 0 <= i <= |body|
      invariant data == SheetRows(body[..i], cols)
    {
      var row := body[i];
      assert body[..i + 1][..i] == body[..i];
      if cols.modName == -1 || !Truthy(CellAt(row, cols.modName)) {
        i := i + 1;
        continue;
      }
      data := data + [RowOf(row, cols)];
      i := i + 1;
    }
    assert body[..i] == body;
  }

  /** Kept rows come from listed data rows, and every listed data row is kept. */
  lemma {:induction false} SheetRowsMembers(body: seq<Row>, cols: Columns)
    ensures |SheetRows(body, cols)| <= |body|
    ensures forall r :: r in SheetRows(body, cols) <==> exists j :: 0 <= j < |body| && Listed(body[j], cols) && r == RowOf(body[j], cols)
  {
    if |body| > 0 {
      var front := body[..|body| - 1];
      var last := body[|body| - 1];
      SheetRowsMembers(front, cols);
      var out := SheetRows(body, cols);
      assert out == SheetRows(front, cols) + (if Listed(last, cols) then [RowOf(last, cols)] else []);
      forall r
        ensures r in out <==> exists j :: 0 <= j < |body| && Listed(body[j], cols) && r == RowOf(body[j], cols)
      {
        if r in SheetRows(front, cols) {
          var j :| 0 <= j < |front| && Listed(front[j], cols) && r == RowOf(front[j], cols);
          assert body[j] == front[j];
        } else if r in out {
          assert Listed(body[|body| - 1], cols) && r == RowOf(body[|body| - 1], cols);
        }
      }
    }
  }

  /** Without a mod-name column no row is kept. */
  lemma {:induction false} SheetRowsWithoutNames(body: seq<Row>, cols: Columns)
    requires cols.modName == -1
    ensures SheetRows(body, cols) == []
  {
    if |body| > 0 {
      SheetRowsWithoutNames(body[..|body| - 1], cols);
    }
  }

  /**
   * What a grid yields: nothing without a mod-name column; at most one row per data row; and
   * exactly the rows of the listed data rows.
   */
  lemma SheetDataMeaning(grid: seq<Row>)
    requires |grid| > 0
    ensures var cols := ColumnsOf(grid[0]); var out := SheetData(grid);
      (cols.modName == -1 ==> out == [])
      && |out| < |grid|
      && (forall r :: r in out <==> exists j :: 1 <= j < |grid| && Listed(grid[j], cols) && r == RowOf(grid[j], cols))
  {
    var cols := ColumnsOf(grid[0]);
    var body := grid[1..];
    SheetRowsMembers(body, cols);
    if cols.modName == -1 {
      SheetRowsWithoutNames(body, cols);
    }
    var out := SheetData(grid);
    assert out == SheetRows(body, cols);
    forall r | r in out
      ensures exists j :: 1 <= j < |grid| && Listed(grid[j], cols) && r == RowOf(grid[j], cols)
    {
      var j :| 0 <= j < |body| && Listed(body[j], cols) && r == RowOf(body[j], cols);
      assert grid[j + 1] == body[j];
    }
    forall j | 1 <= j < |grid| && Listed(grid[j], cols)
      ensures RowOf(grid[j], cols) in out
    {
      assert grid[j] == body[j - 1];
    }
  }

  /** Every text field of a row read from the sheet is already trimmed. */
  lemma RowOfTrimmed(row: Row, cols: Columns)
    ensures var r := RowOf(row, cols);
      Trim(r.modName) == r.modName && Trim(r.version) == r.version && Trim(r.lastUpdate) == r.lastUpdate
      && (r.downloadUrl.Some? ==> Trim(r.downloadUrl.value) == r.downloadUrl.value)
      && (r.status.Some? ==> Trim(r.status.value) == r.status.value)
      && (cols.url == -1 ==> r.downloadUrl.None?)
      && (cols.status == -1 ==> r.status.None?)
  {
    forall c: Cell ensures Trim(TextOr(c)) == TextOr(c) && (OptText(c).Some? ==> Trim(OptText(c).value) == OptText(c).value) {
      if c.Some? {
        TrimIdempotent(c.value);
      } else {
        assert Trim("") == "";
      }
    }
    assert Trim("") == "";
  }

  // ---------------------------------------------------------------------------------------
  // buildDataMap
  // ---------------------------------------------------------------------------------------

  /** Rows by mod name, rows with an empty name left out, a later row replacing an earlier one. */
  function DataMap(rows: seq<SheetRow>): map<string, SheetRow>
  {
    if |rows| == 0 then map[]
    else
      var m := DataMap(rows[..|rows| - 1]);
      var last := rows[|rows| - 1];
      if last.modName != "" then m[last.modName := last] else m
  }

  method BuildDataMap(rows: seq<SheetRow>) returns (m: map<string, SheetRow>)
    ensures m == DataMap(rows)
  {
    m := map[];
    var i := 0;
    while i < |rows|
      invariant 0 <= i <= |rows|
      invariant m == DataMap(rows[..i])
    {
      assert rows[..i + 1][..i] == rows[..i];
      var row := rows[i];
      if row.modName != "" {
        m := m[row.modName := row];
      }
      i := i + 1;
    }
    assert rows[..i] == rows;
  }

  /** The map's keys are exactly the non-empty mod names of the rows. */
  lemma {:induction false} DataMapKeys(rows: seq<SheetRow>)
    ensures forall k :: k in DataMap(rows) <==> k != "" && exists j :: 0 <= j < |rows| && rows[j].modName == k
  {
    if |rows| > 0 {
      var front := rows[..|rows| - 1];
      DataMapKeys(front);
      assert forall j :: 0 <= j < |front| ==> front[j] == rows[j];
      forall k
        ensures k in DataMap(rows) <==> k != "" && exists j :: 0 <= j < |rows| && rows[j].modName == k
      {
        if k in DataMap(front) {
          var j :| 0 <= j < |front| && front[j].modName == k;
          assert rows[j] == front[j];
        }
      }
    }
  }

  /** Each name maps to the last row carrying it. */
  lemma {:induction false} DataMapLastWins(rows: seq<SheetRow>, j: nat)
    requires j < |rows| && rows[j].modName != ""
    requires forall j' :: j < j' < |rows| ==> rows[j'].modName != rows[j].modName
    ensures rows[j].modName in DataMap(rows) && DataMap(rows)[rows[j].modName] == rows[j]
  {
    if j < |rows| - 1 {
      var front := rows[..|rows| - 1];
      assert front[j] == rows[j];
      assert rows[|rows| - 1].modName != rows[j].modName;
      forall j' | j < j' < |front|
        ensures front[j'].modName != front[j].modName
      {
        assert front[j'] == rows[j'];
      }
      DataMapLastWins(front, j);
    }
  }

  // ---------------------------------------------------------------------------------------
  // detectChanges
  // ---------------------------------------------------------------------------------------

  /** The change one row shows against the previous snapshot, if any. */
  function ChangeOf(row: SheetRow, previous: map<string, SheetRow>): Option<SheetChange>
  {
    if row.modName == "" || row.version == "" then None
    else if row.modName !in previous then
      Some(SheetChange(row.modName, None, row.version, row.lastUpdate, row.downloadUrl))
    else if previous[row.modName].version != row.version then
      Some(SheetChange(row.modName, Some(previous[row.modName].version), row.version, row.lastUpdate, row.downloadUrl))
    else None
  }

  function Changes(rows: seq<SheetRow>, previous: map<string, SheetRow>): seq<SheetChange>
  {
    if |rows| == 0 then []
    else
      var c := ChangeOf(rows[|rows| - 1], previous);
      Changes(rows[..|rows| - 1], previous) + (if c.Some? then [c.value] else [])
  }

  /** detectChanges: reads the sheet, then compares each named, versioned row with the snapshot. */
  method DetectChanges(apiKey: string, answer: ValuesAnswer, previous: map<string, SheetRow>)
    returns (r: Result<seq<SheetChange>>)
    ensures apiKey == "" ==> r == Err(ApiKeyMissing)
    ensures apiKey != "" && answer.ValuesFailed? ==> r == Err(answer.message)
    ensures apiKey != "" && answer.Values? ==> r == Ok(Changes(SheetData(answer.grid), previous))
  {
    var fetched := FetchSheetData(apiKey, answer);
    if fetched.Err? {
      return Err(fetched.error);
    }
    var currentData := fetched.value;
    var changes: seq<SheetChange> := [];
    var i := 0;
    while i < |currentData|
      invariant 0 <= i <= |currentData|
      invariant changes == Changes(currentData[..i], previous)
    {
      assert currentData[..i + 1][..i] == currentData[..i];
      var row := currentData[i];
      if row.modName == "" || row.version == "" {
        i := i + 1;
        continue;
      }
      if row.modName !in previous {
        changes := changes + [SheetChange(row.modName, None, row.version, row.lastUpdate, row.downloadUrl)];
      } else if previous[row.modName].version != row.version {
        changes := changes + [SheetChange(row.modName, Some(previous[row.modName].version), row.version, row.lastUpdate, row.downloadUrl)];
      }
      i := i + 1;
    }
    assert currentData[..i] == currentData;
    return Ok(changes);
  }

  /** What a change says: a named, versioned mod that is new, or whose version moved from the snapshot's. */
  predicate SoundChange(c: SheetChange, previous: map<string, SheetRow>)
  {
    c.modName != "" && c.newVersion != ""
    && (c.oldVersion.None? <==> c.modName !in previous)
    && (c.oldVersion.Some? ==> c.oldVersion.value == previous[c.modName].version && c.oldVersion.value != c.newVersion)
  }

  /** A row the snapshot does not account for: named and versioned, and new or at another version. */
  predicate Changed(row: SheetRow, previous: map<string, SheetRow>)
  {
    row.modName != "" && row.version != ""
    && (row.modName !in previous || previous[row.modName].version != row.version)
  }

  /** The changes are exactly the changes of the individual rows. */
  lemma {:induction false} ChangesMembers(rows: seq<SheetRow>, previous: map<string, SheetRow>)
    ensures forall c :: c in Changes(rows, previous) <==> exists j :: 0 <= j < |rows| && ChangeOf(rows[j], previous) == Some(c)
  {
    if |rows| > 0 {
      var front := rows[..|rows| - 1];
      ChangesMembers(front, previous);
      assert forall j :: 0 <= j < |front| ==> front[j] == rows[j];
      forall c
        ensures c in Changes(rows, previous) <==> exists j :: 0 <= j < |rows| && ChangeOf(rows[j], previous) == Some(c)
      {
        if c in Changes(front, previous) {
          var j :| 0 <= j < |front| && ChangeOf(front[j], previous) == Some(c);
          assert rows[j] == front[j];
        } else if c in Changes(rows, previous) {
          assert ChangeOf(rows[|rows| - 1], previous) == Some(c);
        }
      }
    }
  }

  /** The change a changed row reports. */
  function ChangeFor(row: SheetRow, previous: map<string, SheetRow>): SheetChange
  {
    SheetChange(row.modName, if row.modName in previous then Some(previous[row.modName].version) else None,
                row.version, row.lastUpdate, row.downloadUrl)
  }

  /** Every change reported is sound and comes from a changed row of the sheet, with its version. */
  lemma ChangesSound(rows: seq<SheetRow>, previous: map<string, SheetRow>)
    ensures forall c :: c in Changes(rows, previous) ==> SoundChange(c, previous)
    ensures forall c :: c in Changes(rows, previous) ==>
              exists j :: 0 <= j < |rows| && Changed(rows[j], previous) && rows[j].modName == c.modName && rows[j].version == c.newVersion
  {
    ChangesMembers(rows, previous);
    forall c | c in Changes(rows, previous)
      ensures SoundChange(c, previous)
      ensures exists j :: 0 <= j < |rows| && Changed(rows[j], previous) && rows[j].modName == c.modName && rows[j].version == c.newVersion
    {
      var j :| 0 <= j < |rows| && ChangeOf(rows[j], previous) == Some(c);
    }
  }

  /** Every changed row is reported, with its version and link; nothing is reported exactly when no row changed. */
  lemma ChangesComplete(rows: seq<SheetRow>, previous: map<string, SheetRow>)
    ensures forall j :: 0 <= j < |rows| && Changed(rows[j], previous) ==> ChangeFor(rows[j], previous) in Changes(rows, previous)
    ensures Changes(rows, previous) == [] <==> forall j :: 0 <= j < |rows| ==> !Changed(rows[j], previous)
  {
    ChangesMembers(rows, previous);
    var out := Changes(rows, previous);
    forall j | 0 <= j < |rows| && Changed(rows[j], previous)
      ensures ChangeFor(rows[j], previous) in out
    {
      assert ChangeOf(rows[j], previous) == Some(ChangeFor(rows[j], previous));
    }
    if out != [] {
      assert out[0] in out;
    }
  }

  /**
   * Comparing a sheet with the snapshot built from that same sheet reports nothing, provided no
   * two rows share a mod name (with a repeated name the snapshot keeps only the last row).
   */
  lemma SnapshotOfSameRowsHasNoChanges(rows: seq<SheetRow>)
    requires forall i, j :: 0 <= i < j < |rows| && rows[i].modName != "" ==> rows[i].modName != rows[j].modName
    ensures Changes(rows, DataMap(rows)) == []
  {
    ChangesComplete(rows, DataMap(rows));
    forall j | 0 <= j < |rows|
      ensures !Changed(rows[j], DataMap(rows))
    {
      if rows[j].modName != "" {
        DataMapLastWins(rows, j);
      }
    }
  }

  // ---------------------------------------------------------------------------------------
  // extractSpreadsheetId, extractSheetGid
  // ---------------------------------------------------------------------------------------

  /** `[a-zA-Z0-9-_]`. */
  predicate IdChar(c: char) { IsUpper(c) || IsLower(c) || IsDigit(c) || c == '-' || c == '_' }

  /** The longest prefix of `t` whose characters all satisfy `Q` (a greedy `+`/`*` run). */
  function Run(t: string, Q: char -> bool): string
  {
    if |t| == 0 || !Q(t[0]) then "" else [t[0]] + Run(t[1..], Q)
  }

  lemma {:induction false} RunMeaning(t: string, Q: char -> bool)
    ensures var r := Run(t, Q);
      |r| <= |t| && r == t[..|r|] && (forall i :: 0 <= i < |r| ==> Q(r[i])) && (|r| == |t| || !Q(t[|r|]))
  {
    if |t| > 0 && Q(t[0]) {
      RunMeaning(t[1..], Q);
    }
  }

  /** One of the markers (all of length `len`) ends at `k + len`, and a run character follows it. */
  predicate Hit(s: string, markers: seq<string>, len: nat, Q: char -> bool, k: nat)
  {
    k + len < |s| && (exists i :: 0 <= i < |markers| && OccursAt(s, markers[i], k)) && Q(s[k + len])
  }

  /**
   * The capture group of `marker(run+)` at the leftmost position from `k` on where the pattern
   * matches: the greedy run following the marker.
   */
  function Capture(s: string, markers: seq<string>, len: nat, Q: char -> bool, k: nat): Option<string>
    decreases |s| - k
  {
    if k + len >= |s| then None
    else if Hit(s, markers, len, Q, k) then Some(Run(s[k + len..], Q))
    else Capture(s, markers, len, Q, k + 1)
  }

  lemma {:induction false} CaptureMeaning(s: string, markers: seq<string>, len: nat, Q: char -> bool, k: nat)
    ensures var r := Capture(s, markers, len, Q, k);
      (r.None? <==> forall j :: k <= j ==> !Hit(s, markers, len, Q, j))
      && (r.Some? ==> exists j :: k <= j && Hit(s, markers, len, Q, j) && r.value == Run(s[j + len..], Q)
                        && forall j' :: k <= j' < j ==> !Hit(s, markers, len, Q, j'))
    decreases |s| - k
  {
    if k + len < |s| && !Hit(s, markers, len, Q, k) {
      CaptureMeaning(s, markers, len, Q, k + 1);
    }
  }

  const SpreadsheetMarker: string := "/spreadsheets/d/"
  const GidMarkers: seq<string> := ["#gid=", "&gid="]

  /** `url.match(/\/spreadsheets\/d\/([a-zA-Z0-9-_]+)/)?.[1]`. */
  function ExtractSpreadsheetId(url: string): Option<string>
  {
    Capture(url, [SpreadsheetMarker], |SpreadsheetMarker|, IdChar, 0)
  }

  /** `url.match(/[#&]gid=([0-9]+)/)?.[1]`. */
  function ExtractSheetGid(url: string): Option<string>
  {
    Capture(url, GidMarkers, 5, IsDigit, 0)
  }

  /** Whatever is extracted is a non-empty run of allowed characters. */
  lemma ExtractedIds(url: string)
    ensures ExtractSpreadsheetId(url).Some? ==>
              var id := ExtractSpreadsheetId(url).value; |id| > 0 && forall i :: 0 <= i < |id| ==> IdChar(id[i])
    ensures ExtractSheetGid(url).Some? ==>
              var gid := ExtractSheetGid(url).value; |gid| > 0 && AllDigits(gid)
  {
    CaptureMeaning(url, [SpreadsheetMarker], |SpreadsheetMarker|, IdChar, 0);
    CaptureMeaning(url, GidMarkers, 5, IsDigit, 0);
    if ExtractSpreadsheetId(url).Some? {
      var j :| 0 <= j && Hit(url, [SpreadsheetMarker], |SpreadsheetMarker|, IdChar, j)
               && ExtractSpreadsheetId(url).value == Run(url[j + |SpreadsheetMarker|..], IdChar);
      RunMeaning(url[j + |SpreadsheetMarker|..], IdChar);
    }
    if ExtractSheetGid(url).Some? {
      var j :| 0 <= j && Hit(url, GidMarkers, 5, IsDigit, j) && ExtractSheetGid(url).value == Run(url[j + 5..], IsDigit);
      RunMeaning(url[j + 5..], IsDigit);
    }
  }

  const SheetUrlPrefix: string := "https://docs.google.com/spreadsheets/d/"

  /** The link the Sheets editor shows for a tab: `…/spreadsheets/d/<id>/edit#gid=<gid>`. */
  function SheetUrl(id: string, gid: string): string
  {
    SheetUrlPrefix + id + "/edit#gid=" + gid
  }

  /** The run of `Q` characters at the front of `t + u` is `t` when `u` does not continue it. */
  lemma {:induction false} RunOfPrefix(t: string, u: string, Q: char -> bool)
    requires forall i :: 0 <= i < |t| ==> Q(t[i])
    requires |u| == 0 || !Q(u[0])
    ensures Run(t + u, Q) == t
  {
    if |t| > 0 {
      assert (t + u)[0] == t[0] && (t + u)[1..] == t[1..] + u;
      RunOfPrefix(t[1..], u, Q);
    } else {
      assert t + u == u;
    }
  }

  /** Before position 23 an editor link holds no "/s", so the marker cannot start there. */
  lemma NoEarlierMarker(s: string)
    requires StartsWith(s, SheetUrlPrefix)
    ensures forall j :: 0 <= j < 23 ==> !OccursAt(s, SpreadsheetMarker, j)
  {
    assert forall j :: 0 <= j < 23 ==> !(SheetUrlPrefix[j] == '/' && SheetUrlPrefix[j + 1] == 's');
    forall j | 0 <= j < 23
      ensures !OccursAt(s, SpreadsheetMarker, j)
    {
      assert s[j] == SheetUrlPrefix[j] && s[j + 1] == SheetUrlPrefix[j + 1];
      if j + |SpreadsheetMarker| <= |s| {
        assert s[j..j + |SpreadsheetMarker|][0] == s[j] && s[j..j + |SpreadsheetMarker|][1] == s[j + 1];
      }
    }
  }

  /** The spreadsheet id is read back from an editor link built from it. */
  lemma SpreadsheetIdRoundTrip(id: string, gid: string)
    requires |id| > 0 && forall i :: 0 <= i < |id| ==> IdChar(id[i])
    ensures ExtractSpreadsheetId(SheetUrl(id, gid)) == Some(id)
  {
    var s := SheetUrl(id, gid);
    var m := [SpreadsheetMarker];
    var L := |SpreadsheetMarker|;
    var edit := "/edit#gid=";
    assert s == SheetUrlPrefix + (id + (edit + gid));
    assert StartsWith(s, SheetUrlPrefix);
    assert s[23..23 + L] == SheetUrlPrefix[23..] == SpreadsheetMarker;
    assert s[23 + L] == id[0];
    assert OccursAt(s, m[0], 23);
    assert Hit(s, m, L, IdChar, 23);
    NoEarlierMarker(s);
    CaptureMeaning(s, m, L, IdChar, 0);
    assert s[23 + L..] == id + (edit + gid);
    RunOfPrefix(id, edit + gid, IdChar);
  }

  /** Neither '#' nor '&' occurs in an editor link before its tab id. */
  lemma NoHashBeforeGid(id: string)
    requires forall i :: 0 <= i < |id| ==> IdChar(id[i])
    ensures var front := SheetUrlPrefix + id + "/edit";
      forall j :: 0 <= j < |front| ==> front[j] != '#' && front[j] != '&'
  {
    var front := SheetUrlPrefix + id + "/edit";
    var p := |SheetUrlPrefix|;
    assert forall j :: 0 <= j < p ==> SheetUrlPrefix[j] != '#' && SheetUrlPrefix[j] != '&';
    assert forall j :: 0 <= j < 5 ==> "/edit"[j] != '#' && "/edit"[j] != '&';
    forall j | 0 <= j < |front|
      ensures front[j] != '#' && front[j] != '&'
    {
      if j < p {
        assert front[j] == SheetUrlPrefix[j];
      } else if j < p + |id| {
        assert front[j] == id[j - p];
      } else {
        assert front[j] == "/edit"[j - p - |id|];
      }
    }
  }

  /** No tab-id marker starts inside the part of an editor link before its '#'. */
  lemma NoGidHitBefore(id: string, gid: string)
    requires forall i :: 0 <= i < |id| ==> IdChar(id[i])
    ensures var g := |SheetUrlPrefix + id + "/edit"|;
      forall j :: 0 <= j < g ==> !Hit(SheetUrl(id, gid), GidMarkers, 5, IsDigit, j)
  {
    var s := SheetUrl(id, gid);
    var front := SheetUrlPrefix + id + "/edit";
    assert s == front + ("#gid=" + gid);
    NoHashBeforeGid(id);
    forall j | 0 <= j < |front|
      ensures !Hit(s, GidMarkers, 5, IsDigit, j)
    {
      assert s[j] == front[j];
      if j + 5 <= |s| {
        assert s[j..j + 5][0] == s[j];
      }
    }
  }

  /** The tab id is read back from an editor link built from it: its '#' is the link's first '#' or '&'. */
  lemma GidRoundTrip(id: string, gid: string)
    requires forall i :: 0 <= i < |id| ==> IdChar(id[i])
    requires |gid| > 0 && AllDigits(gid)
    ensures ExtractSheetGid(SheetUrl(id, gid)) == Some(gid)
  {
    var s := SheetUrl(id, gid);
    var front := SheetUrlPrefix + id + "/edit";
    assert s == front + ("#gid=" + gid);
    var g := |front|;
    assert s[g..g + 5] == "#gid=";
    assert OccursAt(s, GidMarkers[0], g);
    assert s[g + 5..] == gid + "";
    assert Hit(s, GidMarkers, 5, IsDigit, g);
    NoGidHitBefore(id, gid);
    CaptureMeaning(s, GidMarkers, 5, IsDigit, 0);
    RunOfPrefix(gid, "", IsDigit);
  }

  // ---------------------------------------------------------------------------------------
  // getSheetTitle, getLastModifiedTime
  // ---------------------------------------------------------------------------------------

  /** A tab's properties as the API lists them. */
  datatype SheetProperties = SheetProperties(sheetId: nat, title: Option<string>)

  /** The sheet-list request: a failure, or the tabs (`[]` when the answer has none). */
  datatype TitleAnswer = TitleFailed | Tabs(sheets: seq<SheetProperties>)

  /** `sheets.find(s => s.properties.sheetId.toString() === gid)`. */
  function FindSheet(sheets: seq<SheetProperties>, gid: string): Option<SheetProperties>
  {
    if |sheets| == 0 then None
    else if NatToString(sheets[0].sheetId) == gid then Some(sheets[0])
    else FindSheet(sheets[1..], gid)
  }

  function TitleOr(sheet: Option<SheetProperties>): string
  {
    if sheet.Some? && sheet.value.title.Some? && sheet.value.title.value != "" then sheet.value.title.value
    else DefaultTitle
  }

  /**
   * getSheetTitle: fails only without an API key; with a gid, the title of the first tab with
   * that id, otherwise the first tab's title; "Sheet1" whenever that title is missing or empty
   * or the request fails.
   */
  function GetSheetTitle(apiKey: string, gid: Option<string>, answer: TitleAnswer): Result<string>
  {
    if apiKey == "" then Err(ApiKeyMissing)
    else if answer.TitleFailed? then Ok(DefaultTitle)
    else if gid.Some? && gid.value != "" then Ok(TitleOr(FindSheet(answer.sheets, gid.value)))
    else Ok(TitleOr(if |answer.sheets| == 0 then None else Some(answer.sheets[0])))
  }

  lemma {:induction false} FindSheetMeaning(sheets: seq<SheetProperties>, gid: string)
    ensures var r := FindSheet(sheets, gid);
      (r.None? <==> forall i :: 0 <= i < |sheets| ==> NatToString(sheets[i].sheetId) != gid)
      && (r.Some? ==> exists i :: 0 <= i < |sheets| && sheets[i] == r.value && NatToString(r.value.sheetId) == gid
                        && forall i' :: 0 <= i' < i ==> NatToString(sheets[i'].sheetId) != gid)
  {
    if |sheets| > 0 && NatToString(sheets[0].sheetId) != gid {
      FindSheetMeaning(sheets[1..], gid);
      var r := FindSheet(sheets, gid);
      if r.Some? {
        var i :| 0 <= i < |sheets[1..]| && sheets[1..][i] == r.value && NatToString(r.value.sheetId) == gid
                 && forall i' :: 0 <= i' < i ==> NatToString(sheets[1..][i'].sheetId) != gid;
        assert sheets[i + 1] == r.value;
        forall i' | 0 <= i' < i + 1
          ensures NatToString(sheets[i'].sheetId) != gid
        {
          if i' > 0 {
            assert sheets[i'] == sheets[1..][i' - 1];
          }
        }
      } else {
        forall i | 0 <= i < |sheets|
          ensures NatToString(sheets[i].sheetId) != gid
        {
          if i > 0 {
            assert sheets[i] == sheets[1..][i - 1];
          }
        }
      }
    }
  }

  /**
   * The title is never empty; a gid that no tab has, including one written with a leading zero
   * or a non-digit, gives "Sheet1"; and the first tab with that id gives its own non-empty title.
   */
  lemma GetSheetTitleMeaning(apiKey: string, gid: string, answer: TitleAnswer)
    requires apiKey != "" && gid != ""
    ensures var r := GetSheetTitle(apiKey, Some(gid), answer);
      r.Ok? && r.value != ""
      && (!IsCanonicalDecimal(gid) ==> r.value == DefaultTitle)
      && (answer.Tabs? && (forall i :: 0 <= i < |answer.sheets| ==> NatToString(answer.sheets[i].sheetId) != gid) ==> r.value == DefaultTitle)
      && (forall i :: answer.Tabs? && 0 <= i < |answer.sheets| && NatToString(answer.sheets[i].sheetId) == gid
                && (forall i' :: 0 <= i' < i ==> NatToString(answer.sheets[i'].sheetId) != gid)
                && answer.sheets[i].title.Some? && answer.sheets[i].title.value != ""
                ==> r.value == answer.sheets[i].title.value)
  {
    if answer.Tabs? {
      FindSheetMeaning(answer.sheets, gid);
      forall i | 0 <= i < |answer.sheets|
        ensures !IsCanonicalDecimal(gid) ==> NatToString(answer.sheets[i].sheetId) != gid
      {
      }
      forall i | 0 <= i < |answer.sheets| && NatToString(answer.sheets[i].sheetId) == gid
          && (forall i' :: 0 <= i' < i ==> NatToString(answer.sheets[i'].sheetId) != gid)
        ensures FindSheet(answer.sheets, gid) == Some(answer.sheets[i])
      {
        var k :| 0 <= k < |answer.sheets| && answer.sheets[k] == FindSheet(answer.sheets, gid).value
                 && NatToString(FindSheet(answer.sheets, gid).value.sheetId) == gid
                 && forall i' :: 0 <= i' < k ==> NatToString(answer.sheets[i'].sheetId) != gid;
        assert k == i;
      }
    }
  }

  /** The Drive metadata request: a failure, or the modification time it held, if any (ms). */
  datatype ModifiedAnswer = ModifiedFailed | Modified(modifiedTime: Option<int>)

  /**
   * getLastModifiedTime: fails only without an API key; a failed request or an answer without
   * a modification time gives no time.
   */
  function GetLastModifiedTime(apiKey: string, answer: ModifiedAnswer): (r: Result<Option<int>>)
    ensures r.Err? <==> apiKey == ""
    ensures r.Ok? && r.value.Some? <==> apiKey != "" && answer.Modified? && answer.modifiedTime.Some?
    ensures r.Ok? && r.value.Some? ==> r.value == answer.modifiedTime
  {
    if apiKey == "" then Err(ApiKeyMissing)
    else if answer.ModifiedFailed? then Ok(None)
    else Ok(answer.modifiedTime)
  }
}
