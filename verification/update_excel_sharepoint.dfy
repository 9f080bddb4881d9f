/** The SharePoint variant of `updateexcel` (azurefn/sharepoint). It differs from the main
    handler in three ways: the workbook is the first file whose name contains the plant id,
    the access token comes from the environment, and the first cell of a row is handed to
    `strptime` unconditionally, so a non-text cell raises `TypeError` and answers 500. */
module UpdateExcelSharePoint {
  import opened Wrappers
  import opened Calendar
  import opened DateParse
  import opened Sheet

  /** How this variant reads a row: empty rows and unparseable text are skipped, any
      other first cell is a type error. */
  predicate TextRowInMonth(t: YearMonth, row: Row) {
    |row| > 0 && row[0].Str? && var d := TextDate(row[0].s); d.Some? && InMonth(d.value, t)
  }

  predicate NonTextRow(row: Row) {
    |row| > 0 && !row[0].Str?
  }

  /** What the loop does with one row. */
  datatype RowKind = Skip | Hit | TypeError

  /** One row of the loop at lines 104-111: `str` check first, then the parse. */
  function Kind(t: YearMonth, row: Row): (r: RowKind)
    ensures |row| == 0 ==> r == Skip
    ensures r == TypeError <==> NonTextRow(row)
  {
    if |row| == 0 then Skip
    else if !row[0].Str? then TypeError
    else if TextRowInMonth(t, row) then Hit
    else Skip
  }

  /** A hit is a text date in the month, a type error is a non-text first cell, and
      every other row is skipped. */
  lemma KindMeaning(t: YearMonth, row: Row)
    ensures KindOf(t)(row) == Kind(t, row)
    ensures Kind(t, row) == Hit <==> TextRowInMonth(t, row)
    ensures Kind(t, row) == TypeError <==> NonTextRow(row)
    ensures Kind(t, row) == Skip <==> !TextRowInMonth(t, row) && !NonTextRow(row)
  {
  }

  /** The row loop from row `i` on: the first `Hit` unless a `TypeError` comes first. */
  function ScanKinds(rows: seq<Row>, kind: Row -> RowKind, i: nat): (r: Scan)
    requires i <= |rows|
    ensures r.Found? || r.BadCell? || r.NotFound?
    ensures r.Found? ==>
      i < r.row <= |rows| && kind(rows[r.row - 1]) == Hit &&
      forall j | i <= j < r.row - 1 :: kind(rows[j]) == Skip
    ensures r.BadCell? ==>
      exists k | i <= k < |rows| :: kind(rows[k]) == TypeError && forall j | i <= j < k :: kind(rows[j]) == Skip
    ensures r.NotFound? ==> forall j | i <= j < |rows| :: kind(rows[j]) == Skip
    decreases |rows| - i
  {
    if i == |rows| then NotFound
    else
      match kind(rows[i])
      case Skip => ScanKinds(rows, kind, i + 1)
      case TypeError => BadCell
      case Hit => Found(i + 1)
  }

  /** The classification of rows for month `t`, as a function value. */
  function KindOf(t: YearMonth): Row -> RowKind {
    row => Kind(t, row)
  }

  /** The row loop for the month `t` parsed from `year_month`: the first row that is a
      hit, with only skipped rows before it, unless a type error comes first. */
  function ScanText(rows: seq<Row>, t: YearMonth): (r: Scan)
    ensures r.Found? || r.BadCell? || r.NotFound?
    ensures r.Found? ==>
      1 <= r.row <= |rows| && KindOf(t)(rows[r.row - 1]) == Hit &&
      forall j | 0 <= j < r.row - 1 :: KindOf(t)(rows[j]) == Skip
    ensures r.BadCell? ==>
      exists k | 0 <= k < |rows| :: KindOf(t)(rows[k]) == TypeError && forall j | 0 <= j < k :: KindOf(t)(rows[j]) == Skip
    ensures r.NotFound? ==> forall j | 0 <= j < |rows| :: KindOf(t)(rows[j]) == Skip
  {
    ScanKinds(rows, KindOf(t), 0)
  }

  /** The loop parses `year_month` afresh on every row; the parse does not depend on the
      row, so it fails on the first row or never. With no rows it is never attempted. */
  function ScanRows(rows: seq<Row>, ym: string): (r: Scan)
    ensures r.BadYearMonth? <==> rows != [] && ParseYearMonth(ym).None?
    ensures !r.BadYearMonth? && rows != [] ==> r == ScanText(rows, ParseYearMonth(ym).value)
  {
    if rows == [] then NotFound
    else
      match ParseYearMonth(ym)
      case None => BadYearMonth
      case Some(t) => ScanText(rows, t)
  }

  /** The handler; the request parameters are checked before anything else. */
  function Update(body: Option<UpdateRequest>, env: GraphEnv): (r: Reply)
    ensures body.None? ==> r == Reply(500, Failed, [])
    ensures body.Some? && !HasAllParameters(body.value) ==> r == Reply(400, MissingParameters, [])
    ensures r.calls != [] ==> body.Some? && HasAllParameters(body.value) && r.calls[0] == AcquireToken
    ensures r.status == 200 <==> r.reason == Updated
    ensures r.reason == InvalidDateFormat ==>
      body.Some? && r.status == 400 && ParseYearMonth(body.value.yearMonth.value).None? &&
      env.usedRange.Some? && env.usedRange.value != []
    ensures r.reason == DateNotFound ==>
      body.Some? && r.status == 404 && env.usedRange.Some? &&
      ScanRows(env.usedRange.value, body.value.yearMonth.value).NotFound?
    ensures r.reason == Updated ==>
      var req := body.value;
      body.Some? && env.patchStatus == Some(200) && env.usedRange.Some? &&
      Column(req.plantId.value, req.utilityType.value).Some? &&
      ScanRows(env.usedRange.value, req.yearMonth.value).Found? &&
      EndsWithPatch(r.calls,
        CellAddress(Column(req.plantId.value, req.utilityType.value).value,
          ScanRows(env.usedRange.value, req.yearMonth.value).row),
        req.value.value)
    ensures body.Some? && ReadsUsedRange(r.calls) && env.usedRange.Some? &&
      ScanRows(env.usedRange.value, body.value.yearMonth.GetOr("")).BadCell?
      ==> r.status == 500
    ensures body.Some? && HasAllParameters(body.value) ==> r == Handle(body.value, env)
  {
    if body.None? then Reply(500, Failed, [])
    else if !HasAllParameters(body.value) then Reply(400, MissingParameters, [])
    else Handle(body.value, env)
  }

  /** A request with all four parameters: the workbook is the first file whose name
      contains the plant id; the column is looked up before the used range is read. */
  function Handle(req: UpdateRequest, env: GraphEnv): (r: Reply)
    requires HasAllParameters(req)
    ensures r.calls != [] && r.calls[0] == AcquireToken
    ensures r.status == 200 <==> r.reason == Updated
    ensures r.reason in {UnsupportedPlant, UnsupportedUtility} ==> r.status == 400 && !ReadsUsedRange(r.calls)
    ensures r.reason == UnsupportedPlant ==> req.plantId.value !in ColumnMap
    ensures r.reason == UnsupportedUtility ==>
      req.plantId.value in ColumnMap && req.utilityType.value !in ColumnMap[req.plantId.value]
    ensures r.reason == InvalidDateFormat ==>
      r.status == 400 && ParseYearMonth(req.yearMonth.value).None? &&
      env.usedRange.Some? && env.usedRange.value != []
    ensures r.reason == DateNotFound ==>
      r.status == 404 && env.usedRange.Some? && ScanRows(env.usedRange.value, req.yearMonth.value).NotFound?
    ensures ReadsUsedRange(r.calls) && env.usedRange.Some? &&
      ScanRows(env.usedRange.value, req.yearMonth.value).BadCell?
      ==> r.status == 500 && r.reason == Failed
    ensures r.reason == Updated ==>
      env.patchStatus == Some(200) && env.usedRange.Some? &&
      Column(req.plantId.value, req.utilityType.value).Some? &&
      ScanRows(env.usedRange.value, req.yearMonth.value).Found? &&
      EndsWithPatch(r.calls,
        CellAddress(Column(req.plantId.value, req.utilityType.value).value,
          ScanRows(env.usedRange.value, req.yearMonth.value).row),
        req.value.value)
    ensures Resolve(env, req.plantId.value, NameContainsPlant).Stopped? ==>
      r == Resolve(env, req.plantId.value, NameContainsPlant).reply
  {
    match Resolve(env, req.plantId.value, NameContainsPlant)
    case Stopped(reply) => reply
    case Resolved(fileId, calls) =>
      var scan := rows => ScanRows(rows, req.yearMonth.value);
      var r := WriteColumn(req, env, fileId, calls, scan);
      assert env.usedRange.Some? ==> scan(env.usedRange.value) == ScanRows(env.usedRange.value, req.yearMonth.value);
      assert r.calls[0] == r.calls[..|calls|][0];
      r
  }

  /** The forward direction of `Handle`: a raising lookup answers 500, a missing folder or
      workbook 404, an unknown plant or utility 400, an unreadable used range 500; after
      that the row search decides (a non-text cell met first answers 500), and a found row
      gets its patch's own status. */
  lemma HandleOutcome(req: UpdateRequest, env: GraphEnv)
    requires HasAllParameters(req)
    ensures var r := Handle(req, env);
      (!FoldersListed(env) ==> r.status == 500 && r.reason == Failed) &&
      (FoldersListed(env) && FolderId(env.folderItems.value).None? ==>
        r.status == 404 && r.reason == FolderNotFound) &&
      (FoldersListed(env) && FolderId(env.folderItems.value).Some? && env.fileItems.None? ==>
        r.status == 500 && r.reason == Failed) &&
      (FilesListed(env) && ChooseFile(env.fileItems.value, NameContainsPlant, req.plantId.value).None? ==>
        r.status == 404 && r.reason == FileNotFound)
    ensures Resolve(env, req.plantId.value, NameContainsPlant).Resolved? ==>
      var r := Handle(req, env);
      var column := Column(req.plantId.value, req.utilityType.value);
      (column.None? ==> r.status == 400) &&
      (column.Some? && env.usedRange.None? ==> r.status == 500 && r.reason == Failed) &&
      (column.Some? && env.usedRange.Some? ==>
        ScanReply(ScanRows(env.usedRange.value, req.yearMonth.value), env.patchStatus, r))
  {
    match Resolve(env, req.plantId.value, NameContainsPlant)
    case Stopped(reply) =>
    case Resolved(fileId, calls) =>
      var scan := rows => ScanRows(rows, req.yearMonth.value);
      assert Handle(req, env) == WriteColumn(req, env, fileId, calls, scan);
      assert env.usedRange.Some? ==> scan(env.usedRange.value) == ScanRows(env.usedRange.value, req.yearMonth.value);
  }
}
