/** The `updateexcel` handler of the main function app: it writes a value into the
    "Utilities" worksheet of the plant's workbook on SharePoint, in the column for the
    plant and utility, on the row whose date falls in the requested month. */
module UpdateExcel {
  import opened Wrappers
  import opened Calendar
  import opened DateParse
  import opened Sheet

  /** The row loop. It parses `year_month` afresh on every row; the parse does not depend
      on the row, so it fails on the first row or never, and with no rows it is never
      attempted. Rows are read with `RowDate`, which skips anything that is not a date. */
  function ScanRows(rows: seq<Row>, ym: string): (r: Scan)
    ensures !r.BadCell?
    ensures r.BadYearMonth? <==> rows != [] && ParseYearMonth(ym).None?
    ensures r.Found? ==>
      ParseYearMonth(ym).Some? && FirstRowInMonth(rows, ParseYearMonth(ym).value) == Some(r.row)
    ensures r.NotFound? <==>
      rows == [] || (ParseYearMonth(ym).Some? && FirstRowInMonth(rows, ParseYearMonth(ym).value).None?)
  {
    if rows == [] then NotFound
    else
      match ParseYearMonth(ym)
      case None => BadYearMonth
      case Some(t) =>
        match FirstRowInMonth(rows, t)
        case None => NotFound
        case Some(k) => Found(k)
  }

  /** The handler. `body` is None when the request carries no JSON object; the request
      parameters are checked before any remote call. */
  function Update(body: Option<UpdateRequest>, env: GraphEnv): (r: Reply)
    ensures body.None? ==> r == Reply(500, Failed, [])
    ensures body.Some? && !HasAllParameters(body.value) ==> r == Reply(400, MissingParameters, [])
    ensures r.calls != [] ==> body.Some? && HasAllParameters(body.value) && r.calls[0] == AcquireToken
    ensures r.status == 200 <==> r.reason == Updated
    ensures r.reason == InvalidDateFormat ==>
      body.Some? && r.status == 400 && ParseYearMonth(body.value.yearMonth.value).None? &&
      env.usedRange.Some? && env.usedRange.value != []
    ensures r.reason == DateNotFound ==>
      body.Some? && r.status == 404 && env.usedRange.Some? &&
      ScanRows(env.usedRange.value, body.value.yearMonth.value).NotFound?
    ensures r.reason == Updated ==>
      var req := body.value;
      body.Some? && env.patchStatus == Some(200) && env.usedRange.Some? &&
      Column(req.plantId.value, req.utilityType.value).Some? &&
      ScanRows(env.usedRange.value, req.yearMonth.value).Found? &&
      EndsWithPatch(r.calls,
        CellAddress(Column(req.plantId.value, req.utilityType.value).value,
          ScanRows(env.usedRange.value, req.yearMonth.value).row),
        req.value.value)
    ensures body.Some? && HasAllParameters(body.value) ==> r == Handle(body.value, env)
  {
    if body.None? then Reply(500, Failed, [])
    else if !HasAllParameters(body.value) then Reply(400, MissingParameters, [])
    else Handle(body.value, env)
  }

  /** A request with all four parameters: resolve the workbook by its exact name, then
      look up the column before reading and scanning the used range. */
  function Handle(req: UpdateRequest, env: GraphEnv): (r: Reply)
    requires HasAllParameters(req)
    ensures r.calls != [] && r.calls[0] == AcquireToken
    ensures r.status == 200 <==> r.reason == Updated
    ensures r.reason in {UnsupportedPlant, UnsupportedUtility} ==> r.status == 400 && !ReadsUsedRange(r.calls)
    ensures r.reason == UnsupportedPlant ==> req.plantId.value !in ColumnMap
    ensures r.reason == UnsupportedUtility ==>
      req.plantId.value in ColumnMap && req.utilityType.value !in ColumnMap[req.plantId.value]
    ensures r.reason == InvalidDateFormat ==>
      r.status == 400 && ParseYearMonth(req.yearMonth.value).None? &&
      env.usedRange.Some? && env.usedRange.value != []
    ensures r.reason == DateNotFound ==>
      r.status == 404 && env.usedRange.Some? && ScanRows(env.usedRange.value, req.yearMonth.value).NotFound?
    ensures r.reason == Updated ==>
      env.patchStatus == Some(200) && env.usedRange.Some? &&
      Column(req.plantId.value, req.utilityType.value).Some? &&
      ScanRows(env.usedRange.value, req.yearMonth.value).Found? &&
      EndsWithPatch(r.calls,
        CellAddress(Column(req.plantId.value, req.utilityType.value).value,
          ScanRows(env.usedRange.value, req.yearMonth.value).row),
        req.value.value)
    ensures Resolve(env, req.plantId.value, ExactName).Stopped? ==>
      r == Resolve(env, req.plantId.value, ExactName).reply
  {
    match Resolve(env, req.plantId.value, ExactName)
    case Stopped(reply) => reply
    case Resolved(fileId, calls) =>
      var scan := rows => ScanRows(rows, req.yearMonth.value);
      var r := WriteColumn(req, env, fileId, calls, scan);
      assert env.usedRange.Some? ==> scan(env.usedRange.value) == ScanRows(env.usedRange.value, req.yearMonth.value);
      assert r.calls[0] == r.calls[..|calls|][0];
      r
  }

  /** The forward direction of `Handle`: a raising lookup answers 500, a missing folder or
      workbook 404, an unknown plant or utility 400, an unreadable used range 500; after
      that the row search decides, and a found row gets its patch's own status. */
  lemma HandleOutcome(req: UpdateRequest, env: GraphEnv)
    requires HasAllParameters(req)
    ensures var r := Handle(req, env);
      (!FoldersListed(env) ==> r.status == 500 && r.reason == Failed) &&
      (FoldersListed(env) && FolderId(env.folderItems.value).None? ==>
        r.status == 404 && r.reason == FolderNotFound) &&
      (FoldersListed(env) && FolderId(env.folderItems.value).Some? && env.fileItems.None? ==>
        r.status == 500 && r.reason == Failed) &&
      (FilesListed(env) && ChooseFile(env.fileItems.value, ExactName, req.plantId.value).None? ==>
        r.status == 404 && r.reason == FileNotFound)
    ensures Resolve(env, req.plantId.value, ExactName).Resolved? ==>
      var r := Handle(req, env);
      var column := Column(req.plantId.value, req.utilityType.value);
      (column.None? ==> r.status == 400) &&
      (column.Some? && env.usedRange.None? ==> r.status == 500 && r.reason == Failed) &&
      (column.Some? && env.usedRange.Some? ==>
        ScanReply(ScanRows(env.usedRange.value, req.yearMonth.value), env.patchStatus, r))
  {
    match Resolve(env, req.plantId.value, ExactName)
    case Stopped(reply) =>
    case Resolved(fileId, calls) =>
      var scan := rows => ScanRows(rows, req.yearMonth.value);
      assert Handle(req, env) == WriteColumn(req, env, fileId, calls, scan);
      assert env.usedRange.Some? ==> scan(env.usedRange.value) == ScanRows(env.usedRange.value, req.yearMonth.value);
  }
}
