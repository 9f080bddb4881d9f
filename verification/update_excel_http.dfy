/** The stand-alone `updateexcel` app of update_excel_http. It resolves the workbook first,
    reads the used range, parses `year_month` once (a malformed month raises and answers
    500), searches the rows, and only then looks up the column.

    Its replies at lines 35, 59, 67, 92, 107 and 119 pass the status code positionally,
    while `HttpResponse` takes `status_code` only by keyword; each of those constructions
    raises `TypeError`, which the handler's own `except` turns into a 500. `Update` is the
    handler as evidently intended; `UpdateAsWritten` applies that rewriting. */
module UpdateExcelHttp {
  import opened Wrappers
  import opened Calendar
  import opened DateParse
  import opened Sheet

  /** The for/else row loop: the first row in month `t`, or 404 when the loop runs out. */
  function ScanRows(rows: seq<Row>, t: YearMonth): (r: Scan)
    ensures r.Found? || r.NotFound?
    ensures r.Found? ==> FirstRowInMonth(rows, t) == Some(r.row)
    ensures r.NotFound? <==> forall j | 0 <= j < |rows| :: !RowInMonth(t, rows[j])
  {
    match FirstRowInMonth(rows, t)
    case None => NotFound
    case Some(k) => Found(k)
  }

  /** Once row `k` is found: look up the column, then patch. */
  function PatchRow(req: UpdateRequest, env: GraphEnv, fileId: string, read: seq<Call>, k: nat): (r: Reply)
    requires HasAllParameters(req)
    ensures r.status == 200 <==> r.reason == Updated
    ensures r.reason == Failed ==> r.status == 500
    ensures r.reason == PatchRejected ==> env.patchStatus == Some(r.status)
    ensures r.reason in {Failed, UnsupportedPlantOrUtility, PatchRejected, Updated}
    ensures r.reason == UnsupportedPlantOrUtility <==> Column(req.plantId.value, req.utilityType.value).None?
    ensures r.reason == UnsupportedPlantOrUtility ==> r.status == 400 && r.calls == read
    ensures Column(req.plantId.value, req.utilityType.value).Some? ==>
      r.calls == read + [PatchCell(fileId, CellAddress(Column(req.plantId.value, req.utilityType.value).value, k), req.value.value)]
    ensures r.reason == Updated <==>
      Column(req.plantId.value, req.utilityType.value).Some? && env.patchStatus == Some(200)
    ensures Column(req.plantId.value, req.utilityType.value).Some? && env.patchStatus.None? ==>
      r.status == 500 && r.reason == Failed
    ensures
      Column(req.plantId.value, req.utilityType.value).Some? &&
      env.patchStatus.Some? && env.patchStatus.value != 200
      ==> r.status == env.patchStatus.value && r.reason == PatchRejected
  {
    match Column(req.plantId.value, req.utilityType.value)
    case None => Reply(400, UnsupportedPlantOrUtility, read)
    case Some(col) => PatchReply(env, fileId, CellAddress(col, k), req.value.value, read)
  }

  /** Everything after the workbook is found: read the used range, parse the month (a
      malformed one raises), search the rows with `scan`, then `PatchRow`. */
  function WriteMonth(req: UpdateRequest, env: GraphEnv, fileId: string, calls: seq<Call>,
                      scan: (seq<Row>, YearMonth) -> Scan): (r: Reply)
    requires HasAllParameters(req)
    ensures |r.calls| > |calls| && r.calls[..|calls| + 1] == calls + [GetUsedRange(fileId)]
    ensures r.status == 200 <==> r.reason == Updated
    ensures r.reason == Failed ==> r.status == 500
    ensures r.reason == PatchRejected ==> env.patchStatus == Some(r.status)
    ensures r.reason in {Failed, DateNotFound, UnsupportedPlantOrUtility, PatchRejected, Updated}
    ensures r.reason == Failed <==>
      env.usedRange.None? || ParseYearMonth(req.yearMonth.value).None? ||
      (scan(env.usedRange.value, ParseYearMonth(req.yearMonth.value).value).Found? &&
       Column(req.plantId.value, req.utilityType.value).Some? && env.patchStatus.None?)
    ensures r.reason == DateNotFound <==>
      env.usedRange.Some? && ParseYearMonth(req.yearMonth.value).Some? &&
      !scan(env.usedRange.value, ParseYearMonth(req.yearMonth.value).value).Found?
    ensures r.reason == UnsupportedPlantOrUtility <==>
      env.usedRange.Some? && ParseYearMonth(req.yearMonth.value).Some? &&
      scan(env.usedRange.value, ParseYearMonth(req.yearMonth.value).value).Found? &&
      Column(req.plantId.value, req.utilityType.value).None?
    ensures r.reason == UnsupportedPlantOrUtility ==> r.status == 400 && r.calls == calls + [GetUsedRange(fileId)]
    ensures r.reason == DateNotFound ==> r.status == 404
    ensures r.reason in {Updated, PatchRejected} || (r.reason == Failed && |r.calls| > |calls| + 1) ==>
      env.usedRange.Some? && ParseYearMonth(req.yearMonth.value).Some? &&
      scan(env.usedRange.value, ParseYearMonth(req.yearMonth.value).value).Found? &&
      Column(req.plantId.value, req.utilityType.value).Some? &&
      EndsWithPatch(r.calls,
        CellAddress(Column(req.plantId.value, req.utilityType.value).value,
          scan(env.usedRange.value, ParseYearMonth(req.yearMonth.value).value).row),
        req.value.value)
  {
    var read := calls + [GetUsedRange(fileId)];
    if env.usedRange.None? then Reply(500, Failed, read)
    else
      var parsed := ParseYearMonth(req.yearMonth.value);
      if parsed.None? then Reply(500, Failed, read)
      else
        var found := scan(env.usedRange.value, parsed.value);
        if found.Found? then
          var r := PatchRow(req, env, fileId, read, found.row);
          assert r.calls[..|calls| + 1] == read by {
            assert r.calls[..|read|] == read;
          }
          r
        else Reply(404, DateNotFound, read)
  }

  /** The handler with every reply carrying the status it was meant to carry. */
  function Update(body: Option<UpdateRequest>, env: GraphEnv): (r: Reply)
    ensures body.None? ==> r == Reply(500, Failed, [])
    ensures body.Some? && !HasAllParameters(body.value) ==> r == Reply(400, MissingParameters, [])
    ensures r.calls != [] ==> body.Some? && HasAllParameters(body.value) && r.calls[0] == AcquireToken
    ensures r.status == 200 <==> r.reason == Updated
    ensures r.reason == Failed ==> r.status == 500
    ensures r.reason == PatchRejected ==> env.patchStatus == Some(r.status)
    ensures r.reason !in {UnsupportedPlant, UnsupportedUtility, InvalidDateFormat}
    ensures r.reason == UnsupportedPlantOrUtility ==>
      r.status == 400 && ReadsUsedRange(r.calls) && !Patches(r.calls) &&
      Column(body.value.plantId.value, body.value.utilityType.value).None?
    ensures r.reason == DateNotFound ==>
      r.status == 404 && env.usedRange.Some? && ParseYearMonth(body.value.yearMonth.value).Some? &&
      ScanRows(env.usedRange.value, ParseYearMonth(body.value.yearMonth.value).value).NotFound?
    ensures r.reason == Updated ==>
      var req := body.value;
      env.patchStatus == Some(200) && env.usedRange.Some? &&
      ParseYearMonth(req.yearMonth.value).Some? &&
      Column(req.plantId.value, req.utilityType.value).Some? &&
      ScanRows(env.usedRange.value, ParseYearMonth(req.yearMonth.value).value).Found? &&
      EndsWithPatch(r.calls,
        CellAddress(Column(req.plantId.value, req.utilityType.value).value,
          ScanRows(env.usedRange.value, ParseYearMonth(req.yearMonth.value).value).row),
        req.value.value)
    ensures
      body.Some? && HasAllParameters(body.value) &&
      Resolve(env, body.value.plantId.value, ExactName).Stopped?
      ==> r == Resolve(env, body.value.plantId.value, ExactName).reply
  {
    if body.None? then Reply(500, Failed, [])
    else
      var req := body.value;
      if !HasAllParameters(req) then Reply(400, MissingParameters, [])
      else
        match Resolve(env, req.plantId.value, ExactName)
        case Stopped(reply) => reply
        case Resolved(fileId, calls) =>
          var r := WriteMonth(req, env, fileId, calls, ScanRows);
          assert r.calls[0] == r.calls[..|calls| + 1][0];
          assert r.reason == UnsupportedPlantOrUtility ==> r.calls[|r.calls| - 1].GetUsedRange?;
          r
  }

  /** The forward direction of `Update` on a complete request: a raising lookup answers
      500, a missing folder or workbook 404; then an unreadable used range or a malformed
      month 500, no row in the month 404, an unknown plant or utility 400, and a found row
      its patch's own status. */
  lemma UpdateOutcome(req: UpdateRequest, env: GraphEnv)
    requires HasAllParameters(req)
    ensures var r := Update(Some(req), env);
      (!FoldersListed(env) ==> r.status == 500 && r.reason == Failed) &&
      (FoldersListed(env) && FolderId(env.folderItems.value).None? ==>
        r.status == 404 && r.reason == FolderNotFound) &&
      (FoldersListed(env) && FolderId(env.folderItems.value).Some? && env.fileItems.None? ==>
        r.status == 500 && r.reason == Failed) &&
      (FilesListed(env) && ChooseFile(env.fileItems.value, ExactName, req.plantId.value).None? ==>
        r.status == 404 && r.reason == FileNotFound)
    ensures Resolve(env, req.plantId.value, ExactName).Resolved? ==>
      var r := Update(Some(req), env);
      var t := ParseYearMonth(req.yearMonth.value);
      var column := Column(req.plantId.value, req.utilityType.value);
      (env.usedRange.None? || t.None? ==> r.status == 500 && r.reason == Failed) &&
      (env.usedRange.Some? && t.Some? ==>
        var s := ScanRows(env.usedRange.value, t.value);
        (s.NotFound? ==> r.status == 404 && r.reason == DateNotFound) &&
        (s.Found? && column.None? ==> r.status == 400 && r.reason == UnsupportedPlantOrUtility) &&
        (s.Found? && column.Some? ==> ScanReply(s, env.patchStatus, r)))
  {
    match Resolve(env, req.plantId.value, ExactName)
    case Stopped(reply) =>
    case Resolved(fileId, calls) =>
      assert Update(Some(req), env) == WriteMonth(req, env, fileId, calls, ScanRows);
  }

  /** The replies built with a positional status: missing parameters, folder or file not
      found, date not found, unsupported column, and success. */
  predicate PositionalStatus(reason: Reason) {
    reason in {MissingParameters, FolderNotFound, FileNotFound, DateNotFound, UnsupportedPlantOrUtility, Updated}
  }

  /** The handler as written: a positionally built reply raises and becomes a 500 after the
      same remote calls. */
  function UpdateAsWritten(body: Option<UpdateRequest>, env: GraphEnv): (r: Reply)
    ensures r.calls == Update(body, env).calls
    ensures PositionalStatus(Update(body, env).reason) ==> r.status == 500 && r.reason == Failed
    ensures !PositionalStatus(Update(body, env).reason) ==> r == Update(body, env)
  {
    var intended := Update(body, env);
    if PositionalStatus(intended.reason) then Reply(500, Failed, intended.calls) else intended
  }

  /** As written the handler can only answer 500 or a rejected patch's own non-200 status
      (which may itself be a 400 or a 404 from the service): never 200, not even after the
      cell was written, and never a 400 or 404 from its own branches. */
  lemma AsWrittenNeverSucceeds(body: Option<UpdateRequest>, env: GraphEnv)
    ensures var r := UpdateAsWritten(body, env);
      r.status == 500 || (r.reason == PatchRejected && env.patchStatus == Some(r.status) && r.status != 200)
  {
  }

  const ExampleRequest := UpdateRequest(Some("2023-01"), Some("1200"), Some("999"), Some("electricity"))
  const ExampleCalls := [AcquireToken, GetSite, GetDrive, ListFolders, ListFiles("f1")]

  /** A site whose workbook "999 Utility and Environmental Test Data.xlsx" has January 2023
      on its first row and accepts the patch. */
  const ExampleEnv := GraphEnv(true, true, true,
    Some([Item(FolderName, "f1")]),
    Some([Item(ExpectedFileName("999"), "x1")]),
    Some([[Str("01/15/2023")]]),
    Some(200))

  lemma ExampleWrites()
    ensures WriteMonth(ExampleRequest, ExampleEnv, "x1", ExampleCalls, ScanRows)
         == Reply(200, Updated, ExampleCalls + [GetUsedRange("x1"), PatchCell("x1", "B1", "1200")])
  {
    var rows := [[Str("01/15/2023")]];
    assert ExampleEnv.usedRange == Some(rows);
    assert ParseYearMonth(ExampleRequest.yearMonth.value) == Some(YearMonth(2023, 1)) by {
      ParseYearMonthExamples();
    }
    assert ScanRows(rows, YearMonth(2023, 1)) == Found(1) by {
      ExampleRowFound();
    }
    assert Column("999", "electricity") == Some("B") by {
      ColumnTable("999", "electricity", "B");
    }
    assert CellAddress("B", 1) == "B1";
  }

  lemma ExampleResolves()
    ensures Resolve(ExampleEnv, "999", ExactName) == Resolved("x1", ExampleCalls)
  {
    assert FirstIndex(ExampleEnv.folderItems.value, (item: Item) => item.name == FolderName) == Some(0);
    assert FirstIndex(ExampleEnv.fileItems.value, (item: Item) => FileMatches(ExactName, "999", item)) == Some(0);
  }

  lemma ExampleRowFound()
    ensures FirstRowInMonth([[Str("01/15/2023")]], YearMonth(2023, 1)) == Some(1)
  {
    var row := [Str("01/15/2023")];
    assert RowDate(row) == Some(Date(2023, 1, 15)) by {
      assert TextDate("01/15/2023") == Some(Date(2023, 1, 15)) by {
        ParseMonthDayYearExamples();
      }
    }
    assert RowInMonth(YearMonth(2023, 1), row);
    assert FirstIndex([row], r => RowInMonth(YearMonth(2023, 1), r)) == Some(0);
  }

  /** The concrete discrepancy: a complete request whose month is on row 1 and whose
      patch succeeds writes the cell, yet the written handler answers 500. */
  lemma AsWrittenFailsAfterPatch()
    ensures Update(Some(ExampleRequest), ExampleEnv).status == 200
    ensures UpdateAsWritten(Some(ExampleRequest), ExampleEnv).status == 500
    ensures UpdateAsWritten(Some(ExampleRequest), ExampleEnv).calls
         == ExampleCalls + [GetUsedRange("x1"), PatchCell("x1", "B1", "1200")]
  {
    ExampleResolves();
    ExampleWrites();
    assert HasAllParameters(ExampleRequest);
  }
}
