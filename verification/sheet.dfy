/** What the three `update_excel` handlers share: the request, the worksheet cells the
    Graph API returns, the first-match row search, the plant/utility column table, the
    patch address, and the site/drive/folder/file resolution in front of all of them.
    Each remote call is an input outcome; the calls a handler makes are recorded in order. */
module Sheet {
  import opened Wrappers
  import opened Text
  import opened Calendar
  import opened DateParse
  import PyJson

  // ---------------------------------------------------------------------------
  // Request and reply

  /** The four JSON body fields; None when the key is absent or null. */
  datatype UpdateRequest = UpdateRequest(
    yearMonth: Option<string>,
    value: Option<string>,
    plantId: Option<string>,
    utilityType: Option<string>)

  /** Python truthiness of an optional string field. */
  predicate Truthy(o: Option<string>) {
    o.Some? && o.value != ""
  }

  /** `all([year_month, value, plant_id, utility_type])` over the body's `get` results. */
  predicate HasAllParameters(req: UpdateRequest) {
    Truthy(req.yearMonth) && Truthy(req.value) && Truthy(req.plantId) && Truthy(req.utilityType)
  }

  /** The parameter test is Python truthiness of the four values `body.get` returns: an
      absent parameter is None and a present one a JSON string. */
  lemma HasAllParametersMeaning(req: UpdateRequest)
    ensures HasAllParameters(req) <==>
      forall o | o in [req.yearMonth, req.value, req.plantId, req.utilityType] ::
        PyJson.Truthy(if o.Some? then PyJson.JStr(o.value) else PyJson.JNull)
  {
    var ps := [req.yearMonth, req.value, req.plantId, req.utilityType];
    assert ps[0] == req.yearMonth && ps[1] == req.value && ps[2] == req.plantId && ps[3] == req.utilityType;
  }

  /** A worksheet value as the used range returns it: integers (date cells arrive as
      serial day counts), booleans (which Python's `isinstance(_, int)` also accepts), text,
      and everything else (floats, null). */
  datatype Cell = Int(n: int) | Bool(b: bool) | Str(s: string) | Other
  type Row = seq<Cell>

  /** A drive item of a folder listing. */
  datatype Item = Item(name: string, id: string)

  /** Outcomes of the remote steps, in the order the handlers perform them; None (or false)
      where the step raises. */
  datatype GraphEnv = GraphEnv(
    tokenOk: bool,
    siteOk: bool,
    driveOk: bool,
    folderItems: Option<seq<Item>>,
    fileItems: Option<seq<Item>>,
    usedRange: Option<seq<Row>>,
    patchStatus: Option<int>)

  datatype Call =
    | AcquireToken
    | GetSite
    | GetDrive
    | ListFolders
    | ListFiles(folderId: string)
    | GetUsedRange(fileId: string)
    | PatchCell(fileId: string, address: string, value: string)

  datatype Reason =
    | MissingParameters
    | FolderNotFound
    | FileNotFound
    | UnsupportedPlant
    | UnsupportedUtility
    | UnsupportedPlantOrUtility
    | InvalidDateFormat
    | DateNotFound
    | PatchRejected
    | Updated
    | Failed

  /** An HTTP reply together with every remote call made before it. */
  datatype Reply = Reply(status: int, reason: Reason, calls: seq<Call>)

  predicate ReadsUsedRange(calls: seq<Call>) {
    exists i | 0 <= i < |calls| :: calls[i].GetUsedRange?
  }

  predicate Patches(calls: seq<Call>) {
    exists i | 0 <= i < |calls| :: calls[i].PatchCell?
  }

  // ---------------------------------------------------------------------------
  // First-match search

  /** Index of the first element satisfying `p`. */
  function FirstIndex<T>(xs: seq<T>, p: T -> bool): (r: Option<nat>)
    ensures r.Some? ==> r.value < |xs| && p(xs[r.value]) && forall j | 0 <= j < r.value :: !p(xs[j])
    ensures r.None? ==> forall j | 0 <= j < |xs| :: !p(xs[j])
  {
    if |xs| == 0 then None
    else if p(xs[0]) then Some(0)
    else
      match FirstIndex(xs[1..], p)
      case None => None
      case Some(k) => Some(k + 1)
  }

  /** The first-match contract determines the index completely. */
  lemma FirstIndexExact<T>(xs: seq<T>, p: T -> bool, k: nat)
    ensures FirstIndex(xs, p) == Some(k) <==> k < |xs| && p(xs[k]) && forall j | 0 <= j < k :: !p(xs[j])
  {
  }

  // ---------------------------------------------------------------------------
  // Reading the date of a row

  predicate InMonth(d: Date, t: YearMonth) {
    d.year == t.year && d.month == t.month
  }

  /** How the main and the http handler read a row: its first cell, when an integer (or a
      boolean, counted as 0 or 1), is a serial day count from 1899-12-30; when text, it is
      parsed as `MM/DD/YYYY`. An empty row, any other value, an out-of-range serial or
      unparseable text gives no date and the row is skipped. */
  function RowDate(row: Row): (r: Option<Date>)
    ensures r.Some? ==> |row| > 0 && InDatetimeRange(r.value)
    ensures r.Some? && row[0].Int? ==> ToOrdinal(r.value) == ToOrdinal(Epoch) + row[0].n
    ensures r.Some? && row[0].Bool? ==> ToOrdinal(r.value) == ToOrdinal(Epoch) + (if row[0].b then 1 else 0)
    ensures r.Some? && row[0].Str? ==> row[0].s in MonthDayYearSpellings(r.value)
    ensures |row| > 0 && row[0].Other? ==> r.None?
  {
    if |row| == 0 then None
    else
      match row[0]
      case Int(n) => SerialToDate(n)
      case Bool(b) => SerialToDate(if b then 1 else 0)
      case Str(s) => TextDate(s)
      case Other => None
  }

  /** A text cell read as `MM/DD/YYYY`. */
  function TextDate(s: string): (r: Option<Date>)
    ensures r.Some? ==> InDatetimeRange(r.value) && s in MonthDayYearSpellings(r.value)
  {
    var d := ParseMonthDayYear(s);
    if d.None? then d
    else ParseMonthDayYearExact(s, d.value); d
  }

  /** The converse of `RowDate`'s contract: every integer serial in `datetime`'s range and
      both booleans give a date, an integer gives the date that many days after the epoch,
      and a text cell gives exactly the date it spells as `MM/DD/YYYY`. */
  lemma RowDateExact(row: Row, d: Date)
    ensures |row| == 0 ==> RowDate(row).None?
    ensures |row| > 0 && row[0].Int? ==> (RowDate(row).Some? <==> -693593 <= row[0].n <= 2958465)
    ensures |row| > 0 && row[0].Int? && InDatetimeRange(d) ==>
      (RowDate(row) == Some(d) <==> ToOrdinal(d) == ToOrdinal(Epoch) + row[0].n)
    ensures |row| > 0 && row[0].Bool? ==> RowDate(row).Some?
    ensures |row| > 0 && row[0].Str? ==>
      (RowDate(row) == Some(d) <==> InDatetimeRange(d) && row[0].s in MonthDayYearSpellings(d))
  {
    if |row| > 0 {
      match row[0]
      case Int(n) =>
        SerialRange(n);
        if InDatetimeRange(d) {
          SerialToDateCharacterized(n, d);
        }
      case Bool(b) =>
        SerialRange(if b then 1 else 0);
      case Str(s) =>
        ParseMonthDayYearExact(s, d);
      case Other =>
    }
  }

  predicate RowInMonth(t: YearMonth, row: Row) {
    var d := RowDate(row);
    d.Some? && InMonth(d.value, t)
  }

  /** 1-based number of the first row whose date falls in month `t` (Excel rows count from 1). */
  function FirstRowInMonth(rows: seq<Row>, t: YearMonth): (r: Option<nat>)
    ensures r.Some? ==> 1 <= r.value <= |rows| && RowInMonth(t, rows[r.value - 1])
    ensures r.Some? ==> forall j | 0 <= j < r.value - 1 :: !RowInMonth(t, rows[j])
    ensures r.None? ==> forall j | 0 <= j < |rows| :: !RowInMonth(t, rows[j])
  {
    match FirstIndex(rows, row => RowInMonth(t, row))
    case None => None
    case Some(k) => Some(k + 1)
  }

  /** The first-match contract determines the row completely. */
  lemma FirstRowInMonthExact(rows: seq<Row>, t: YearMonth, k: nat)
    ensures FirstRowInMonth(rows, t) == Some(k) <==>
      1 <= k <= |rows| && RowInMonth(t, rows[k - 1]) && forall j | 0 <= j < k - 1 :: !RowInMonth(t, rows[j])
  {
    if 1 <= k {
      FirstIndexExact(rows, row => RowInMonth(t, row), k - 1);
    }
  }

  /** Outcome of a handler's row search. */
  datatype Scan = Found(row: nat) | NotFound | BadYearMonth | BadCell

  /** The last call made is a patch of `value` at `address`. */
  predicate EndsWithPatch(calls: seq<Call>, address: string, value: string) {
    |calls| > 0 && calls[|calls| - 1].PatchCell? &&
    calls[|calls| - 1].address == address && calls[|calls| - 1].value == value
  }

  // ---------------------------------------------------------------------------
  // Column table and patch address

  /** plant_id -> utility_type -> column letter. */
  const ColumnMap: map<string, map<string, string>> :=
    map["999" := map["electricity" := "B"],
        "881" := map["electricity" := "B"],
        "789" := map["electricity" := "C"]]

  /** `plant_utility_column_map.get(plant_id, {}).get(utility_type)`: every supported pair
      is an electricity column, B or C. */
  function Column(plant: string, utility: string): (r: Option<string>)
    ensures r.Some? ==> utility == "electricity" && r.value in {"B", "C"}
  {
    if plant in ColumnMap && utility in ColumnMap[plant] then Some(ColumnMap[plant][utility]) else None
  }

  /** The table holds exactly three entries, all for electricity. */
  lemma ColumnTable(plant: string, utility: string, col: string)
    ensures Column(plant, utility) == Some(col) <==>
      (plant, utility, col) in {("999", "electricity", "B"), ("881", "electricity", "B"), ("789", "electricity", "C")}
  {
  }

  /** `f"{column_letter}{target_row}"`. */
  function CellAddress(col: string, row: nat): (a: string)
    ensures |a| > |col| && a[..|col|] == col && AllDigits(a[|col|..])
  {
    var a := col + NatToString(row);
    assert a[|col|..] == NatToString(row);
    a
  }

  predicate NoDigits(s: string) {
    forall i | 0 <= i < |s| :: !IsDigit(s[i])
  }

  /** Length of the letter part of an address. */
  function LetterCount(a: string): (n: nat)
    ensures n <= |a| && NoDigits(a[..n])
    ensures n < |a| ==> IsDigit(a[n])
  {
    if |a| == 0 || IsDigit(a[0]) then 0
    else
      var k := LetterCount(a[1..]);
      assert a[..k + 1] == [a[0]] + a[1..][..k];
      k + 1
  }

  /** An address splits back into its column letters and its row number. */
  lemma {:induction false} CellAddressSplits(col: string, row: nat)
    requires NoDigits(col)
    ensures var a := CellAddress(col, row);
      var n := LetterCount(a);
      a[..n] == col && AllDigits(a[n..]) && ParseDigits(a[n..]) == row
  {
    var a := CellAddress(col, row);
    LetterCountOfPrefix(col, NatToString(row));
    assert a[|col|..] == NatToString(row);
    NatToStringRoundTrip(row);
  }

  lemma {:induction false} LetterCountOfPrefix(col: string, digits: string)
    requires NoDigits(col) && |digits| > 0 && IsDigit(digits[0])
    ensures LetterCount(col + digits) == |col|
    decreases |col|
  {
    if |col| > 0 {
      assert (col + digits)[1..] == col[1..] + digits;
      LetterCountOfPrefix(col[1..], digits);
    }
  }

  /** The PATCH of `[[value]]` at `address`: a 200 answers 200, any other status is passed
      through, and a raising request answers 500. */
  function PatchReply(env: GraphEnv, fileId: string, address: string, value: string, calls: seq<Call>): (r: Reply)
    ensures r.calls == calls + [PatchCell(fileId, address, value)]
    ensures r.reason == Updated <==> env.patchStatus == Some(200)
    ensures r.reason == Updated <==> r.status == 200
    ensures r.reason == PatchRejected ==> env.patchStatus == Some(r.status)
    ensures r.reason in {Updated, PatchRejected, Failed}
    ensures env.patchStatus.None? ==> r.status == 500 && r.reason == Failed
    ensures env.patchStatus.Some? && env.patchStatus.value != 200 ==>
      r.status == env.patchStatus.value && r.reason == PatchRejected
  {
    var c := calls + [PatchCell(fileId, address, value)];
    match env.patchStatus
    case None => Reply(500, Failed, c)
    case Some(status) => if status == 200 then Reply(200, Updated, c) else Reply(status, PatchRejected, c)
  }

  /** The reply a row search `s` owes once the workbook and the column are known: a
      malformed month answers 400, no row in the month 404, an unreadable cell 500, and a
      found row the status of its patch (500 when the patch raises). */
  predicate ScanReply(s: Scan, patchStatus: Option<int>, r: Reply) {
    match s
    case BadYearMonth => r.status == 400 && r.reason == InvalidDateFormat
    case NotFound => r.status == 404 && r.reason == DateNotFound
    case BadCell => r.status == 500 && r.reason == Failed
    case Found(_) =>
      match patchStatus
      case None => r.status == 500 && r.reason == Failed
      case Some(st) => r.status == st && r.reason == (if st == 200 then Updated else PatchRejected)
  }

  /** What the main and the SharePoint handler do once the workbook is found: look up the
      plant's column map and then the utility's column, read the used range, search it with
      `scan`, and patch the found row. */
  function WriteColumn(req: UpdateRequest, env: GraphEnv, fileId: string, calls: seq<Call>, scan: seq<Row> -> Scan): (r: Reply)
    requires HasAllParameters(req)
    requires AllLookups(calls)
    ensures |r.calls| >= |calls| && r.calls[..|calls|] == calls
    ensures r.status == 200 <==> r.reason == Updated
    ensures r.reason == Failed ==> r.status == 500
    ensures r.reason == PatchRejected ==> env.patchStatus == Some(r.status)
    ensures r.reason in {UnsupportedPlant, UnsupportedUtility} ==> r.status == 400 && r.calls == calls
    ensures r.reason == UnsupportedPlant <==> req.plantId.value !in ColumnMap
    ensures r.reason == UnsupportedUtility <==>
      req.plantId.value in ColumnMap && req.utilityType.value !in ColumnMap[req.plantId.value]
    ensures r.reason == InvalidDateFormat <==>
      Column(req.plantId.value, req.utilityType.value).Some? && env.usedRange.Some? &&
      scan(env.usedRange.value).BadYearMonth?
    ensures r.reason == DateNotFound <==>
      Column(req.plantId.value, req.utilityType.value).Some? && env.usedRange.Some? &&
      scan(env.usedRange.value).NotFound?
    ensures r.reason == Updated <==>
      Column(req.plantId.value, req.utilityType.value).Some? && env.usedRange.Some? &&
      scan(env.usedRange.value).Found? && env.patchStatus == Some(200)
    ensures Patches(r.calls) <==>
      Column(req.plantId.value, req.utilityType.value).Some? && env.usedRange.Some? &&
      scan(env.usedRange.value).Found?
    ensures Patches(r.calls) ==>
      r.calls == calls + [GetUsedRange(fileId),
        PatchCell(fileId, CellAddress(Column(req.plantId.value, req.utilityType.value).value,
          scan(env.usedRange.value).row), req.value.value)]
    ensures ReadsUsedRange(r.calls) <==> Column(req.plantId.value, req.utilityType.value).Some?
    ensures r.reason == InvalidDateFormat ==> r.status == 400
    ensures r.reason == DateNotFound ==> r.status == 404
    ensures Column(req.plantId.value, req.utilityType.value).Some? ==>
      (env.usedRange.None? ==> r.status == 500 && r.reason == Failed) &&
      (env.usedRange.Some? ==> ScanReply(scan(env.usedRange.value), env.patchStatus, r))
    ensures r.reason == Failed <==>
      Column(req.plantId.value, req.utilityType.value).Some? &&
      (env.usedRange.None? || scan(env.usedRange.value).BadCell? ||
       (scan(env.usedRange.value).Found? && env.patchStatus.None?))
    ensures
      Column(req.plantId.value, req.utilityType.value).Some? && env.usedRange.Some? &&
      scan(env.usedRange.value).Found? && env.patchStatus.Some? && env.patchStatus.value != 200
      ==> r.status == env.patchStatus.value && r.reason == PatchRejected
  {
    var plant, utility := req.plantId.value, req.utilityType.value;
    if plant !in ColumnMap then Reply(400, UnsupportedPlant, calls)
    else if utility !in ColumnMap[plant] then Reply(400, UnsupportedUtility, calls)
    else
      var col := ColumnMap[plant][utility];
      var read := calls + [GetUsedRange(fileId)];
      assert read[|calls|].GetUsedRange?;
      assert !Patches(read) by {
        forall i | 0 <= i < |read| ensures !read[i].PatchCell? {
          if i < |calls| { assert read[i] == calls[i]; }
        }
      }
      if env.usedRange.None? then Reply(500, Failed, read)
      else
        match scan(env.usedRange.value)
        case BadYearMonth => Reply(400, InvalidDateFormat, read)
        case BadCell => Reply(500, Failed, read)
        case NotFound => Reply(404, DateNotFound, read)
        case Found(k) =>
          var r := PatchReply(env, fileId, CellAddress(col, k), req.value.value, read);
          assert r.calls[|calls|].GetUsedRange? && r.calls[|calls| + 1].PatchCell?;
          r
  }

  // ---------------------------------------------------------------------------
  // Site, drive, folder and file resolution

  const FolderName := "Plant Data Test"

  /** The workbook name an exact-match handler looks for. */
  function ExpectedFileName(plant: string): string {
    plant + " Utility and Environmental Test Data.xlsx"
  }

  /** How a handler picks the workbook in the folder listing. */
  datatype FilePolicy = ExactName | NameContainsPlant

  predicate FileMatches(policy: FilePolicy, plant: string, item: Item) {
    match policy
    case ExactName => item.name == ExpectedFileName(plant)
    case NameContainsPlant => Contains(item.name, plant)
  }

  datatype Resolution = Resolved(fileId: string, calls: seq<Call>) | Stopped(reply: Reply)

  /** A call that only looks something up. */
  predicate IsLookup(c: Call) {
    !c.GetUsedRange? && !c.PatchCell?
  }

  predicate AllLookups(calls: seq<Call>) {
    forall i | 0 <= i < |calls| :: IsLookup(calls[i])
  }

  /** The id of the first item named `FolderName`, when that id is non-empty. */
  function FolderId(items: seq<Item>): (r: Option<string>)
    ensures r.Some? ==>
      r.value != "" &&
      exists k | 0 <= k < |items| ::
        items[k].name == FolderName && items[k].id == r.value && forall j | 0 <= j < k :: items[j].name != FolderName
    ensures r.None? ==> forall k | 0 <= k < |items| :: items[k].name == FolderName ==>
      items[k].id == "" || exists j | 0 <= j < k :: items[j].name == FolderName
  {
    match FirstIndex(items, (item: Item) => item.name == FolderName)
    case None => None
    case Some(k) => if items[k].id == "" then None else Some(items[k].id)
  }

  /** The first file the policy accepts. */
  function ChooseFile(items: seq<Item>, policy: FilePolicy, plant: string): (r: Option<Item>)
    ensures r.Some? ==>
      exists k | 0 <= k < |items| ::
        items[k] == r.value && FileMatches(policy, plant, items[k]) &&
        forall j | 0 <= j < k :: !FileMatches(policy, plant, items[j])
    ensures r.None? ==> forall k | 0 <= k < |items| :: !FileMatches(policy, plant, items[k])
  {
    match FirstIndex(items, (item: Item) => FileMatches(policy, plant, item))
    case None => None
    case Some(k) => Some(items[k])
  }

  /** The token, site and drive steps succeed and the folder listing is returned. */
  predicate FoldersListed(env: GraphEnv) {
    env.tokenOk && env.siteOk && env.driveOk && env.folderItems.Some?
  }

  /** The folder `FolderName` is found and its files are listed. */
  predicate FilesListed(env: GraphEnv) {
    FoldersListed(env) && FolderId(env.folderItems.value).Some? && env.fileItems.Some?
  }

  /** Token, site, drive, the folder named `FolderName`, then the first file the policy
      accepts. Any raising step answers 500; a missing folder or file answers 404. */
  function Resolve(env: GraphEnv, plant: string, policy: FilePolicy): (r: Resolution)
    ensures r.Resolved? <==> FilesListed(env) && ChooseFile(env.fileItems.value, policy, plant).Some?
    ensures !FoldersListed(env) ==> r.Stopped? && r.reply.status == 500 && r.reply.reason == Failed
    ensures FoldersListed(env) && FolderId(env.folderItems.value).None? ==>
      r.Stopped? && r.reply.status == 404 && r.reply.reason == FolderNotFound
    ensures FoldersListed(env) && FolderId(env.folderItems.value).Some? && env.fileItems.None? ==>
      r.Stopped? && r.reply.status == 500 && r.reply.reason == Failed
    ensures FilesListed(env) && ChooseFile(env.fileItems.value, policy, plant).None? ==>
      r.Stopped? && r.reply.status == 404 && r.reply.reason == FileNotFound
    ensures r.Resolved? ==>
      env.tokenOk && env.siteOk && env.driveOk && env.folderItems.Some? && env.fileItems.Some? &&
      FolderId(env.folderItems.value).Some? &&
      ChooseFile(env.fileItems.value, policy, plant).Some? &&
      r.fileId == ChooseFile(env.fileItems.value, policy, plant).value.id &&
      r.calls == [AcquireToken, GetSite, GetDrive, ListFolders, ListFiles(FolderId(env.folderItems.value).value)]
    ensures r.Resolved? ==> AllLookups(r.calls)
    ensures r.Stopped? ==> r.reply.calls != [] && r.reply.calls[0] == AcquireToken && AllLookups(r.reply.calls)
    ensures r.Stopped? ==> r.reply.status in {404, 500}
    ensures r.Stopped? && r.reply.status == 404 ==>
      (r.reply.reason == FolderNotFound && env.folderItems.Some? && FolderId(env.folderItems.value).None?) ||
      (r.reply.reason == FileNotFound && env.fileItems.Some? && ChooseFile(env.fileItems.value, policy, plant).None?)
    ensures r.Stopped? && r.reply.status == 500 ==> r.reply.reason == Failed
  {
    var lookups := [AcquireToken, GetSite, GetDrive, ListFolders];
    assert AllLookups(lookups);
    if !env.tokenOk then Stopped(Reply(500, Failed, lookups[..1]))
    else if !env.siteOk then Stopped(Reply(500, Failed, lookups[..2]))
    else if !env.driveOk then Stopped(Reply(500, Failed, lookups[..3]))
    else if env.folderItems.None? then Stopped(Reply(500, Failed, lookups))
    else
      match FolderId(env.folderItems.value)
      case None => Stopped(Reply(404, FolderNotFound, lookups))
      case Some(folderId) =>
        var listed := lookups + [ListFiles(folderId)];
        assert AllLookups(listed);
        if env.fileItems.None? then Stopped(Reply(500, Failed, listed))
        else
          match ChooseFile(env.fileItems.value, policy, plant)
          case None => Stopped(Reply(404, FileNotFound, listed))
          case Some(file) => Resolved(file.id, listed)
  }

}
