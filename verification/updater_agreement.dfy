/** How the three `updateexcel` handlers relate: where their row searches agree, where
    their error orders differ, and worked examples of the date matcher. */
module UpdaterAgreement {
  import opened Wrappers
  import opened Text
  import opened Calendar
  import opened DateParse
  import opened Sheet
  import Main = UpdateExcel
  import Http = UpdateExcelHttp
  import SharePoint = UpdateExcelSharePoint

  // ---------------------------------------------------------------------------
  // Row search

  /** Once the month parses and the sheet has rows, the main and the http handler pick the
      same row: re-parsing `year_month` per row changes nothing. */
  lemma MainAndHttpPickSameRow(rows: seq<Row>, ym: string)
    requires rows != [] && ParseYearMonth(ym).Some?
    ensures Main.ScanRows(rows, ym) == Http.ScanRows(rows, ParseYearMonth(ym).value)
  {
  }

  /** No first cell of the sheet is anything but text. */
  predicate TextOnly(rows: seq<Row>) {
    forall j | 0 <= j < |rows| :: !SharePoint.NonTextRow(rows[j])
  }

  /** On a text (or empty) row the SharePoint reading and the main reading agree. */
  lemma TextRowAgrees(t: YearMonth, row: Row)
    requires !SharePoint.NonTextRow(row)
    ensures SharePoint.TextRowInMonth(t, row) <==> RowInMonth(t, row)
  {
    if |row| > 0 {
      assert RowDate(row) == TextDate(row[0].s);
    }
  }

  /** On a sheet of text dates the string-only matcher finds exactly the row the
      serial-or-string matcher finds. */
  lemma {:induction false} SharePointAgreesOnText(rows: seq<Row>, t: YearMonth)
    requires TextOnly(rows)
    ensures SharePoint.ScanText(rows, t) == Http.ScanRows(rows, t)
  {
    forall j | 0 <= j < |rows|
      ensures SharePoint.KindOf(t)(rows[j]) != SharePoint.TypeError
      ensures SharePoint.KindOf(t)(rows[j]) == SharePoint.Hit <==> RowInMonth(t, rows[j])
      ensures SharePoint.KindOf(t)(rows[j]) == SharePoint.Skip <==> !RowInMonth(t, rows[j])
    {
      TextRowAgrees(t, rows[j]);
      SharePoint.KindMeaning(t, rows[j]);
    }
    var a := SharePoint.ScanText(rows, t);
    assert !a.BadCell?;
    if a.Found? {
      FirstRowInMonthExact(rows, t, a.row);
    }
  }

  /** The same at the level of the whole loop, `year_month` parse included. */
  lemma SharePointAgreesWithMain(rows: seq<Row>, ym: string)
    requires TextOnly(rows)
    ensures SharePoint.ScanRows(rows, ym) == Main.ScanRows(rows, ym)
  {
    if rows != [] && ParseYearMonth(ym).Some? {
      SharePointAgreesOnText(rows, ParseYearMonth(ym).value);
    }
  }

  /** A float or null first cell ahead of the month's row: the main handler finds no date
      in it and moves on to the next row, the SharePoint handler stops with a type error. */
  lemma NonTextCellStopsSharePoint()
    ensures Main.ScanRows([[Other], [Str("01/15/2023")]], "2023-01") == Found(2)
    ensures SharePoint.ScanRows([[Other], [Str("01/15/2023")]], "2023-01") == BadCell
  {
    var rows := [[Other], [Str("01/15/2023")]];
    var t := YearMonth(2023, 1);
    assert ParseYearMonth("2023-01") == Some(t) by {
      ParseYearMonthExamples();
    }
    assert RowInMonth(t, rows[1]) by {
      assert TextDate("01/15/2023") == Some(Date(2023, 1, 15)) by {
        ParseMonthDayYearExamples();
      }
    }
    assert !RowInMonth(t, rows[0]);
    assert FirstRowInMonth(rows, t) == Some(2);
    assert SharePoint.KindOf(t)(rows[0]) == SharePoint.TypeError;
  }

  // ---------------------------------------------------------------------------
  // Error order

  /** The http handler searches the rows before it looks at the column: a request for a
      month the sheet lacks, with an unsupported plant, answers 404 there and 400 in the
      main handler, which never reads the sheet. */
  lemma HttpChecksDateBeforeColumn(req: UpdateRequest, env: GraphEnv)
    requires HasAllParameters(req)
    requires Resolve(env, req.plantId.value, ExactName).Resolved?
    requires env.usedRange.Some? && ParseYearMonth(req.yearMonth.value).Some?
    requires Http.ScanRows(env.usedRange.value, ParseYearMonth(req.yearMonth.value).value).NotFound?
    requires Column(req.plantId.value, req.utilityType.value).None?
    ensures Http.Update(Some(req), env).status == 404
    ensures Main.Update(Some(req), env).status == 400
    ensures !ReadsUsedRange(Main.Update(Some(req), env).calls)
  {
    var r := Main.Update(Some(req), env);
    assert r.reason in {UnsupportedPlant, UnsupportedUtility};
  }

  /** A malformed `year_month` on a supported column: the http handler raises on the parse
      (500); the main handler answers 400 when the sheet has rows and 404 when it has none. */
  lemma MalformedMonthReplies(req: UpdateRequest, env: GraphEnv)
    requires HasAllParameters(req)
    requires Resolve(env, req.plantId.value, ExactName).Resolved?
    requires Column(req.plantId.value, req.utilityType.value).Some?
    requires env.usedRange.Some? && ParseYearMonth(req.yearMonth.value).None?
    ensures Http.Update(Some(req), env).status == 500
    ensures Main.Update(Some(req), env).status == (if env.usedRange.value == [] then 404 else 400)
  {
    var rows := env.usedRange.value;
    var s := Main.ScanRows(rows, req.yearMonth.value);
    assert rows == [] ==> s.NotFound?;
    assert rows != [] ==> s.BadYearMonth?;
  }

  // ---------------------------------------------------------------------------
  // File choice

  /** The exact workbook name contains the plant id, so wherever the exact-name handlers
      find a workbook the substring handler finds one too (possibly an earlier one). */
  lemma ExactNameImpliesContains(env: GraphEnv, plant: string)
    requires Resolve(env, plant, ExactName).Resolved?
    ensures Resolve(env, plant, NameContainsPlant).Resolved?
  {
    var items := env.fileItems.value;
    var file := ChooseFile(items, ExactName, plant).value;
    var k :| 0 <= k < |items| && items[k] == file && FileMatches(ExactName, plant, items[k]);
    assert OccursAt(items[k].name, plant, 0) by {
      assert items[k].name[..|plant|] == plant;
    }
    assert FileMatches(NameContainsPlant, plant, items[k]);
  }

  /** The substring match lets plant "99" pick the workbook of plant "999". */
  lemma SubstringPicksOtherPlant()
    ensures ChooseFile([Item(ExpectedFileName("999"), "w")], NameContainsPlant, "99")
         == Some(Item(ExpectedFileName("999"), "w"))
    ensures ChooseFile([Item(ExpectedFileName("999"), "w")], ExactName, "99") == None
  {
    var name := ExpectedFileName("999");
    assert OccursAt(name, "99", 0) by {
      assert name[0] == '9' && name[1] == '9';
      assert name[..2] == "99";
    }
    assert |name| != |ExpectedFileName("99")|;
  }

  // ---------------------------------------------------------------------------
  // The date matcher on concrete sheets

  /** Serial 1 is 1899-12-31 and serial 44926 is 2022-12-31: neither row is in January
      2023, so the search reports the month as not found. */
  lemma SerialRowsOutsideMonth()
    ensures Main.ScanRows([[Int(1)], [Int(44926)]], "2023-01") == NotFound
  {
    var rows := [[Int(1)], [Int(44926)]];
    var t := YearMonth(2023, 1);
    assert ParseYearMonth("2023-01") == Some(t) by {
      ParseYearMonthExamples();
    }
    assert !RowInMonth(t, rows[0]) by {
      SerialCalibrationOne();
    }
    assert !RowInMonth(t, rows[1]) by {
      SerialCalibrationYearEnd();
    }
  }

  /** Serial 44941 is 2023-01-15, so the second row is January 2023's. */
  lemma SerialRowInMonth()
    ensures Main.ScanRows([[Int(44926)], [Int(44941)]], "2023-01") == Found(2)
  {
    var rows := [[Int(44926)], [Int(44941)]];
    var t := YearMonth(2023, 1);
    assert ParseYearMonth("2023-01") == Some(t) by {
      ParseYearMonthExamples();
    }
    assert !RowInMonth(t, rows[0]) by {
      SerialCalibrationYearEnd();
    }
    assert RowInMonth(t, rows[1]) by {
      SerialCalibrationMidJanuary();
    }
    assert FirstRowInMonth(rows, t) == Some(2);
  }

  /** A text date on the first row is found as row 1. */
  lemma TextRowFound()
    ensures Main.ScanRows([[Str("01/15/2023")]], "2023-01") == Found(1)
  {
    assert ParseYearMonth("2023-01") == Some(YearMonth(2023, 1)) by {
      ParseYearMonthExamples();
    }
    Http.ExampleRowFound();
  }

  /** A 13th month is reported only when there is a row to scan. */
  lemma MalformedMonthNeedsRows()
    ensures Main.ScanRows([], "2024-13") == NotFound
    ensures Main.ScanRows([[Str("01/15/2023")]], "2024-13") == BadYearMonth
    ensures SharePoint.ScanRows([], "2024-13") == NotFound
    ensures SharePoint.ScanRows([[Str("01/15/2023")]], "2024-13") == BadYearMonth
  {
    ParseYearMonthExamples();
  }
}
