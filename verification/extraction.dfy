/** The pure steps of the invoice blob trigger (azurefn/invoice_blob_trigger/function_app.py,
    repeated in azurefn/function_app.py): which uploads are processed, what of the
    document analysis is handed to the language model, how the JSON object is cut out of
    the model's reply, the partition key, the stored entity, and the request that
    propagates the invoice to the spreadsheet. */
module Extraction {
  import opened Wrappers
  import opened Text
  import opened PyJson

  // ---------------------------------------------------------------------------
  // Accepted uploads

  const SupportedExtensions: seq<string> := [".pdf", ".png", ".jpg", ".jpeg", ".tiff"]

  /** `name.lower().endswith(supported_exts)`. */
  predicate Supported(name: string) {
    exists i | 0 <= i < |SupportedExtensions| :: EndsWith(Lower(name), SupportedExtensions[i])
  }

  /** Only the tail of the name matters: a name is accepted exactly when its last few
      characters, lower-cased, are one of the extensions. */
  lemma SupportedBySuffix(name: string)
    ensures Supported(name) <==>
      exists i | 0 <= i < |SupportedExtensions| ::
        |SupportedExtensions[i]| <= |name| &&
        Lower(name[|name| - |SupportedExtensions[i]|..]) == SupportedExtensions[i]
  {
    forall i | 0 <= i < |SupportedExtensions| && |SupportedExtensions[i]| <= |name|
      ensures Lower(name)[|name| - |SupportedExtensions[i]|..] == Lower(name[|name| - |SupportedExtensions[i]|..])
    {
    }
  }

  /** Only the lower-cased name counts: names that agree up to case are treated alike. */
  lemma SupportedIgnoresCase(a: string, b: string)
    requires Lower(a) == Lower(b)
    ensures Supported(a) <==> Supported(b)
  {
  }

  /** An upper-case extension is accepted; a supported extension followed by another one is not. */
  lemma SupportedExamples()
    ensures Supported("invoice.PDF")
    ensures !Supported("invoice.pdf.txt")
    ensures Supported("scan.Jpeg")
    ensures !Supported("invoice")
  {
    var a := Lower("invoice.PDF");
    assert a[|a| - 4..] == ".pdf";
    assert EndsWith(a, SupportedExtensions[0]);
    var c := Lower("scan.Jpeg");
    assert c[|c| - 5..] == ".jpeg";
    assert EndsWith(c, SupportedExtensions[3]);
    var b := Lower("invoice.pdf.txt");
    assert b[|b| - 1] == 't';
    forall i | 0 <= i < |SupportedExtensions| ensures !EndsWith(b, SupportedExtensions[i]) {
      var e := SupportedExtensions[i];
      assert e[|e| - 1] != 't';
    }
    var d := Lower("invoice");
    assert d[|d| - 1] == 'e';
    forall i | 0 <= i < |SupportedExtensions| ensures !EndsWith(d, SupportedExtensions[i]) {
      var e := SupportedExtensions[i];
      assert e[0] == '.' && d[|d| - |e|] != '.';
    }
  }

  // ---------------------------------------------------------------------------
  // Document analysis

  /** A document field: with a `content` attribute (possibly None), or printed with `str`. */
  datatype Field = WithContent(content: Option<string>) | WithoutContent(printed: string)

  /** A document; `fields` is None where the result leaves it None. */
  datatype Document = Document(fields: Option<seq<(string, Field)>>)

  datatype TableCell = TableCell(rowIndex: int, columnIndex: int, content: string)

  datatype Table = Table(rowCount: int, columnCount: int, cells: seq<TableCell>)

  /** The `tables` attribute of a result: absent (`hasattr` is false), present but None,
      or a list. The service's result type always declares the attribute, so only the
      last two occur in practice; the first is kept because the code tests for it. */
  datatype TablesAttr = NoTablesAttr | NullTables | Tables(list: seq<Table>)

  /** The analysis result; `documents` is None where the attribute is absent or None. */
  datatype AnalyzeResult = AnalyzeResult(documents: Option<seq<Document>>, tables: TablesAttr)

  /** What the model is shown: the first document's fields and the non-blank tables. */
  datatype Payload = Payload(fields: seq<(string, Option<string>)>, tables: seq<Table>)

  /** `not s.strip()`: nothing but whitespace. */
  predicate Blank(s: string) {
    AllSpace(s)
  }

  lemma BlankIsEmptyStrip(s: string)
    ensures Blank(s) <==> Strip(s) == ""
  {
  }

  /** The cells whose content is not blank, in their order. */
  function KeptCells(cells: seq<TableCell>): (r: seq<TableCell>)
    ensures |r| <= |cells|
    ensures forall c :: c in r <==> c in cells && !Blank(c.content)
  {
    if cells == [] then []
    else if Blank(cells[0].content) then KeptCells(cells[1..])
    else [cells[0]] + KeptCells(cells[1..])
  }

  /** Filtering commutes with concatenation, so the kept cells keep their relative order. */
  lemma {:induction false} KeptCellsAppend(a: seq<TableCell>, b: seq<TableCell>)
    ensures KeptCells(a + b) == KeptCells(a) + KeptCells(b)
    decreases |a|
  {
    if a != [] {
      assert (a + b)[0] == a[0];
      assert (a + b)[1..] == a[1..] + b;
      KeptCellsAppend(a[1..], b);
    } else {
      assert a + b == b;
    }
  }

  /** Filtering a second time changes nothing. */
  lemma {:induction false} KeptCellsIdempotent(cells: seq<TableCell>)
    ensures KeptCells(KeptCells(cells)) == KeptCells(cells)
    decreases |cells|
  {
    if cells != [] {
      KeptCellsIdempotent(cells[1..]);
      if !Blank(cells[0].content) {
        assert ([cells[0]] + KeptCells(cells[1..]))[1..] == KeptCells(cells[1..]);
      }
    }
  }

  /** A table with its blank cells dropped; row and column counts are kept. */
  function Trimmed(t: Table): Table {
    t.(cells := KeptCells(t.cells))
  }

  /** The tables that keep at least one cell, each trimmed, in their order. */
  function KeptTables(tables: seq<Table>): (r: seq<Table>)
    ensures |r| <= |tables|
    ensures forall t | t in r :: t.cells != [] && forall c | c in t.cells :: !Blank(c.content)
    ensures forall t :: t in r <==> exists u | u in tables :: KeptCells(u.cells) != [] && t == Trimmed(u)
  {
    if tables == [] then []
    else
      var rest := KeptTables(tables[1..]);
      assert forall u | u in tables[1..] :: u in tables;
      if KeptCells(tables[0].cells) == [] then rest else [Trimmed(tables[0])] + rest
  }

  lemma {:induction false} KeptTablesAppend(a: seq<Table>, b: seq<Table>)
    ensures KeptTables(a + b) == KeptTables(a) + KeptTables(b)
    decreases |a|
  {
    if a != [] {
      assert (a + b)[0] == a[0];
      assert (a + b)[1..] == a[1..] + b;
      KeptTablesAppend(a[1..], b);
    } else {
      assert a + b == b;
    }
  }

  /** `value.content if hasattr(value, "content") else str(value)`. */
  function FieldValue(f: Field): Option<string> {
    match f
    case WithContent(c) => c
    case WithoutContent(p) => Some(p)
  }

  /** The first document exists and its `fields` is None, so `doc.fields.items()`
      raises AttributeError. */
  predicate FieldsRaise(result: AnalyzeResult) {
    result.documents.Some? && result.documents.value != [] && result.documents.value[0].fields.None?
  }

  /** The fields of the first document, when there is one; None where reading them raises. */
  function ExtractedFields(result: AnalyzeResult): (r: Option<seq<(string, Option<string>)>>)
    ensures r.None? <==> FieldsRaise(result)
    ensures result.documents.None? || result.documents.value == [] ==> r == Some([])
    ensures result.documents.Some? && result.documents.value != [] && r.Some? ==>
      var fs := result.documents.value[0].fields.value;
      |r.value| == |fs| && forall i | 0 <= i < |fs| :: r.value[i] == (fs[i].0, FieldValue(fs[i].1))
  {
    if result.documents.None? || result.documents.value == [] then Some([])
    else
      match result.documents.value[0].fields
      case None => None
      case Some(fs) => Some(seq(|fs|, i requires 0 <= i < |fs| => (fs[i].0, FieldValue(fs[i].1))))
  }

  /** The payload built inside the analysis stage; None where it raises: reading a None
      `fields` of the first document, or `for table in result.tables` over a None
      attribute. */
  function ExtractPayload(result: AnalyzeResult): (p: Option<Payload>)
    ensures p.None? <==> FieldsRaise(result) || result.tables.NullTables?
    ensures p.Some? ==> ExtractedFields(result) == Some(p.value.fields)
    ensures p.Some? && result.tables.NoTablesAttr? ==> p.value.tables == []
    ensures p.Some? && result.tables.Tables? ==> p.value.tables == KeptTables(result.tables.list)
  {
    match ExtractedFields(result)
    case None => None
    case Some(fields) =>
      match result.tables
      case NullTables => None
      case NoTablesAttr => Some(Payload(fields, []))
      case Tables(ts) => Some(Payload(fields, KeptTables(ts)))
  }

  // ---------------------------------------------------------------------------
  // The JSON object in the model's reply

  /** `{...}` matches from `i` to `j`. */
  predicate BraceMatch(s: string, i: int, j: int) {
    0 <= i < j < |s| && s[i] == '{' && s[j] == '}'
  }

  /** Where `re.search(r'{.*}', s, re.DOTALL)` matches: the first `{`, up to the last `}`. */
  function BraceSpan(s: string): (r: Option<(nat, nat)>)
    ensures r.Some? ==> BraceMatch(s, r.value.0, r.value.1)
    ensures r.Some? ==> forall k | 0 <= k < r.value.0 :: s[k] != '{'
    ensures r.Some? ==> forall k | r.value.1 < k < |s| :: s[k] != '}'
    ensures r.None? <==> forall i, j | 0 <= i < j < |s| :: !BraceMatch(s, i, j)
  {
    var first := FirstIndexOf(s, '{');
    var last := LastIndexOf(s, '}');
    if first.Some? && last.Some? && first.value < last.value then
      assert BraceMatch(s, first.value, last.value);
      Some((first.value, last.value))
    else
      assert forall a, b | 0 <= a < b < |s| :: !BraceMatch(s, a, b) by {
        forall a, b | 0 <= a < b < |s| && s[a] == '{' ensures s[b] != '}' {
          assert first.Some? && first.value <= a;
        }
      }
      None
  }

  /** The match is the leftmost one, and the longest among those starting there. */
  lemma BraceSpanLeftmostLongest(s: string, i: nat, j: nat)
    ensures BraceSpan(s) == Some((i, j)) <==>
      BraceMatch(s, i, j) &&
      (forall a, b | BraceMatch(s, a, b) :: i <= a) &&
      (forall b | BraceMatch(s, i, b) :: b <= j)
  {
    if BraceMatch(s, i, j) && (forall a, b | BraceMatch(s, a, b) :: i <= a) && (forall b | BraceMatch(s, i, b) :: b <= j) {
      var r := BraceSpan(s);
      assert r.Some?;
      var i', j' := r.value.0, r.value.1;
      assert i <= i';
      assert i' <= i;
      assert j <= j';
      assert BraceMatch(s, i, j');
    }
  }

  /** The text handed to `json.loads`: the matched span of the (already stripped) reply,
      or None where no match makes the handler raise `ValueError`. */
  function ExtractJsonSpan(s: string): (r: Option<string>)
    ensures r.Some? <==> BraceSpan(s).Some?
    ensures r.Some? ==> r.value == s[BraceSpan(s).value.0..BraceSpan(s).value.1 + 1]
    ensures r.Some? ==> |r.value| >= 2 && r.value[0] == '{' && r.value[|r.value| - 1] == '}'
  {
    var span := BraceSpan(s);
    if span.None? then None
    else
      var i, j := span.value.0, span.value.1;
      Some(s[i..j + 1])
  }

  /** The span runs from the first `{` to the last `}`, nested braces included. */
  lemma ExtractJsonSpanNested()
    ensures ExtractJsonSpan("a{b{}c}d") == Some("{b{}c}")
  {
    var s := "a{b{}c}d";
    assert s[0] != '{' && s[1] == '{';
    assert s[6] == '}' && s[7] != '}';
    assert BraceSpan(s) == Some((1, 6));
    assert s[1..7] == "{b{}c}";
  }

  /** A `}` before every `{` is no object at all. */
  lemma ExtractJsonSpanUnbalanced()
    ensures ExtractJsonSpan("}{") == None
  {
    var s := "}{";
    assert FirstIndexOf(s, '{') == Some(1);
    assert LastIndexOf(s, '}') == Some(0);
  }

  // ---------------------------------------------------------------------------
  // Partition key

  /** `os.path.basename` (POSIX): the part after the last `/`. */
  function Basename(p: string): (r: string)
    ensures '/' !in r
    ensures |r| <= |p| && r == p[|p| - |r|..]
    ensures '/' !in p ==> r == p
    ensures exists k | 0 <= k <= |p| :: p[k..] == r && (k == 0 || p[k - 1] == '/')
  {
    match LastIndexOf(p, '/')
    case None => p
    case Some(k) => p[k + 1..]
  }

  lemma BasenameOfPath(dir: string, name: string)
    requires '/' !in name
    ensures Basename(dir + "/" + name) == name
  {
    var p := dir + "/" + name;
    assert p[|dir|] == '/';
    assert forall x | |dir| < x < |p| :: p[x] == name[x - |dir| - 1];
    var k := LastIndexOf(p, '/').value;
    assert k == |dir|;
    assert p[k + 1..] == name;
  }

  /** Index of the `.` that starts the extension of a base name: the last one, provided a
      character other than `.` precedes it (a leading dot does not start an extension). */
  function ExtensionStart(b: string): (r: Option<nat>)
    ensures r.Some? ==> r.value < |b| && b[r.value] == '.' && '.' !in b[r.value + 1..]
    ensures r.Some? ==> exists k | 0 <= k < r.value :: b[k] != '.'
    ensures r.None? ==> '.' !in b || forall k | 0 <= k < LastIndexOf(b, '.').value :: b[k] == '.'
  {
    match LastIndexOf(b, '.')
    case None => None
    case Some(d) =>
      if exists k | 0 <= k < d :: b[k] != '.' then Some(d) else None
  }

  /** `os.path.splitext` of a base name: root and extension. */
  function SplitExt(b: string): (r: (string, string))
    ensures r.0 + r.1 == b
    ensures r.1 == "" || (r.1[0] == '.' && '.' !in r.1[1..])
    ensures r.1 != "" ==> exists k | 0 <= k < |r.0| :: r.0[k] != '.'
  {
    match ExtensionStart(b)
    case None => (b, "")
    case Some(d) => (b[..d], b[d..])
  }

  /** Splitting a root and an extension that were joined gives them back. */
  lemma SplitExtJoin(root: string, ext: string)
    requires exists k | 0 <= k < |root| :: root[k] != '.'
    requires |ext| >= 1 && ext[0] == '.' && '.' !in ext[1..]
    ensures SplitExt(root + ext) == (root, ext)
  {
    var b := root + ext;
    assert b[|root|] == '.';
    assert forall x | |root| < x < |b| :: b[x] == ext[1..][x - |root| - 1];
    var d := LastIndexOf(b, '.').value;
    assert d == |root|;
    var k :| 0 <= k < |root| && root[k] != '.';
    assert b[k] != '.';
    assert b[..d] == root && b[d..] == ext;
  }

  /** `os.path.splitext(os.path.basename(name))[0]`. */
  function PartitionKeyOf(name: string): (pk: string)
    ensures '/' !in pk
    ensures pk <= Basename(name)
  {
    SplitExt(Basename(name)).0
  }

  /** The partition key of `dir/root.ext` is `root`, whatever dots `root` holds. */
  lemma PartitionKeyOfPath(dir: string, root: string, ext: string)
    requires '/' !in root + ext
    requires exists k | 0 <= k < |root| :: root[k] != '.'
    requires |ext| >= 1 && ext[0] == '.' && '.' !in ext[1..]
    ensures PartitionKeyOf(dir + "/" + root + ext) == root
  {
    assert dir + "/" + root + ext == dir + "/" + (root + ext);
    BasenameOfPath(dir, root + ext);
    SplitExtJoin(root, ext);
  }

  /** Only the last extension is removed. */
  lemma PartitionKeyDropsLastExtension()
    ensures PartitionKeyOf("uploads" + "/" + "march.invoice" + ".pdf") == "march.invoice"
  {
    var root, ext := "march.invoice", ".pdf";
    assert root[0] != '.';
    assert '/' !in root + ext;
    PartitionKeyOfPath("uploads", root, ext);
  }

  /** A leading dot does not start an extension. */
  lemma PartitionKeyKeepsDotName()
    ensures PartitionKeyOf("uploads/.pdf") == ".pdf"
  {
    assert "uploads/.pdf" == "uploads" + "/" + ".pdf";
    BasenameOfPath("uploads", ".pdf");
    var b := ".pdf";
    assert b[0] == '.' && b[1] != '.' && b[2] != '.' && b[3] != '.';
    assert LastIndexOf(b, '.') == Some(0);
  }

  // ---------------------------------------------------------------------------
  // Entity and propagation

  /** `{k: str(v) for k, v in parsed.items()}`. */
  function StrValues(m: map<string, Json>): (r: map<string, Json>)
    ensures r.Keys == m.Keys
    ensures forall k | k in r :: r[k] == JStr(PyStr(m[k]))
  {
    map k | k in m :: JStr(PyStr(m[k]))
  }

  /** The entity stored for a parsed dict `d`: the keys first, the values of `d` as strings
      after them (so a parsed `PartitionKey` or `RowKey` wins), `Verified` last. */
  function EntityOf(pk: string, rk: string, d: map<string, Json>): (e: Entity)
    ensures e.Keys == {"PartitionKey", "RowKey", "Verified"} + d.Keys
    ensures e["Verified"] == JBool(false)
    ensures forall k | k in e && k != "Verified" :: e[k].JStr?
    ensures forall k | k in d && k != "Verified" :: e[k] == JStr(PyStr(d[k]))
    ensures "PartitionKey" !in d ==> e["PartitionKey"] == JStr(pk)
    ensures "RowKey" !in d ==> e["RowKey"] == JStr(rk)
  {
    map["PartitionKey" := JStr(pk), "RowKey" := JStr(rk)] + StrValues(d) + map["Verified" := JBool(false)]
  }

  /** The entity for a parsed reply; None where `parsed` is not an object and `.items()`
      raises. */
  function BuildEntity(pk: string, rk: string, parsed: Json): (r: Option<Entity>)
    ensures r.Some? <==> parsed.JObj?
    ensures r.Some? ==> r.value == EntityOf(pk, rk, ObjectMap(parsed.fields))
  {
    match parsed
    case JObj(fields) => Some(EntityOf(pk, rk, ObjectMap(fields)))
    case _ => None
  }

  const UpdatePlant := "999"
  const UpdateUtility := "electricity"

  /** The body posted to the spreadsheet update: `InvoiceDate[:7]`, the energy usage, and a
      fixed plant and utility. None where building it raises (`[:7]` of a number, say). */
  function Summary(parsed: Json): (r: Option<Json>)
    requires parsed.JObj?
    ensures r.Some? <==> Slice7(Lookup(parsed.fields, "InvoiceDate").GetOr(JStr(""))).Some?
    ensures r.Some? ==> r.value.JObj? && |r.value.fields| == 4
    ensures r.Some? ==> Lookup(r.value.fields, "plant_id") == Some(JStr(UpdatePlant))
    ensures r.Some? ==> Lookup(r.value.fields, "utility_type") == Some(JStr(UpdateUtility))
    ensures r.Some? ==> Lookup(r.value.fields, "value") == Some(Lookup(parsed.fields, "EnergyUsage_kWh").GetOr(JStr("")))
    ensures r.Some? ==>
      Lookup(r.value.fields, "year_month") == Slice7(Lookup(parsed.fields, "InvoiceDate").GetOr(JStr("")))
  {
    var date := Lookup(parsed.fields, "InvoiceDate").GetOr(JStr(""));
    match Slice7(date)
    case None => None
    case Some(ym) =>
      var body := [("year_month", ym),
                   ("value", Lookup(parsed.fields, "EnergyUsage_kWh").GetOr(JStr(""))),
                   ("plant_id", JStr(UpdatePlant)),
                   ("utility_type", JStr(UpdateUtility))];
      assert body[0].0 == "year_month" && body[1].0 == "value" && body[2].0 == "plant_id" && body[3].0 == "utility_type";
      Some(JObj(body))
  }

  /** An ISO invoice date propagates as its year and month. */
  lemma SummaryOfIsoDate()
    ensures var p := JObj([("InvoiceDate", JStr("2024-05-17")), ("EnergyUsage_kWh", JStr("1200"))]);
      Summary(p).Some? && Lookup(Summary(p).value.fields, "year_month") == Some(JStr("2024-05"))
  {
    var d := "2024-05-17";
    assert d[..7] == "2024-05";
  }

  /** A missing invoice date propagates as ""; a numeric one cannot be sliced. */
  lemma SummaryOfOddDates()
    ensures var p := JObj([("EnergyUsage_kWh", JStr("1200"))]);
      Summary(p).Some? && Lookup(Summary(p).value.fields, "year_month") == Some(JStr(""))
    ensures Summary(JObj([("InvoiceDate", JInt(20240517))])).None?
  {
  }
}
