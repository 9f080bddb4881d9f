/** The invoice blob triggers as traces. Every call into a cloud service is an input (its
    answer, or None where it raises); a run is its outcome and the calls it makes in order.
    Two triggers share the steps: the one in azurefn/invoice_blob_trigger/function_app.py
    formats and stores once and then propagates a summary to the spreadsheet update, the
    one in azurefn/function_app.py formats and stores twice and propagates nothing. */
module Pipeline {
  import opened Wrappers
  import opened Text
  import opened PyJson
  import opened Extraction

  /** The try block an exception comes from. */
  datatype Stage = Save | Extract | Format | Store

  /** A call the trigger makes. `Upsert` records whether the store accepted the entity. */
  datatype Event =
    | CreateTemp
    | Analyze
    | AskModel(payload: Payload)
    | Upsert(entity: Entity, applied: bool)
    | PostUpdate(body: Json)
    | RemoveTemp

  /** Returned early, returned normally, or re-raised an exception from `stage`. */
  datatype Outcome = Skipped | Succeeded | Raised(stage: Stage)

  datatype Run = Run(outcome: Outcome, events: seq<Event>)

  /** What the world answers. `analysis` is None where the analysis call raises; `parse` is
      `json.loads` (None where it raises); the row keys are the `uuid4` values the rounds draw. */
  datatype Services = Services(
    tempCreated: bool,
    tempWritten: bool,
    analysis: Option<AnalyzeResult>,
    reply1: Option<string>,
    reply2: Option<string>,
    parse: string -> Option<Json>,
    rowKey1: string,
    rowKey2: string,
    upsert1Ok: bool,
    upsert2Ok: bool)

  /** Whether `EXCEL_UPDATE_URL` and `EXCEL_UPDATE_KEY` are set. */
  datatype Propagation = Propagation(urlSet: bool, keySet: bool)

  /** Where the temp path is recorded: after the upload is written into the file (as the
      code does) or as soon as the file exists. */
  datatype TempPolicy = AsWritten | PathFirst

  // ---------------------------------------------------------------------------
  // Traces

  /** The entities the store accepted, in order. */
  function AppliedUpserts(events: seq<Event>): (r: seq<Entity>)
    ensures |r| <= |events|
  {
    if events == [] then []
    else
      var rest := AppliedUpserts(events[1..]);
      if events[0].Upsert? && events[0].applied then [events[0].entity] + rest else rest
  }

  lemma {:induction false} AppliedUpsertsAppend(a: seq<Event>, b: seq<Event>)
    ensures AppliedUpserts(a + b) == AppliedUpserts(a) + AppliedUpserts(b)
    decreases |a|
  {
    if a != [] {
      assert (a + b)[0] == a[0];
      assert (a + b)[1..] == a[1..] + b;
      AppliedUpsertsAppend(a[1..], b);
    } else {
      assert a + b == b;
    }
  }

  /** The bodies posted to the spreadsheet update, in order. */
  function Posted(events: seq<Event>): (r: seq<Json>)
    ensures |r| <= |events|
  {
    if events == [] then []
    else
      var rest := Posted(events[1..]);
      if events[0].PostUpdate? then [events[0].body] + rest else rest
  }

  lemma {:induction false} PostedAppend(a: seq<Event>, b: seq<Event>)
    ensures Posted(a + b) == Posted(a) + Posted(b)
    decreases |a|
  {
    if a != [] {
      assert (a + b)[0] == a[0];
      assert (a + b)[1..] == a[1..] + b;
      PostedAppend(a[1..], b);
    } else {
      assert a + b == b;
    }
  }

  /** The calls other than the spreadsheet update, in order. */
  function WithoutPosts(events: seq<Event>): (r: seq<Event>)
    ensures |r| <= |events|
  {
    if events == [] then []
    else
      var rest := WithoutPosts(events[1..]);
      if events[0].PostUpdate? then rest else [events[0]] + rest
  }

  lemma {:induction false} WithoutPostsAppend(a: seq<Event>, b: seq<Event>)
    ensures WithoutPosts(a + b) == WithoutPosts(a) + WithoutPosts(b)
    decreases |a|
  {
    if a != [] {
      assert (a + b)[0] == a[0];
      assert (a + b)[1..] == a[1..] + b;
      WithoutPostsAppend(a[1..], b);
    } else {
      assert a + b == b;
    }
  }

  /** No call touches the temp file. */
  predicate TempFree(events: seq<Event>) {
    forall i | 0 <= i < |events| :: events[i] != CreateTemp && events[i] != RemoveTemp
  }

  /** A created temp file is removed: creation comes first, removal last, and neither
      happens anywhere else. */
  predicate TempCleaned(events: seq<Event>) {
    CreateTemp in events ==>
      |events| >= 2 && events[0] == CreateTemp && events[|events| - 1] == RemoveTemp &&
      TempFree(events[1..|events| - 1])
  }

  // ---------------------------------------------------------------------------
  // Steps

  /** What `json.loads` makes of the JSON span of a reply; None where the model call
      raised, the reply holds no span, or the parse raised. */
  function ParsedReply(reply: Option<string>, parse: string -> Option<Json>): (r: Option<Json>)
    ensures r.Some? ==> reply.Some? && ExtractJsonSpan(Strip(reply.value)).Some?
    ensures r.Some? ==> r == parse(ExtractJsonSpan(Strip(reply.value)).value)
    ensures reply.Some? && ExtractJsonSpan(Strip(reply.value)).Some? ==>
      r == parse(ExtractJsonSpan(Strip(reply.value)).value)
    ensures reply.None? || ExtractJsonSpan(Strip(reply.value)).None? ==> r.None?
  {
    if reply.None? then None
    else
      var span := ExtractJsonSpan(Strip(reply.value));
      if span.None? then None else parse(span.value)
  }

  /** How a format-and-store round ends: stored, or failed in `stage` (with the entity whose
      upsert raised, if it got that far). */
  datatype RoundResult =
    | Stored(parsed: Json, entity: Entity)
    | Failed(stage: Stage, attempted: Option<Entity>)

  /** One round: ask the model, cut the JSON span out of the stripped reply, parse it, build
      the entity keyed by the file name and `rowKey`, and upsert it. */
  function Round(name: string, reply: Option<string>, parse: string -> Option<Json>, rowKey: string, upsertOk: bool): (r: RoundResult)
    ensures r.Stored? <==> upsertOk && ParsedReply(reply, parse).Some? && ParsedReply(reply, parse).value.JObj?
    ensures r.Stored? ==> r.parsed == ParsedReply(reply, parse).value && r.parsed.JObj?
    ensures r.Stored? ==> r.entity == EntityOf(PartitionKeyOf(name), rowKey, ObjectMap(r.parsed.fields))
    ensures r.Failed? ==> (r.stage == Format <==> reply.None? || ExtractJsonSpan(Strip(reply.value)).None?)
    ensures r.Failed? ==> r.stage == Format || r.stage == Store
    ensures r.Failed? && r.attempted.Some? ==> !upsertOk && r.stage == Store
  {
    if reply.None? || ExtractJsonSpan(Strip(reply.value)).None? then Failed(Format, None)
    else
      match ParsedReply(reply, parse)
      case None => Failed(Store, None)
      case Some(parsed) =>
        match BuildEntity(PartitionKeyOf(name), rowKey, parsed)
        case None => Failed(Store, None)
        case Some(e) => if upsertOk then Stored(parsed, e) else Failed(Store, Some(e))
  }

  /** The first round of a run: the first reply, stored under the first row key. */
  function FirstRound(name: string, svc: Services): RoundResult {
    Round(name, svc.reply1, svc.parse, svc.rowKey1, svc.upsert1Ok)
  }

  /** The second round of the main trigger. */
  function SecondRound(name: string, svc: Services): RoundResult {
    Round(name, svc.reply2, svc.parse, svc.rowKey2, svc.upsert2Ok)
  }

  /** The calls a round makes. */
  function RoundEvents(payload: Payload, r: RoundResult): (events: seq<Event>)
    ensures TempFree(events) && 1 <= |events| <= 2 && events[0] == AskModel(payload)
    ensures AppliedUpserts(events) == (if r.Stored? then [r.entity] else [])
    ensures Posted(events) == []
  {
    match r
    case Stored(_, e) => [AskModel(payload), Upsert(e, true)]
    case Failed(_, Some(e)) => [AskModel(payload), Upsert(e, false)]
    case Failed(_, None) => [AskModel(payload)]
  }

  /** The best-effort spreadsheet update: posted only when both settings exist and the
      summary can be built (`.get` on anything but a dict raises too); whatever goes
      wrong, or whatever the reply, is swallowed. */
  function Propagate(parsed: Json, prop: Propagation): (events: seq<Event>)
    ensures TempFree(events) && AppliedUpserts(events) == []
    ensures Posted(events) ==
      if parsed.JObj? && prop.urlSet && prop.keySet && Summary(parsed).Some? then [Summary(parsed).value] else []
  {
    if parsed.JObj? && prop.urlSet && prop.keySet && Summary(parsed).Some? then [PostUpdate(Summary(parsed).value)] else []
  }

  /** The temp-file frame: create the file, write the upload into it, run `body`, and in
      `finally` remove the file if its path was recorded. */
  function WithTempFile(policy: TempPolicy, svc: Services, body: Run): (r: Run)
    requires TempFree(body.events)
    ensures !svc.tempCreated ==> r == Run(Raised(Save), [])
    ensures svc.tempCreated && !svc.tempWritten ==> r.outcome == Raised(Save)
    ensures svc.tempCreated && svc.tempWritten ==>
      r.outcome == body.outcome && r.events == [CreateTemp] + body.events + [RemoveTemp]
    ensures AppliedUpserts(r.events) == (if svc.tempCreated && svc.tempWritten then AppliedUpserts(body.events) else [])
  {
    if !svc.tempCreated then Run(Raised(Save), [])
    else if !svc.tempWritten then
      Run(Raised(Save), if policy == PathFirst then [CreateTemp, RemoveTemp] else [CreateTemp])
    else
      AppliedUpsertsAppend([CreateTemp], body.events);
      AppliedUpsertsAppend([CreateTemp] + body.events, [RemoveTemp]);
      Run(body.outcome, [CreateTemp] + body.events + [RemoveTemp])
  }

  // ---------------------------------------------------------------------------
  // The triggers

  /** The analysis stage raises: the service call fails, the first document's `fields` is
      None, or the result's `tables` is None and iterating over it raises TypeError. */
  predicate AnalysisFails(svc: Services) {
    svc.analysis.None? || FieldsRaise(svc.analysis.value) || svc.analysis.value.tables.NullTables?
  }

  /** The analysis as the model sees it; None where the analysis stage raised. */
  function PayloadOf(svc: Services): (p: Option<Payload>)
    ensures p.None? <==> AnalysisFails(svc)
  {
    match svc.analysis
    case None => None
    case Some(result) => ExtractPayload(result)
  }

  /** Everything the invoice trigger does once the temp file holds the upload, given the
      analysis and how the round ends. */
  function InvoiceBody(payload: Option<Payload>, first: RoundResult, prop: Propagation): (r: Run)
    ensures TempFree(r.events)
    ensures r.outcome != Skipped
  {
    match payload
    case None => Run(Raised(Extract), [Analyze])
    case Some(p) =>
      var events := [Analyze] + RoundEvents(p, first);
      match first
      case Failed(stage, _) => Run(Raised(stage), events)
      case Stored(parsed, _) => Run(Succeeded, events + Propagate(parsed, prop))
  }

  /** `blob_trigger_v2` of the invoice trigger. */
  function InvoiceTrigger(policy: TempPolicy, name: string, svc: Services, prop: Propagation): (r: Run)
    ensures !Supported(name) ==> r == Run(Skipped, [])
    ensures r.outcome == Skipped ==> !Supported(name)
  {
    if !Supported(name) then Run(Skipped, [])
    else WithTempFile(policy, svc, InvoiceBody(PayloadOf(svc), FirstRound(name, svc), prop))
  }

  /** Everything the main trigger does once the temp file holds the upload: two rounds,
      each asking the model afresh and storing under its own row key. The second round
      runs only after the first one stored. */
  function MainBody(payload: Option<Payload>, first: RoundResult, second: RoundResult): (r: Run)
    ensures TempFree(r.events)
    ensures r.outcome != Skipped
  {
    match payload
    case None => Run(Raised(Extract), [Analyze])
    case Some(p) =>
      var events := [Analyze] + RoundEvents(p, first);
      match first
      case Failed(stage, _) => Run(Raised(stage), events)
      case Stored(_, _) =>
        var all := events + RoundEvents(p, second);
        match second
        case Failed(stage, _) => Run(Raised(stage), all)
        case Stored(_, _) => Run(Succeeded, all)
  }

  /** `blob_trigger_v2` of the main function app. */
  function MainTrigger(policy: TempPolicy, name: string, svc: Services): (r: Run)
    ensures !Supported(name) ==> r == Run(Skipped, [])
    ensures r.outcome == Skipped ==> !Supported(name)
  {
    if !Supported(name) then Run(Skipped, [])
    else WithTempFile(policy, svc, MainBody(PayloadOf(svc), FirstRound(name, svc), SecondRound(name, svc)))
  }
}
