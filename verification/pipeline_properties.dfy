/** What the blob-trigger traces guarantee: which exits clean up the temp file, how each
    stage's failure surfaces, that the spreadsheet update never decides the outcome, and
    which entities end up in the table. */
module PipelineProperties {
  import opened Wrappers
  import opened Text
  import opened PyJson
  import opened Extraction
  import opened Pipeline

  // ---------------------------------------------------------------------------
  // The temp file

  /** The frame keeps every body's trace clean once the path is recorded first. */
  lemma FrameCleans(svc: Services, body: Run)
    requires TempFree(body.events)
    ensures TempCleaned(WithTempFile(PathFirst, svc, body).events)
  {
    var r := WithTempFile(PathFirst, svc, body);
    if svc.tempCreated && svc.tempWritten {
      assert r.events[1..|r.events| - 1] == body.events;
    } else if svc.tempCreated {
      assert r.events == [CreateTemp, RemoveTemp];
      assert r.events[1..|r.events| - 1] == [];
    }
  }

  /** Recording the path as soon as the file exists removes it on every exit, in both
      triggers. */
  lemma PathFirstCleansUp(name: string, svc: Services, prop: Propagation)
    ensures TempCleaned(InvoiceTrigger(PathFirst, name, svc, prop).events)
    ensures TempCleaned(MainTrigger(PathFirst, name, svc).events)
  {
    if Supported(name) {
      FrameCleans(svc, InvoiceBody(PayloadOf(svc), FirstRound(name, svc), prop));
      FrameCleans(svc, MainBody(PayloadOf(svc), FirstRound(name, svc), SecondRound(name, svc)));
    }
  }

  /** As written, the frame leaves the file behind exactly when writing the upload into
      it fails: the path is not recorded yet, so `finally` skips it. */
  lemma FrameAsWritten(svc: Services, body: Run)
    requires TempFree(body.events)
    ensures TempCleaned(WithTempFile(AsWritten, svc, body).events) <==> !(svc.tempCreated && !svc.tempWritten)
  {
    var r := WithTempFile(AsWritten, svc, body);
    if svc.tempCreated && svc.tempWritten {
      assert r.events[1..|r.events| - 1] == body.events;
    } else if svc.tempCreated {
      assert r.events == [CreateTemp];
    }
  }

  /** As written, the only exit of either trigger that leaves the temp file behind is a
      failure while the upload is written into it. */
  lemma AsWrittenLeaksOnlyOnWrite(name: string, svc: Services, prop: Propagation)
    ensures TempCleaned(InvoiceTrigger(AsWritten, name, svc, prop).events) <==>
      !(Supported(name) && svc.tempCreated && !svc.tempWritten)
    ensures TempCleaned(MainTrigger(AsWritten, name, svc).events) <==>
      !(Supported(name) && svc.tempCreated && !svc.tempWritten)
  {
    if Supported(name) {
      FrameAsWritten(svc, InvoiceBody(PayloadOf(svc), FirstRound(name, svc), prop));
      FrameAsWritten(svc, MainBody(PayloadOf(svc), FirstRound(name, svc), SecondRound(name, svc)));
    }
  }

  /** The failing write: the run re-raises and the trace ends with the file created and
      never removed; recording the path first removes it. */
  lemma AsWrittenLeakTrace(name: string, svc: Services, prop: Propagation)
    requires Supported(name) && svc.tempCreated && !svc.tempWritten
    ensures InvoiceTrigger(AsWritten, name, svc, prop) == Run(Raised(Save), [CreateTemp])
    ensures InvoiceTrigger(PathFirst, name, svc, prop) == Run(Raised(Save), [CreateTemp, RemoveTemp])
    ensures MainTrigger(AsWritten, name, svc) == Run(Raised(Save), [CreateTemp])
  {
  }

  // ---------------------------------------------------------------------------
  // Outcomes

  /** The invoice trigger succeeds exactly when every stage does; otherwise it re-raises
      from the first stage that failed. */
  lemma InvoiceOutcome(policy: TempPolicy, name: string, svc: Services, prop: Propagation)
    requires Supported(name)
    ensures var r := InvoiceTrigger(policy, name, svc, prop);
      (r.outcome == Raised(Save) <==> !svc.tempCreated || !svc.tempWritten) &&
      (r.outcome == Raised(Extract) <==> svc.tempCreated && svc.tempWritten && AnalysisFails(svc)) &&
      (r.outcome == Succeeded <==>
        svc.tempCreated && svc.tempWritten && !AnalysisFails(svc) && FirstRound(name, svc).Stored?)
    ensures svc.tempCreated && svc.tempWritten && !AnalysisFails(svc) && FirstRound(name, svc).Failed? ==>
      InvoiceTrigger(policy, name, svc, prop).outcome == Raised(FirstRound(name, svc).stage)
  {
  }

  /** The main trigger needs both rounds to succeed, and a failure in either re-raises from
      that round's stage. */
  lemma MainOutcome(policy: TempPolicy, name: string, svc: Services)
    requires Supported(name) && svc.tempCreated && svc.tempWritten && !AnalysisFails(svc)
    ensures var r := MainTrigger(policy, name, svc);
      var first := FirstRound(name, svc);
      var second := SecondRound(name, svc);
      (r.outcome == Succeeded <==> first.Stored? && second.Stored?) &&
      (first.Failed? ==> r.outcome == Raised(first.stage)) &&
      (first.Stored? && second.Failed? ==> r.outcome == Raised(second.stage))
  {
  }

  // ---------------------------------------------------------------------------
  // Traces of the bodies

  /** The frame adds no upsert and no post of its own. */
  lemma FrameTrace(policy: TempPolicy, svc: Services, body: Run)
    requires TempFree(body.events)
    requires svc.tempCreated && svc.tempWritten
    ensures Posted(WithTempFile(policy, svc, body).events) == Posted(body.events)
    ensures WithoutPosts(WithTempFile(policy, svc, body).events) ==
            [CreateTemp] + WithoutPosts(body.events) + [RemoveTemp]
  {
    PostedAppend([CreateTemp], body.events);
    PostedAppend([CreateTemp] + body.events, [RemoveTemp]);
    WithoutPostsAppend([CreateTemp], body.events);
    WithoutPostsAppend([CreateTemp] + body.events, [RemoveTemp]);
  }

  /** A successful invoice body stores the round's entity and posts the summary exactly
      when both settings exist and the summary can be built. */
  lemma InvoiceBodySucceeds(payload: Option<Payload>, first: RoundResult, prop: Propagation)
    requires InvoiceBody(payload, first, prop).outcome == Succeeded
    ensures payload.Some? && first.Stored?
    ensures AppliedUpserts(InvoiceBody(payload, first, prop).events) == [first.entity]
    ensures Posted(InvoiceBody(payload, first, prop).events) ==
      if first.parsed.JObj? && prop.urlSet && prop.keySet && Summary(first.parsed).Some?
      then [Summary(first.parsed).value] else []
  {
    var events := [Analyze] + RoundEvents(payload.value, first);
    var post := Propagate(first.parsed, prop);
    PostedAppend([Analyze], RoundEvents(payload.value, first));
    PostedAppend(events, post);
    AppliedUpsertsAppend([Analyze], RoundEvents(payload.value, first));
    AppliedUpsertsAppend(events, post);
  }

  /** The invoice body's calls other than the update do not depend on the settings. */
  lemma InvoiceBodyWithoutPosts(payload: Option<Payload>, first: RoundResult, p: Propagation, q: Propagation)
    ensures InvoiceBody(payload, first, p).outcome == InvoiceBody(payload, first, q).outcome
    ensures WithoutPosts(InvoiceBody(payload, first, p).events) == WithoutPosts(InvoiceBody(payload, first, q).events)
  {
    if payload.Some? && first.Stored? {
      var events := [Analyze] + RoundEvents(payload.value, first);
      WithoutPostsAppend(events, Propagate(first.parsed, p));
      WithoutPostsAppend(events, Propagate(first.parsed, q));
      assert WithoutPosts(Propagate(first.parsed, p)) == [];
      assert WithoutPosts(Propagate(first.parsed, q)) == [];
    }
  }

  /** A successful main body stores both rounds' entities, in order, and posts nothing. */
  lemma MainBodySucceeds(payload: Option<Payload>, first: RoundResult, second: RoundResult)
    requires MainBody(payload, first, second).outcome == Succeeded
    ensures payload.Some? && first.Stored? && second.Stored?
    ensures AppliedUpserts(MainBody(payload, first, second).events) == [first.entity, second.entity]
    ensures Posted(MainBody(payload, first, second).events) == []
  {
    var a, b := RoundEvents(payload.value, first), RoundEvents(payload.value, second);
    AppliedUpsertsAppend([Analyze], a);
    AppliedUpsertsAppend([Analyze] + a, b);
    PostedAppend([Analyze], a);
    PostedAppend([Analyze] + a, b);
  }

  /** A failing second round leaves the first round's entity as the only one stored. */
  lemma MainBodyKeepsFirst(payload: Option<Payload>, first: RoundResult, second: RoundResult)
    requires payload.Some? && first.Stored? && second.Failed?
    ensures MainBody(payload, first, second).outcome == Raised(second.stage)
    ensures AppliedUpserts(MainBody(payload, first, second).events) == [first.entity]
  {
    var a, b := RoundEvents(payload.value, first), RoundEvents(payload.value, second);
    AppliedUpsertsAppend([Analyze], a);
    AppliedUpsertsAppend([Analyze] + a, b);
  }

  // ---------------------------------------------------------------------------
  // Propagation

  /** The spreadsheet update is best effort: whether its settings exist changes neither
      the outcome nor any other call. */
  lemma PropagationNeverDecides(policy: TempPolicy, name: string, svc: Services, p: Propagation, q: Propagation)
    ensures InvoiceTrigger(policy, name, svc, p).outcome == InvoiceTrigger(policy, name, svc, q).outcome
    ensures WithoutPosts(InvoiceTrigger(policy, name, svc, p).events) ==
            WithoutPosts(InvoiceTrigger(policy, name, svc, q).events)
  {
    var payload, first := PayloadOf(svc), FirstRound(name, svc);
    InvoiceBodyWithoutPosts(payload, first, p, q);
    if Supported(name) && svc.tempCreated && svc.tempWritten {
      FrameTrace(policy, svc, InvoiceBody(payload, first, p));
      FrameTrace(policy, svc, InvoiceBody(payload, first, q));
    }
  }

  /** A successful invoice run posts the summary of the parsed reply exactly when both
      settings exist and the summary can be built. */
  lemma InvoicePostsSummary(policy: TempPolicy, name: string, svc: Services, prop: Propagation)
    requires InvoiceTrigger(policy, name, svc, prop).outcome == Succeeded
    ensures var parsed := ParsedReply(svc.reply1, svc.parse).value;
      parsed.JObj? &&
      Posted(InvoiceTrigger(policy, name, svc, prop).events) ==
        if prop.urlSet && prop.keySet && Summary(parsed).Some? then [Summary(parsed).value] else []
  {
    var body := InvoiceBody(PayloadOf(svc), FirstRound(name, svc), prop);
    InvoiceBodySucceeds(PayloadOf(svc), FirstRound(name, svc), prop);
    FrameTrace(policy, svc, body);
  }

  // ---------------------------------------------------------------------------
  // Stored entities

  /** A successful invoice run stores one entity: the first round's. */
  lemma InvoiceStoresOnce(policy: TempPolicy, name: string, svc: Services, prop: Propagation)
    requires InvoiceTrigger(policy, name, svc, prop).outcome == Succeeded
    ensures FirstRound(name, svc).Stored?
    ensures AppliedUpserts(InvoiceTrigger(policy, name, svc, prop).events) == [FirstRound(name, svc).entity]
  {
    InvoiceBodySucceeds(PayloadOf(svc), FirstRound(name, svc), prop);
  }

  /** A successful main run stores two entities, one per round and in order, and never
      posts the update. */
  lemma MainStoresTwice(policy: TempPolicy, name: string, svc: Services)
    requires MainTrigger(policy, name, svc).outcome == Succeeded
    ensures FirstRound(name, svc).Stored? && SecondRound(name, svc).Stored?
    ensures AppliedUpserts(MainTrigger(policy, name, svc).events) ==
      [FirstRound(name, svc).entity, SecondRound(name, svc).entity]
    ensures Posted(MainTrigger(policy, name, svc).events) == []
  {
    var body := MainBody(PayloadOf(svc), FirstRound(name, svc), SecondRound(name, svc));
    MainBodySucceeds(PayloadOf(svc), FirstRound(name, svc), SecondRound(name, svc));
    FrameTrace(policy, svc, body);
  }

  /** When the second round fails the first round's entity stays stored: the run raises
      after one upsert. */
  lemma MainSecondRoundFailureKeepsFirst(policy: TempPolicy, name: string, svc: Services)
    requires Supported(name) && svc.tempCreated && svc.tempWritten && !AnalysisFails(svc)
    requires FirstRound(name, svc).Stored? && SecondRound(name, svc).Failed?
    ensures MainTrigger(policy, name, svc).outcome == Raised(SecondRound(name, svc).stage)
    ensures AppliedUpserts(MainTrigger(policy, name, svc).events) == [FirstRound(name, svc).entity]
  {
    MainBodyKeepsFirst(PayloadOf(svc), FirstRound(name, svc), SecondRound(name, svc));
  }

  /** The entities of two stored rounds: both say `Verified` false, each carries its own
      row key and, unless a reply names one, both sit under the file's partition key. */
  lemma StoredRoundsShareKey(name: string, svc: Services)
    requires FirstRound(name, svc).Stored? && SecondRound(name, svc).Stored?
    ensures var a, b := FirstRound(name, svc), SecondRound(name, svc);
      a.entity["Verified"] == JBool(false) && b.entity["Verified"] == JBool(false) &&
      ("PartitionKey" !in ObjectMap(a.parsed.fields) && "PartitionKey" !in ObjectMap(b.parsed.fields) ==>
        a.entity["PartitionKey"] == b.entity["PartitionKey"] == JStr(PartitionKeyOf(name))) &&
      ("RowKey" !in ObjectMap(a.parsed.fields) ==> a.entity["RowKey"] == JStr(svc.rowKey1)) &&
      ("RowKey" !in ObjectMap(b.parsed.fields) ==> b.entity["RowKey"] == JStr(svc.rowKey2))
  {
  }
}
