/** What decorating the margin report leaves alone, and what exactly it writes: every
    figure of a complete row survives, an incomplete row loses the listed ones and no
    other, and the report changes nowhere else. */
module MarginExact {
  import opened Prelude
  import opened Json
  import opened Margin

  // ----------------------------------------------------------------- coverage

  /** Fresh to the millisecond: both times parse, in order, less than one second more
      than the limit apart. */
  lemma FreshExactly(clock: Clock, coverage: Coverage, upstream: Option<Json>, generatedAt: Option<string>)
    ensures Fresh(clock, coverage, upstream, generatedAt) <==>
      && generatedAt.Some? && clock(generatedAt.value).Some? && clock(coverage.observedAt).Some?
      && upstream.Some? && upstream.value.Get("freshness_max_seconds").Some?
      && upstream.value.Get("freshness_max_seconds").value.AsU64().Some?
      && var age := clock(generatedAt.value).value - clock(coverage.observedAt).value;
      && 0 <= age <= I64_MAX && age < (upstream.value.Get("freshness_max_seconds").value.n + 1) * 1_000
  {
  }

  /** Reconciling never hides anything: no count is lower than either side reports, the
      later observation is kept, and unless both sides agree an event counts as lost. */
  lemma ReconcileHidesNothing(local: Option<Coverage>, anchor: Option<Coverage>)
    ensures Reconcile(local, anchor).Some? <==> anchor.Some?
    ensures anchor.Some? ==>
      var r, a := Reconcile(local, anchor).value, anchor.value;
      && r.sequence >= a.sequence && r.pending >= a.pending && r.lost >= a.lost
      && (local.Some? ==>
            r.sequence >= local.value.sequence && r.pending >= local.value.pending && r.lost >= local.value.lost)
      && (r.sequence == a.sequence || (local.Some? && r.sequence == local.value.sequence))
      && (r.pending == a.pending || (local.Some? && r.pending == local.value.pending))
      && (r.observedAt == a.observedAt || (local.Some? && r.observedAt == local.value.observedAt))
      && (local == anchor ==> r == a)
      && (local != anchor ==>
            r.lost >= 1 && (r.lost == 1 || r.lost == a.lost || (local.Some? && r.lost == local.value.lost)))
  {
  }

  ghost predicate Says(j: Json, key: string, value: Json) {
    j.Get(key) == Some(value)
  }

  /** The coverage section repeats the coverage it was given, number by number. */
  lemma CoverageReported(clock: Clock, coverage: Coverage, upstream: Option<Json>, generatedAt: Option<string>)
    ensures
      var j := ProducerCoverage(clock, Some(coverage), upstream, generatedAt);
      && Says(j, "reported", Bool(true)) && Says(j, "sequence", Num(coverage.sequence))
      && Says(j, "pending_events", Num(coverage.pending)) && Says(j, "lost_events", Num(coverage.lost))
      && Says(j, "observed_at", Str(coverage.observedAt))
  {
  }

  /** And judges it: how old it is, whether that is fresh, and if not complete, why. */
  lemma CoverageJudged(clock: Clock, coverage: Coverage, upstream: Option<Json>, generatedAt: Option<string>)
    ensures
      var j := ProducerCoverage(clock, Some(coverage), upstream, generatedAt);
      var recent := Fresh(clock, coverage, upstream, generatedAt);
      && Says(j, "fresh", Bool(recent)) && Says(j, "freshness_max_seconds", NumOrNull(FreshnessLimit(upstream)))
      && (recent ==>
            var ms := clock(generatedAt.value).value - clock(coverage.observedAt).value;
            Says(j, "age_seconds", Num(ms / 1_000)))
      && (!recent ==> Says(j, "status", Str("stale")))
      && (recent && coverage.lost > 0 ==> Says(j, "status", Str("lost_events")))
      && (recent && coverage.lost == 0 && coverage.pending > 0 ==> Says(j, "status", Str("pending_events")))
  {
  }

  lemma NoCoverageReported(clock: Clock, upstream: Option<Json>, generatedAt: Option<string>)
    ensures
      var j := ProducerCoverage(clock, None, upstream, generatedAt);
      && Says(j, "reported", Bool(false)) && Says(j, "fresh", Bool(false)) && Says(j, "complete", Bool(false))
      && Says(j, "status", Str("missing")) && Says(j, "age_seconds", Null)
      && Says(j, "pending_events", Null) && Says(j, "lost_events", Null) && Says(j, "sequence", Null)
  {
  }

  // --------------------------------------------------------------------- rows

  const LABELS: set<string> := {"account_id", "email", "storage_bytes", "storage_measurement", "email_delivery"}

  /** The labels are those of the identity, and the account id is gone. */
  ghost predicate Labelled(r: Fields, identity: Identity) {
    var row, drivers := Obj(r), identity.drivers;
    && "account_id" !in r && Says(row, "email", Str(identity.email))
    && Says(row, "storage_bytes", if drivers.Some? then Num(drivers.value.storageBytes) else Null)
    && Says(row, "storage_measurement", Str(if drivers.Some? then "current_logical_bytes" else "unavailable"))
    && row.Get("email_delivery").Some?
    && var mail := row.Get("email_delivery").value;
    && Says(mail, "accepted_message_count", if drivers.Some? then Num(drivers.value.acceptedEmails) else Null)
    && Says(mail, "usd_micros", Null) && Says(mail, "status", Str("provider_invoice_unavailable"))
  }

  /** Where there was an object under the key there still is, the same but for some keys
      of its own; anything else is as it was. */
  ghost predicate ObjectEdited(after: Fields, before: Fields, key: string, keys: set<string>) {
    if key in before && before[key].Obj? then
      key in after && after[key].Obj? && SameBut(after[key].fields, before[key].fields, keys)
    else
      SameAt(after, before, key)
  }

  ghost predicate DirectKept(after: Fields, before: Fields, coverage: Json) {
    && ObjectEdited(after, before, "direct_vertex", {"producer_coverage"})
    && CoverageWritten(after, coverage)
  }

  ghost predicate CoverageWritten(row: Fields, coverage: Json) {
    "direct_vertex" in row && row["direct_vertex"].Obj? ==> CoverageOf(row) == Some(coverage)
  }

  ghost predicate DirectWithheld(after: Fields, before: Fields, coverage: Json) {
    && ObjectEdited(after, before, "direct_vertex",
         {"producer_coverage", "complete", "estimated_total_usd_micros", "by_operation"})
    && CoverageWritten(after, coverage)
    && OperationsWithheld(ObjectAt(after, "direct_vertex"), ObjectAt(before, "direct_vertex"))
  }

  ghost predicate OperationsWithheld(after: Fields, before: Fields) {
    && ObjectEdited(after, before, "by_operation", {"audio_understanding"})
    && AudioWithheld(ObjectAt(after, "by_operation"), ObjectAt(before, "by_operation"))
  }

  ghost predicate AudioWithheld(after: Fields, before: Fields) {
    && ObjectEdited(after, before, "audio_understanding", {"complete", "uncached_input_audio_usd_micros"})
    && ("audio_understanding" in after && after["audio_understanding"].Obj? ==>
          && Says(after["audio_understanding"], "complete", Bool(false))
          && Says(after["audio_understanding"], "uncached_input_audio_usd_micros", Null))
  }

  lemma AudioIsWithheld(operations: Fields)
    ensures AudioWithheld(EditObject(operations, "audio_understanding", NullAudio), operations)
  {
  }

  lemma OperationsAreWithheld(direct: Fields)
    ensures OperationsWithheld(NullDirect(direct), direct)
    ensures SameBut(NullDirect(direct), direct, {"complete", "estimated_total_usd_micros", "by_operation"})
  {
    AudioIsWithheld(ObjectAt(direct, "by_operation"));
  }

  lemma LabelRowExact(row: Fields, identity: Identity)
    ensures Labelled(LabelRow(row, identity), identity) && SameBut(LabelRow(row, identity), row, LABELS)
  {
  }

  /** A decorated row against the upstream row it came from. */
  ghost predicate RowExact(r: Fields, row: Fields, identity: Identity, coverage: Json) {
    && Labelled(r, identity)
    && if SaysComplete(Some(coverage)) then
         SameBut(r, row, LABELS + {"direct_vertex"}) && DirectKept(r, row, coverage)
       else
         && SameBut(r, row, LABELS + {"direct_vertex"} + ROW_COSTS) && CostsWithheld(r)
         && DirectWithheld(r, row, coverage)
  }

  lemma NoLabelIsAFigure()
    ensures LABELS !! ROW_COSTS && "direct_vertex" !in LABELS && "direct_vertex" !in ROW_COSTS
  {
  }

  lemma KeptRowExact(account: Fields, row: Fields, identity: Identity, coverage: Json)
    requires Labelled(account, identity) && SameBut(account, row, LABELS)
    ensures Labelled(PutCoverage(account, coverage), identity)
    ensures SameBut(PutCoverage(account, coverage), row, LABELS + {"direct_vertex"})
    ensures DirectKept(PutCoverage(account, coverage), row, coverage)
  {
    NoLabelIsAFigure();
    assert SameAt(account, row, "direct_vertex");
  }

  lemma WithheldDirectExact(covered: Fields, row: Fields, coverage: Json)
    requires DirectKept(covered, row, coverage)
    ensures DirectWithheld(NullRowCosts(covered), row, coverage)
  {
    NoLabelIsAFigure();
    var direct := ObjectAt(covered, "direct_vertex");
    OperationsAreWithheld(direct);
    assert ObjectAt(NullRowCosts(covered), "direct_vertex") ==
      if "direct_vertex" in covered && covered["direct_vertex"].Obj? then NullDirect(direct) else map[];
    OperationsOfSame(NullDirect(direct), direct, ObjectAt(row, "direct_vertex"));
    NullRowCostsWithholds(covered);
  }

  lemma OperationsOfSame(after: Fields, covered: Fields, before: Fields)
    requires OperationsWithheld(after, covered) && SameBut(covered, before, {"producer_coverage"})
    ensures OperationsWithheld(after, before)
  {
    assert SameAt(covered, before, "by_operation");
  }

  lemma SameButBoth(a: Fields, b: Fields, c: Fields, ks: set<string>, ls: set<string>)
    requires SameBut(a, b, ks) && SameBut(b, c, ls)
    ensures SameBut(a, c, ls + ks)
  {
    forall k | k !in ls + ks ensures SameAt(a, c, k) {
      assert SameAt(a, b, k) && SameAt(b, c, k);
    }
  }

  lemma LabelsStay(a: Fields, b: Fields, keys: set<string>, identity: Identity)
    requires SameBut(a, b, keys) && keys !! LABELS && Labelled(b, identity)
    ensures Labelled(a, identity)
  {
    assert forall k | k in LABELS :: SameAt(a, b, k);
    assert SameAt(a, b, "account_id") && SameAt(a, b, "email") && SameAt(a, b, "storage_bytes");
    assert SameAt(a, b, "storage_measurement") && SameAt(a, b, "email_delivery");
  }

  lemma NullRowCostsFrame(row: Fields)
    ensures SameBut(NullRowCosts(row), row, {"direct_vertex"} + ROW_COSTS)
  {
  }

  lemma WithheldRowExact(covered: Fields, row: Fields, identity: Identity, coverage: Json)
    requires Labelled(covered, identity) && SameBut(covered, row, LABELS + {"direct_vertex"})
    requires DirectKept(covered, row, coverage)
    ensures Labelled(NullRowCosts(covered), identity) && CostsWithheld(NullRowCosts(covered))
    ensures SameBut(NullRowCosts(covered), row, LABELS + {"direct_vertex"} + ROW_COSTS)
    ensures DirectWithheld(NullRowCosts(covered), row, coverage)
  {
    NoLabelIsAFigure();
    NullRowCostsFrame(covered);
    LabelsStay(NullRowCosts(covered), covered, {"direct_vertex"} + ROW_COSTS, identity);
    SameButBoth(NullRowCosts(covered), covered, row, {"direct_vertex"} + ROW_COSTS, LABELS + {"direct_vertex"});
    assert LABELS + {"direct_vertex"} + ({"direct_vertex"} + ROW_COSTS) == LABELS + {"direct_vertex"} + ROW_COSTS;
    NullRowCostsWithholds(covered);
    WithheldDirectExact(covered, row, coverage);
  }

  lemma JudgedRowExact(row: Fields, identity: Identity, coverage: Json)
    ensures RowExact(JudgeRow(LabelRow(row, identity), coverage), row, identity, coverage)
  {
    var account := LabelRow(row, identity);
    LabelRowExact(row, identity);
    KeptRowExact(account, row, identity, coverage);
    WithheldRowExact(PutCoverage(account, coverage), row, identity, coverage);
  }

  /** Rows of known accounts are kept, and no others. */
  lemma RowKeptExactly(clock: Clock, row: Json, identities: seq<Identity>, generatedAt: Option<string>)
    ensures
      var id := row.Get("account_id");
      DecorateRow(clock, row, identities, generatedAt).Some? <==>
        id.Some? && id.value.Str? && exists i | i in identities :: i.accountId == id.value.s
  {
  }

  /** The coverage a kept row is judged by. */
  ghost function RowCoverage(clock: Clock, row: Json, identity: Identity, generatedAt: Option<string>): Json
    requires row.Obj?
  {
    ProducerCoverage(clock, LocalCoverage(identity), CoverageOf(row.fields), generatedAt)
  }

  lemma RowIsJudged(clock: Clock, row: Json, identities: seq<Identity>, generatedAt: Option<string>, identity: Identity)
    requires row.Get("account_id") == Some(Str(identity.accountId))
        && Find(identities, identity.accountId) == Some(identity)
    ensures DecorateRow(clock, row, identities, generatedAt)
            == Some(JudgeRow(LabelRow(row.fields, identity), RowCoverage(clock, row, identity, generatedAt)))
  {
    LabelRowKeeps(row.fields, identity);
    assert CoverageOf(LabelRow(row.fields, identity)) == CoverageOf(row.fields);
  }

  /** Every row exactly: the labels of its account; under complete coverage every figure of
      the upstream row; under incomplete coverage none of the listed figures, and all else
      as it was. */
  lemma DecoratedRowExact(clock: Clock, row: Json, identities: seq<Identity>, generatedAt: Option<string>,
                          identity: Identity)
    requires row.Get("account_id") == Some(Str(identity.accountId))
        && Find(identities, identity.accountId) == Some(identity)
    ensures
      var r := DecorateRow(clock, row, identities, generatedAt);
      r.Some? && RowExact(r.value, row.fields, identity, RowCoverage(clock, row, identity, generatedAt))
  {
    RowIsJudged(clock, row, identities, generatedAt, identity);
    JudgedRowExact(row.fields, identity, RowCoverage(clock, row, identity, generatedAt));
  }

  // ------------------------------------------------------------------- report

  /** Taking the pool out of a row touches nothing else. */
  lemma UnallocatedRowExact(row: Fields)
    ensures SameBut(UnallocateRow(row), row, {ROW_POOLS})
    ensures ObjectEdited(UnallocateRow(row), row, ROW_POOLS, {"vertex"})
    ensures ObjectEdited(ObjectAt(UnallocateRow(row), ROW_POOLS), ObjectAt(row, ROW_POOLS), "vertex",
              POOL_FIGURES + {"status"})
  {
  }

  lemma UnallocatedReportExact(report: Fields)
    ensures
      var r := UnallocateReport(report);
      && SameBut(r, report, {"cost_completeness", "allocation_status", "allocation_basis", "allocation"})
      && ObjectEdited(r, report, "allocation_basis", {"vertex_cost_complete"})
      && ObjectEdited(r, report, "allocation",
           {"status", "reason", "unallocated_usd_micros", "vertex_reconciliation"})
  {
  }

  lemma UnallocatedAllocationExact(allocation: Fields, net: Json)
    ensures
      var a := UnallocateAllocation(allocation, net);
      && Says(Obj(a), "reason", Str("local_vertex_coverage_incomplete"))
      && ObjectEdited(a, allocation, "unallocated_usd_micros", {"vertex"})
      && ObjectEdited(a, allocation, "vertex_reconciliation",
           {"complete_producer_coverage", "observed_within_tolerance"})
  {
  }

  /** Rows come out in the order they came in, one for one. */
  lemma {:induction false} KeptInOrder<A, B>(xs: seq<A>, ys: seq<A>, f: A -> Option<B>)
    ensures Kept(xs + ys, f) == Kept(xs, f) + Kept(ys, f)
  {
    if ys == [] {
      assert xs + ys == xs;
    } else {
      var front := ys[..|ys| - 1];
      KeptInOrder(xs, front, f);
      assert (xs + ys)[..|xs + ys| - 1] == xs + front && (xs + ys)[|xs + ys| - 1] == ys[|ys| - 1];
    }
  }

  lemma KeptOne<A, B>(x: A, f: A -> Option<B>)
    ensures Kept([x], f) == if f(x).Some? then [f(x).value] else []
  {
    assert [x][..0] == [];
  }

  /** The figures about accounts are those handed in. */
  lemma MetricsReported(report: Fields, rows: seq<Fields>, metrics: Metrics)
    ensures
      var j := Finish(report, rows, metrics);
      && Says(j, "margin_kind", Str("estimated_contribution_margin")) && j.Get("account_metrics").Some?
      && var m := j.Get("account_metrics").value;
      && Says(m, "retained_active_accounts", Num(metrics.retained))
      && Says(m, "new_retained_active_accounts_mtd", Num(metrics.recent))
      && Says(m, "period", Str(metrics.period)) && Says(m, "as_of", Str(metrics.asOf))
  {
  }

  const REPORT_LABELS: set<string> := {"rows", "accounts", "margin_kind", "account_metrics"}
  const ALLOCATION_KEYS: set<string> := {"cost_completeness", "allocation_status", "allocation_basis", "allocation"}

  lemma WithoutRows(fields: Fields)
    ensures SameBut(fields - {"rows"}, fields, {"rows"})
  {
  }

  lemma FinishExact(report: Fields, before: Fields, rows: seq<Fields>, metrics: Metrics, keys: set<string>)
    requires SameBut(report, before, {"rows"} + keys) && "rows" !in report
    ensures Finish(report, rows, metrics).Obj? && "rows" !in Finish(report, rows, metrics).fields
    ensures SameBut(Finish(report, rows, metrics).fields, before, REPORT_LABELS + keys)
  {
    FinishKeeps(report, rows, metrics, Null);
    SameButBoth(Finish(report, rows, metrics).fields, report, before,
                {"accounts", "margin_kind", "account_metrics"}, {"rows"} + keys);
    assert {"rows"} + keys + {"accounts", "margin_kind", "account_metrics"} == REPORT_LABELS + keys;
  }

  lemma UnallocatedRest(fields: Fields)
    ensures SameBut(UnallocateReport(fields - {"rows"}), fields, {"rows"} + ALLOCATION_KEYS)
    ensures "rows" !in UnallocateReport(fields - {"rows"})
  {
    var rest := fields - {"rows"};
    UnallocatedReportExact(rest);
    WithoutRows(fields);
    SameButBoth(UnallocateReport(rest), rest, fields, ALLOCATION_KEYS, {"rows"});
    assert SameAt(UnallocateReport(rest), rest, "rows");
  }

  /** The whole report: apart from its rows, labels and metrics, a complete one is the
      upstream report, and an incomplete one differs from it in what it says about
      allocation alone. */
  lemma ReportExact(clock: Clock, report: Json, identities: seq<Identity>, anchored: bool, metrics: Metrics)
    ensures
      var decorated := Decorated(clock, report, identities, anchored, metrics);
      var complete := anchored && AllMeet(clock, report, identities);
      && decorated.Obj? && "rows" !in decorated.fields
      && SameBut(decorated.fields, FieldsOf(report), REPORT_LABELS + if complete then {} else ALLOCATION_KEYS)
  {
    var rows, fields := OwnRows(clock, report, identities), FieldsOf(report);
    OwnRowsComplete(clock, report, identities);
    if anchored && AllComplete(rows) {
      WithoutRows(fields);
      assert {"rows"} + {} == {"rows"};
      FinishExact(fields - {"rows"}, fields, Shown(rows, true), metrics, {});
    } else {
      UnallocatedRest(fields);
      FinishExact(UnallocateReport(fields - {"rows"}), fields, Shown(rows, false), metrics, ALLOCATION_KEYS);
    }
  }
}
