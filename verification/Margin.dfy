/** The admin margin report: reconciling an account's local coverage with its anchor,
    and decorating the upstream report so that incomplete coverage withholds every
    figure that would depend on it. Times are text; parsing them is a parameter. */
module Margin {
  import opened Prelude
  import opened Json

  type Fields = map<string, Json>

  /** parse_epoch_millis. */
  type Clock = string -> Option<int>

  datatype Coverage = Coverage(sequence: nat, pending: nat, lost: nat, observedAt: string)

  // ---------------------------------------------------------- reconciliation

  /** The order of text by its characters. */
  predicate TextAtMost(a: string, b: string) {
    a == "" || (b != "" && (a[0] < b[0] || (a[0] == b[0] && TextAtMost(a[1..], b[1..]))))
  }

  function LaterText(a: string, b: string): string {
    if TextAtMost(a, b) then b else a
  }

  /** The coverage used for an account: the local one if the anchor says the same,
      otherwise one that admits to at least one lost event, or none at all. */
  function Reconcile(local: Option<Coverage>, anchor: Option<Coverage>): Option<Coverage> {
    if anchor.None? then None
    else if local == anchor then local
    else if local.Some? then
      var l, a := local.value, anchor.value;
      Some(Coverage(
        Max(l.sequence, a.sequence), Max(l.pending, a.pending), Max(Max(l.lost, a.lost), 1),
        LaterText(l.observedAt, a.observedAt)))
    else Some(anchor.value.(lost := Max(anchor.value.lost, 1)))
  }

  /** Whole seconds from observation to report, if both times parse and are in order. */
  function Age(clock: Clock, coverage: Coverage, generatedAt: Option<string>): Option<nat> {
    if generatedAt.None? then None
    else
      var generated, observed := clock(generatedAt.value), clock(coverage.observedAt);
      if generated.None? || observed.None? then None
      else
        var age := generated.value - observed.value;
        if age < 0 || age > I64_MAX then None else Some(age / 1_000)
  }

  function FreshnessLimit(upstream: Option<Json>): Option<int> {
    var limit := if upstream.Some? then upstream.value.Get("freshness_max_seconds") else None;
    if limit.Some? then limit.value.AsU64() else None
  }

  predicate Fresh(clock: Clock, coverage: Coverage, upstream: Option<Json>, generatedAt: Option<string>) {
    var age, limit := Age(clock, coverage, generatedAt), FreshnessLimit(upstream);
    age.Some? && limit.Some? && age.value <= limit.value
  }

  function NumOrNull(n: Option<int>): Json {
    if n.Some? then Num(n.value) else Null
  }

  function CoverageStatus(coverage: Option<Coverage>, recent: bool): string {
    if coverage.None? then "missing"
    else if !recent then "stale"
    else if coverage.value.lost != 0 then "lost_events"
    else if coverage.value.pending != 0 then "pending_events"
    else "bounded_recent_zero_backlog"
  }

  function ProducerCoverage(clock: Clock, coverage: Option<Coverage>, upstream: Option<Json>,
                            generatedAt: Option<string>): Json {
    var age := if coverage.Some? then Age(clock, coverage.value, generatedAt) else None;
    var recent := coverage.Some? && Fresh(clock, coverage.value, upstream, generatedAt);
    Obj(map[
      "reported" := Bool(coverage.Some?),
      "pending_events" := if coverage.Some? then Num(coverage.value.pending) else Null,
      "lost_events" := if coverage.Some? then Num(coverage.value.lost) else Null,
      "sequence" := if coverage.Some? then Num(coverage.value.sequence) else Null,
      "observed_at" := if coverage.Some? then Str(coverage.value.observedAt) else Null,
      "age_seconds" := if age.Some? then Num(age.value) else Null,
      "freshness_max_seconds" := NumOrNull(FreshnessLimit(upstream)),
      "fresh" := Bool(recent),
      "basis" := Str("bounded_recent_zero_backlog_snapshot"),
      "population_complete" := Bool(false),
      "status" := Str(CoverageStatus(coverage, recent)),
      "complete" := Bool(recent && coverage.value.pending == 0 && coverage.value.lost == 0)])
  }

  predicate SaysComplete(coverage: Option<Json>) {
    coverage.Some? && coverage.value.Get("complete") == Some(Bool(true))
  }

  /** Coverage counts as complete exactly when local and anchored coverage are the same,
      neither pending nor lost events remain, and the observation is fresh; and exactly
      then does the status say so. */
  lemma CompleteExactly(clock: Clock, local: Option<Coverage>, anchor: Option<Coverage>, upstream: Option<Json>,
                        generatedAt: Option<string>)
    ensures
      var json := ProducerCoverage(clock, Reconcile(local, anchor), upstream, generatedAt);
      && (SaysComplete(Some(json)) <==>
            && local.Some? && local == anchor && local.value.pending == 0 && local.value.lost == 0
            && Fresh(clock, local.value, upstream, generatedAt))
      && (SaysComplete(Some(json)) <==> json.Get("status") == Some(Str("bounded_recent_zero_backlog")))
  {
  }

  // ------------------------------------------------------------- JSON editing

  /** get_mut(key) and as_object_mut: edits the object under a key, if there is one. */
  function EditObject(fields: Fields, key: string, edit: Fields -> Fields): (r: Fields)
    ensures r.Keys == fields.Keys && forall k | k in fields && k != key :: r[k] == fields[k]
  {
    if key in fields && fields[key].Obj? then fields[key := Obj(edit(fields[key].fields))] else fields
  }

  function Nulls(keys: set<string>): Fields {
    map k | k in keys :: Null
  }

  /** The object under a key, or the empty one. */
  function ObjectAt(fields: Fields, key: string): Fields {
    if key in fields && fields[key].Obj? then fields[key].fields else map[]
  }

  function NullAudio(audio: Fields): Fields {
    audio["complete" := Bool(false)]["uncached_input_audio_usd_micros" := Null]
  }

  function NullDirect(direct: Fields): Fields {
    EditObject(direct["complete" := Bool(false)]["estimated_total_usd_micros" := Null], "by_operation",
      operations => EditObject(operations, "audio_understanding", NullAudio))
  }

  const ROW_COSTS: set<string> := {
    "allocated_known_cost_usd_micros",
    "total_attributable_cost_usd_micros",
    "estimated_direct_contribution_usd_micros",
    "estimated_cash_direct_contribution_after_credits_usd_micros",
    "estimated_fully_loaded_contribution_usd_micros",
    "estimated_fully_loaded_margin_bps",
    "modeled_rate_card_direct_contribution_usd_micros",
    "modeled_rate_card_direct_margin_bps",
    "estimated_contribution_before_storage_and_shared_usd_micros",
    "estimated_margin_before_storage_and_shared_bps"
  }

  function NullRowCosts(row: Fields): Fields {
    EditObject(row, "direct_vertex", NullDirect) + Nulls(ROW_COSTS)
  }

  const POOL_FIGURES: set<string> := {
    "usd_micros", "gross_usd_micros", "credits_usd_micros", "net_usd_micros", "cash_usd_micros"
  }

  function UnallocatePool(pool: Fields): Fields {
    (pool + Nulls(POOL_FIGURES))["status" := Str("unallocated")]
  }

  const ROW_POOLS := "allocated_gcp_observed_costs"

  function UnallocateRow(row: Fields): Fields {
    EditObject(row, ROW_POOLS, costs => EditObject(costs, "vertex", UnallocatePool))
  }

  /** The row's Vertex pool, if it has one, holds no figure and says so. */
  ghost predicate PoolWithheld(row: Fields) {
    var costs := ObjectAt(row, ROW_POOLS);
    "vertex" in costs && costs["vertex"].Obj? ==>
      && costs["vertex"].Get("status") == Some(Str("unallocated"))
      && forall k | k in POOL_FIGURES :: costs["vertex"].Get(k) == Some(Null)
  }

  /** An incomplete row shows none of the figures that rest on Vertex cost. */
  ghost predicate CostsWithheld(row: Fields) {
    && (forall k | k in ROW_COSTS :: k in row && row[k] == Null)
    && ("direct_vertex" in row && row["direct_vertex"].Obj? ==>
          && row["direct_vertex"].Get("complete") == Some(Bool(false))
          && row["direct_vertex"].Get("estimated_total_usd_micros") == Some(Null))
  }

  function CoverageOf(row: Fields): Option<Json> {
    if "direct_vertex" in row then row["direct_vertex"].Get("producer_coverage") else None
  }

  predicate RowComplete(row: Fields) {
    SaysComplete(CoverageOf(row))
  }

  lemma UnallocateRowWithholds(row: Fields)
    ensures PoolWithheld(UnallocateRow(row))
    ensures forall k | k != ROW_POOLS :: k in UnallocateRow(row) <==> k in row
    ensures forall k | k != ROW_POOLS && k in row :: UnallocateRow(row)[k] == row[k]
  {
  }

  lemma RowCostsAreFigures()
    ensures "direct_vertex" !in ROW_COSTS && ROW_POOLS !in ROW_COSTS
  {
  }

  lemma NullRowCostsWithholds(row: Fields)
    ensures CostsWithheld(NullRowCosts(row))
    ensures CoverageOf(NullRowCosts(row)) == CoverageOf(row)
    ensures ROW_POOLS in row <==> ROW_POOLS in NullRowCosts(row)
    ensures ROW_POOLS in row ==> NullRowCosts(row)[ROW_POOLS] == row[ROW_POOLS]
  {
    RowCostsAreFigures();
  }

  // --------------------------------------------------------------------- rows

  datatype Drivers = Drivers(storageBytes: nat, acceptedEmails: nat, coverage: Option<Coverage>)

  datatype Identity = Identity(email: string, accountId: string, drivers: Option<Drivers>)

  /** The first identity of an account. */
  function Find(identities: seq<Identity>, accountId: string): (r: Option<Identity>)
    ensures r.Some? ==> r.value in identities && r.value.accountId == accountId
    ensures r.None? ==> forall i | i in identities :: i.accountId != accountId
  {
    if identities == [] then None
    else if identities[0].accountId == accountId then Some(identities[0])
    else Find(identities[1..], accountId)
  }

  function LocalCoverage(identity: Identity): Option<Coverage> {
    if identity.drivers.Some? then identity.drivers.value.coverage else None
  }

  /** The row as the account sees it, before anything is withheld. */
  function LabelRow(row: Fields, identity: Identity): Fields {
    var drivers := identity.drivers;
    (row - {"account_id"})
      ["email" := Str(identity.email)]
      ["storage_bytes" := if drivers.Some? then Num(drivers.value.storageBytes) else Null]
      ["storage_measurement" := Str(if drivers.Some? then "current_logical_bytes" else "unavailable")]
      ["email_delivery" := Obj(map[
        "accepted_message_count" := if drivers.Some? then Num(drivers.value.acceptedEmails) else Null,
        "usd_micros" := Null,
        "status" := Str("provider_invoice_unavailable")])]
  }

  /** An upstream row under its own coverage; rows that name no known account go. */
  function DecorateRow(clock: Clock, row: Json, identities: seq<Identity>,
                       generatedAt: Option<string>): Option<Fields> {
    var id := row.Get("account_id");
    if id.None? || !id.value.Str? then None
    else
      var identity := Find(identities, id.value.s);
      if identity.None? then None
      else
        var account := LabelRow(row.fields, identity.value);
        var coverage := ProducerCoverage(clock, LocalCoverage(identity.value), CoverageOf(account), generatedAt);
        Some(JudgeRow(account, coverage))
  }

  function PutCoverage(row: Fields, coverage: Json): Fields {
    EditObject(row, "direct_vertex", direct => direct["producer_coverage" := coverage])
  }

  /** The row with its coverage, stripped of its figures unless that is complete. */
  function JudgeRow(row: Fields, coverage: Json): Fields {
    var covered := PutCoverage(row, coverage);
    if SaysComplete(Some(coverage)) then covered else NullRowCosts(covered)
  }

  /** The same value under the key, or none in either. */
  ghost predicate SameAt(a: Fields, b: Fields, key: string) {
    (key in a <==> key in b) && (key in a ==> a[key] == b[key])
  }

  ghost predicate SameBut(a: Fields, b: Fields, keys: set<string>) {
    forall k | k !in keys :: SameAt(a, b, k)
  }

  lemma LabelRowKeeps(row: Fields, identity: Identity)
    ensures SameAt(LabelRow(row, identity), row, "direct_vertex") && SameAt(LabelRow(row, identity), row, ROW_POOLS)
  {
  }

  lemma JudgeRowKeeps(row: Fields, coverage: Json)
    requires SaysComplete(Some(coverage)) ==> CoverageOf(row).Some?
    ensures RowComplete(JudgeRow(row, coverage)) <==> SaysComplete(Some(coverage))
    ensures RowComplete(JudgeRow(row, coverage)) || CostsWithheld(JudgeRow(row, coverage))
    ensures SameAt(JudgeRow(row, coverage), row, ROW_POOLS)
  {
    NullRowCostsWithholds(PutCoverage(row, coverage));
  }

  lemma JudgedByItsCoverage(clock: Clock, coverage: Option<Coverage>, upstream: Option<Json>,
                            generatedAt: Option<string>)
    ensures SaysComplete(Some(ProducerCoverage(clock, coverage, upstream, generatedAt))) <==>
      && coverage.Some? && coverage.value.pending == 0 && coverage.value.lost == 0
      && Fresh(clock, coverage.value, upstream, generatedAt)
    ensures SaysComplete(Some(ProducerCoverage(clock, coverage, upstream, generatedAt))) ==> upstream.Some?
  {
  }

  /** What an upstream row is worth on its own: the coverage of its account, judged by
      the freshness limit the row itself states. */
  ghost predicate Earns(clock: Clock, row: Json, identities: seq<Identity>, generatedAt: Option<string>) {
    var id := row.Get("account_id");
    && id.Some? && id.value.Str?
    && var identity := Find(identities, id.value.s);
    && identity.Some? && LocalCoverage(identity.value).Some?
    && var coverage := LocalCoverage(identity.value).value;
    && coverage.pending == 0 && coverage.lost == 0
    && Fresh(clock, coverage, CoverageOf(row.fields), generatedAt)
  }

  /** A decorated row says complete exactly when its account earned it, and shows its
      figures only then; its pools are those of the upstream row. */
  lemma DecoratedRowTruthful(clock: Clock, row: Json, identities: seq<Identity>, generatedAt: Option<string>)
    ensures
      var r := DecorateRow(clock, row, identities, generatedAt);
      r.Some? ==>
        && (RowComplete(r.value) <==> Earns(clock, row, identities, generatedAt))
        && (RowComplete(r.value) || CostsWithheld(r.value))
        && SameAt(r.value, row.fields, ROW_POOLS)
  {
    if DecorateRow(clock, row, identities, generatedAt).Some? {
      var identity := Find(identities, row.Get("account_id").value.s).value;
      var account := LabelRow(row.fields, identity);
      LabelRowKeeps(row.fields, identity);
      var coverage := ProducerCoverage(clock, LocalCoverage(identity), CoverageOf(account), generatedAt);
      JudgedByItsCoverage(clock, LocalCoverage(identity), CoverageOf(account), generatedAt);
      JudgeRowKeeps(account, coverage);
    }
  }

  // ------------------------------------------------------------------- report

  /** filter_map. */
  function Kept<A, B>(xs: seq<A>, f: A -> Option<B>): (r: seq<B>)
    ensures forall i | 0 <= i < |xs| :: f(xs[i]).Some? ==> f(xs[i]).value in r
    ensures forall y | y in r :: exists i | 0 <= i < |xs| :: f(xs[i]) == Some(y)
  {
    if xs == [] then []
    else
      var last := f(xs[|xs| - 1]);
      Kept(xs[..|xs| - 1], f) + if last.Some? then [last.value] else []
  }

  function RowReader(clock: Clock, identities: seq<Identity>, generatedAt: Option<string>): Json -> Option<Fields> {
    row => DecorateRow(clock, row, identities, generatedAt)
  }

  predicate AllComplete(rows: seq<Fields>) {
    forall r | r in rows :: RowComplete(r)
  }

  function Within(j: Option<Json>, key: string): Option<Json> {
    if j.Some? then j.value.Get(key) else None
  }

  /** The reconciled net cost of Vertex, as the report gives it. */
  function ReconciledNet(report: Fields): Json {
    var costs := Within(Obj(report).Get("cost_reconciliation"), "categories_usd_micros");
    var net := Within(Within(costs, "vertex_direct_reconciliation"), "net_usd_micros");
    if net.Some? then net.value else Null
  }

  function UnallocateAllocation(allocation: Fields, net: Json): Fields {
    var withReason := allocation["status" := Str("unallocated")]["reason" := Str("local_vertex_coverage_incomplete")];
    var withNet := EditObject(withReason, "unallocated_usd_micros", pools => pools["vertex" := net]);
    EditObject(withNet, "vertex_reconciliation",
      r => r["complete_producer_coverage" := Bool(false)]["observed_within_tolerance" := Bool(false)])
  }

  function UnallocateReport(report: Fields): Fields {
    var net := ReconciledNet(report);
    var marked := report["cost_completeness" := Bool(false)]["allocation_status" := Str("unallocated")];
    var based := EditObject(marked, "allocation_basis", basis => basis["vertex_cost_complete" := Bool(false)]);
    EditObject(based, "allocation", allocation => UnallocateAllocation(allocation, net))
  }

  /** Everything the report says about the Vertex pool says unallocated; the whole
      reconciled cost is shown as unallocated. */
  ghost predicate ReportWithheld(report: Fields, net: Json) {
    && Obj(report).Get("cost_completeness") == Some(Bool(false))
    && Obj(report).Get("allocation_status") == Some(Str("unallocated"))
    && ("allocation_basis" in report && report["allocation_basis"].Obj? ==>
          report["allocation_basis"].Get("vertex_cost_complete") == Some(Bool(false)))
    && ("allocation" in report && report["allocation"].Obj? ==> AllocationWithheld(report["allocation"].fields, net))
  }

  ghost predicate AllocationWithheld(allocation: Fields, net: Json) {
    && Obj(allocation).Get("status") == Some(Str("unallocated"))
    && ("unallocated_usd_micros" in allocation && allocation["unallocated_usd_micros"].Obj? ==>
          allocation["unallocated_usd_micros"].Get("vertex") == Some(net))
    && ("vertex_reconciliation" in allocation && allocation["vertex_reconciliation"].Obj? ==>
          && allocation["vertex_reconciliation"].Get("complete_producer_coverage") == Some(Bool(false))
          && allocation["vertex_reconciliation"].Get("observed_within_tolerance") == Some(Bool(false)))
  }

  lemma AllocationIsWithheld(allocation: Fields, net: Json)
    ensures AllocationWithheld(UnallocateAllocation(allocation, net), net)
  {
  }

  lemma ReportIsWithheld(report: Fields)
    ensures ReportWithheld(UnallocateReport(report), ReconciledNet(report))
  {
    AllocationIsWithheld(ObjectAt(report, "allocation"), ReconciledNet(report));
  }

  function AsArray(rows: seq<Fields>): Json {
    Arr(seq(|rows|, i requires 0 <= i < |rows| => Obj(rows[i])))
  }

  datatype Metrics = Metrics(retained: nat, recent: nat, period: string, asOf: string)

  function Finish(report: Fields, rows: seq<Fields>, metrics: Metrics): Json {
    Obj(report["accounts" := AsArray(rows)]
      ["margin_kind" := Str("estimated_contribution_margin")]
      ["account_metrics" := Obj(map[
        "retained_active_accounts" := Num(metrics.retained),
        "new_retained_active_accounts_mtd" := Num(metrics.recent),
        "period" := Str(metrics.period),
        "as_of" := Str(metrics.asOf)])])
  }

  function GeneratedAt(report: Fields): Option<string> {
    var at := Obj(report).Get("generated_at");
    if at.Some? && at.value.Str? then Some(at.value.s) else None
  }

  function UpstreamRows(report: Fields): seq<Json> {
    var rows := Obj(report).Get("rows");
    if rows.Some? && rows.value.Arr? then rows.value.items else []
  }

  function FieldsOf(report: Json): Fields {
    if report.Obj? then report.fields else map[]
  }

  function OwnRows(clock: Clock, report: Json, identities: seq<Identity>): seq<Fields> {
    Kept(UpstreamRows(FieldsOf(report)), RowReader(clock, identities, GeneratedAt(FieldsOf(report))))
  }

  /** The rows as shown. */
  function Shown(rows: seq<Fields>, complete: bool): seq<Fields> {
    if complete then rows else seq(|rows|, i requires 0 <= i < |rows| => UnallocateRow(rows[i]))
  }

  function Decorated(clock: Clock, report: Json, identities: seq<Identity>, anchored: bool, metrics: Metrics): Json {
    var rows, rest := OwnRows(clock, report, identities), FieldsOf(report) - {"rows"};
    var complete := anchored && AllComplete(rows);
    Finish(if complete then rest else UnallocateReport(rest), Shown(rows, complete), metrics)
  }

  /** The first pass: rows of known accounts, each under its own coverage. */
  method DecorateRows(clock: Clock, upstream: seq<Json>, identities: seq<Identity>, generatedAt: Option<string>)
      returns (rows: seq<Fields>)
    ensures rows == Kept(upstream, RowReader(clock, identities, generatedAt))
  {
    rows := [];
    for i := 0 to |upstream|
      invariant rows == Kept(upstream[..i], RowReader(clock, identities, generatedAt))
    {
      assert upstream[..i + 1][..i] == upstream[..i];
      var row := DecorateRow(clock, upstream[i], identities, generatedAt);
      if row.Some? {
        rows := rows + [row.value];
      }
    }
    assert upstream[..|upstream|] == upstream;
  }

  /** The second pass, over every row. */
  method UnallocateRows(rows: seq<Fields>) returns (shown: seq<Fields>)
    ensures shown == Shown(rows, false)
  {
    shown := rows;
    for i := 0 to |rows|
      invariant |shown| == |rows|
      invariant forall k | 0 <= k < |rows| :: shown[k] == if k < i then UnallocateRow(rows[k]) else rows[k]
    {
      shown := shown[i := UnallocateRow(shown[i])];
    }
  }

  /** decorate_margin. */
  method DecorateMargin(clock: Clock, report: Json, identities: seq<Identity>, anchored: bool, metrics: Metrics)
    returns (decorated: Json)
    ensures decorated == Decorated(clock, report, identities, anchored, metrics)
  {
    var fields := FieldsOf(report);
    var rows := DecorateRows(clock, UpstreamRows(fields), identities, GeneratedAt(fields));
    fields := fields - {"rows"};
    if !(anchored && AllComplete(rows)) {
      rows := UnallocateRows(rows);
      fields := UnallocateReport(fields);
    }
    decorated := Finish(fields, rows, metrics);
  }

  /** A row that is kept at all earned its completeness. */
  ghost predicate Meets(clock: Clock, row: Json, identities: seq<Identity>, generatedAt: Option<string>) {
    DecorateRow(clock, row, identities, generatedAt).Some? ==> Earns(clock, row, identities, generatedAt)
  }

  ghost predicate AllMeet(clock: Clock, report: Json, identities: seq<Identity>) {
    var upstream := UpstreamRows(FieldsOf(report));
    forall i | 0 <= i < |upstream| :: Meets(clock, upstream[i], identities, GeneratedAt(FieldsOf(report)))
  }

  ghost predicate Honest(rows: seq<Fields>) {
    forall r | r in rows :: RowComplete(r) || CostsWithheld(r)
  }

  lemma RowsComplete(clock: Clock, upstream: seq<Json>, identities: seq<Identity>, generatedAt: Option<string>)
    ensures
      var rows := Kept(upstream, RowReader(clock, identities, generatedAt));
      && (AllComplete(rows) <==> forall i | 0 <= i < |upstream| :: Meets(clock, upstream[i], identities, generatedAt))
      && Honest(rows)
  {
    var read := RowReader(clock, identities, generatedAt);
    forall i | 0 <= i < |upstream|
      ensures read(upstream[i]).Some? ==>
        var r := read(upstream[i]).value;
        && (RowComplete(r) <==> Meets(clock, upstream[i], identities, generatedAt))
        && (RowComplete(r) || CostsWithheld(r))
      ensures read(upstream[i]).None? ==> Meets(clock, upstream[i], identities, generatedAt)
    {
      DecoratedRowTruthful(clock, upstream[i], identities, generatedAt);
    }
  }

  lemma OwnRowsComplete(clock: Clock, report: Json, identities: seq<Identity>)
    ensures AllComplete(OwnRows(clock, report, identities)) <==> AllMeet(clock, report, identities)
    ensures Honest(OwnRows(clock, report, identities))
  {
    RowsComplete(clock, UpstreamRows(FieldsOf(report)), identities, GeneratedAt(FieldsOf(report)));
  }

  ghost predicate PoolsWithheld(rows: seq<Fields>) {
    forall r | r in rows :: PoolWithheld(r)
  }

  lemma ShownRows(rows: seq<Fields>, complete: bool)
    requires Honest(rows)
    ensures |Shown(rows, complete)| == |rows|
    ensures AllComplete(Shown(rows, complete)) <==> AllComplete(rows)
    ensures Honest(Shown(rows, complete))
    ensures !complete ==> PoolsWithheld(Shown(rows, complete))
  {
    forall i | 0 <= i < |rows|
      ensures RowComplete(UnallocateRow(rows[i])) <==> RowComplete(rows[i])
      ensures RowComplete(UnallocateRow(rows[i])) || CostsWithheld(UnallocateRow(rows[i]))
      ensures PoolWithheld(UnallocateRow(rows[i]))
    {
      UnallocateRowKeepsCosts(rows[i]);
    }
    var shown := Shown(rows, complete);
    assert forall i | 0 <= i < |rows| :: shown[i] == if complete then rows[i] else UnallocateRow(rows[i]);
  }

  lemma UnallocateRowKeepsCosts(row: Fields)
    ensures PoolWithheld(UnallocateRow(row))
    ensures RowComplete(UnallocateRow(row)) <==> RowComplete(row)
    ensures CostsWithheld(row) ==> CostsWithheld(UnallocateRow(row))
  {
    UnallocateRowWithholds(row);
    RowCostsAreFigures();
  }

  lemma FinishKeeps(report: Fields, rows: seq<Fields>, metrics: Metrics, net: Json)
    ensures Finish(report, rows, metrics).Get("accounts") == Some(AsArray(rows))
    ensures ReportWithheld(report, net) ==> ReportWithheld(Finish(report, rows, metrics).fields, net)
    ensures SameBut(Finish(report, rows, metrics).fields, report, {"accounts", "margin_kind", "account_metrics"})
  {
  }

  /** Fail closed. The report is complete exactly when the anchor of the whole fleet is
      and every account earned its own completeness, and the rows say so themselves. One
      account that did not is enough: no row shows its Vertex pool, the report is marked
      incomplete and unallocated, and the whole reconciled cost counts as unallocated.
      A complete report is the upstream one but for its rows and labels. */
  lemma FailClosed(clock: Clock, report: Json, identities: seq<Identity>, anchored: bool, metrics: Metrics)
    ensures
      var decorated := Decorated(clock, report, identities, anchored, metrics);
      var complete := anchored && AllMeet(clock, report, identities);
      var shown := Shown(OwnRows(clock, report, identities), complete);
      && decorated.Obj? && decorated.Get("accounts") == Some(AsArray(shown))
      && (complete <==> anchored && AllComplete(shown))
      && Honest(shown)
      && (!complete ==>
            && PoolsWithheld(shown)
            && ReportWithheld(decorated.fields, ReconciledNet(FieldsOf(report) - {"rows"})))
      && (complete ==>
            SameBut(decorated.fields, FieldsOf(report), {"rows", "accounts", "margin_kind", "account_metrics"}))
  {
    var rows, rest := OwnRows(clock, report, identities), FieldsOf(report) - {"rows"};
    OwnRowsComplete(clock, report, identities);
    var complete := anchored && AllComplete(rows);
    ShownRows(rows, complete);
    ReportIsWithheld(rest);
    FinishKeeps(if complete then rest else UnallocateReport(rest), Shown(rows, complete), metrics, ReconciledNet(rest));
  }

  /** One account whose local coverage differs from its anchor, or has none, or admits to
      pending or lost events, spoils the report for everyone. */
  lemma OneAccountSpoilsReport(clock: Clock, report: Json, identities: seq<Identity>, anchored: bool, metrics: Metrics,
                               row: Json, identity: Identity, local: Option<Coverage>, anchor: Option<Coverage>)
    requires row in UpstreamRows(FieldsOf(report)) && row.Get("account_id") == Some(Str(identity.accountId))
    requires Find(identities, identity.accountId) == Some(identity)
        && LocalCoverage(identity) == Reconcile(local, anchor)
    requires local != anchor || local.None? || local.value.pending != 0 || local.value.lost != 0
    ensures
      var decorated := Decorated(clock, report, identities, anchored, metrics);
      var shown := Shown(OwnRows(clock, report, identities), false);
      && PoolsWithheld(shown) && decorated.Get("accounts") == Some(AsArray(shown))
      && decorated.Obj? && ReportWithheld(decorated.fields, ReconciledNet(FieldsOf(report) - {"rows"}))
  {
    FailClosed(clock, report, identities, anchored, metrics);
    OneAccountFallsShort(clock, report, identities, row, identity, local, anchor);
  }

  lemma OneAccountFallsShort(clock: Clock, report: Json, identities: seq<Identity>,
                             row: Json, identity: Identity, local: Option<Coverage>, anchor: Option<Coverage>)
    requires row in UpstreamRows(FieldsOf(report)) && row.Get("account_id") == Some(Str(identity.accountId))
    requires Find(identities, identity.accountId) == Some(identity)
        && LocalCoverage(identity) == Reconcile(local, anchor)
    requires local != anchor || local.None? || local.value.pending != 0 || local.value.lost != 0
    ensures !AllMeet(clock, report, identities)
  {
    var upstream := UpstreamRows(FieldsOf(report));
    var i :| 0 <= i < |upstream| && upstream[i] == row;
    assert !Meets(clock, upstream[i], identities, GeneratedAt(FieldsOf(report)));
  }
}
