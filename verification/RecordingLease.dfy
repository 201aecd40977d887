/** The recording-lease protocol as a machine whose steps are the awaits of the
    lease and offline-usage handlers. The process may stop between any two steps;
    receipt rows, the active lease and the billing ledger survive, the handler's
    locals do not. The per-user gate admits one handler at a time. */
module RecordingLease {
  import opened Prelude
  import opened Json
  import LeaseResponse

  type RequestId = string
  type LeaseId = string

  const LEASE_MS: int := 60_000
  const RENEWAL_HEADROOM_MS: int := 20_000
  const RENEWAL_CLOCK_SKEW_MS: int := 5_000
  const RETENTION_MS: int := 7 * 24 * 60 * 60 * 1_000

  datatype Lease = Lease(id: LeaseId, expires: int)

  datatype RowState = Pending | Granted | Conflicted

  /** One row of recording_lease_requests. */
  datatype Row = Row(
    requested: Option<LeaseId>, issued: LeaseId, expires: int,
    state: RowState, summary: Option<Json>, created: int)

  /** One row of recording_lease_denials. */
  datatype Denial = Denial(requested: Option<LeaseId>, code: string, summary: Json)

  /** The account's rows in the enclave's own database. */
  datatype Store = Store(
    rows: map<RequestId, Row>, denials: map<RequestId, Denial>,
    active: Option<Lease>, offline: set<RequestId>, minutes: nat)

  /** The ledger keys a charge by the kind of recording and the request id; see
      EventIdentity for the byte strings that are hashed. */
  datatype Event = Live(request: RequestId) | Offline(request: RequestId)

  // ---------------------------------------------------------------- requests

  predicate UuidV4(value: string) {
    && |value| == 36
    && forall i :: 0 <= i < 36 ==>
         if i == 8 || i == 13 || i == 18 || i == 23 then value[i] == '-'
         else if i == 14 then value[i] == '4'
         else if i == 19 then value[i] in {'8', '9', 'a', 'b', 'A', 'B'}
         else HexDigit(value[i])
  }

  predicate ValidRequest(request: RequestId, wanted: Option<LeaseId>) {
    && UuidV4(request)
    && (wanted.Some? ==>
          && |wanted.value| == 70
          && "lease_" <= wanted.value
          && forall i :: 6 <= i < 70 ==> HexDigit(wanted.value[i]))
  }

  predicate RenewalTooEarly(now: int, expires: int) {
    Saturate(expires - now) > RENEWAL_HEADROOM_MS + RENEWAL_CLOCK_SKEW_MS
  }

  predicate CanReattach(now: int, expires: int) {
    Saturate(expires - now) > RENEWAL_HEADROOM_MS
  }

  predicate DuplicateIsConflict(retry: bool, duplicate: bool) {
    duplicate && !retry
  }

  // ------------------------------------------------------ store transactions

  predicate IsPending(rows: map<RequestId, Row>, r: RequestId) {
    r in rows && rows[r].state == Pending
  }

  function BeginTx(st: Store, r: RequestId, wanted: Option<LeaseId>, lease: Lease, now: int): Option<Store> {
    if r in st.rows || (exists p | p in st.rows :: IsPending(st.rows, p)) then
      None
    else
      Some(st.(rows := st.rows[r := Row(wanted, lease.id, lease.expires, Pending, None, now)]))
  }

  function DenyTx(st: Store, r: RequestId, code: string, summary: Json): Option<Store> {
    if !IsPending(st.rows, r) || r in st.denials then
      None
    else
      Some(st.(rows := st.rows - {r}, denials := st.denials[r := Denial(st.rows[r].requested, code, summary)]))
  }

  function ConflictTx(st: Store, r: RequestId): Store {
    if IsPending(st.rows, r) then st.(rows := st.rows[r := st.rows[r].(state := Conflicted)]) else st
  }

  /** The expiry a completion stores: on a first attempt the row's own, on a
      recovery a minute counted from the recovery time or the active expiry. */
  function CompletedExpiry(row: Row, active: Option<Lease>, retryNow: Option<int>): int {
    var current := if active.Some? then active.value.expires else I64_MIN;
    match retryNow
    case Some(t) => Max(Saturate(Max(t, current) + LEASE_MS), row.expires)
    case None => Max(row.expires, current)
  }

  function CompleteTx(st: Store, r: RequestId, retryNow: Option<int>, summary: Json): Option<Store> {
    if !IsPending(st.rows, r) then
      None
    else
      var row := st.rows[r];
      if && st.active.Some?
         && st.active.value.id != row.issued
         && (retryNow.Some? ==> st.active.value.expires > retryNow.value)
      then
        None
      else
        var expires := CompletedExpiry(row, st.active, retryNow);
        Some(st.(
          rows := st.rows[r := row.(expires := expires, state := Granted, summary := Some(summary))],
          active := Some(Lease(row.issued, expires)),
          minutes := st.minutes + 1))
  }

  function OfflineTx(st: Store, r: RequestId): Store {
    if r in st.offline then st else st.(offline := st.offline + {r}, minutes := st.minutes + 1)
  }

  // ----------------------------------------------------------------- machine

  /** Where the gate holder stands, with the locals live at that await. */
  datatype Handler =
    | Idle
    | Lookup(request: RequestId, wanted: Option<LeaseId>)
    | Throttle(request: RequestId, wanted: Option<LeaseId>, known: bool)
    | FindPending(request: RequestId, wanted: Option<LeaseId>, start: int)
    | ReadActive(request: RequestId, wanted: Option<LeaseId>, start: int)
    | Reattach(lease: Lease)
    | Begin(request: RequestId, wanted: Option<LeaseId>, lease: Lease)
    | Charge(effective: RequestId, retry: bool)
    | Deny(effective: RequestId, code: string, summary: Json)
    | MarkConflict(effective: RequestId)
    | Attach(effective: RequestId, retry: bool, summary: Json)
    | Complete(effective: RequestId, retryNow: Option<int>, summary: Json)
    | OfflineLookup(request: RequestId)
    | OfflineSummary
    | OfflineCharge(request: RequestId)
    | OfflineRecord(request: RequestId, summary: Json, duplicate: bool)

  datatype Reply =
    | BadRequest
    | Unavailable
    | RateLimited
    | IdempotencyConflict
    | Inactive
    | TooEarly
    | Denied(code: string, summary: Json)
    | LeaseGranted(body: Json)
    | OfflineRecorded(duplicate: bool, summary: Json)

  /** A committed transaction may still be reported as failed. */
  datatype Fate = Acked | AckLost | Failed

  /** What the account mapping and the billing service do with one charge.
      NoReply leaves it open whether the charge landed, now or later. */
  datatype Answer =
    | NoAccount
    | Allow(summary: Json)
    | Refuse(code: string, summary: Json, duplicate: bool)
    | NoReply(charged: bool)

  datatype Action =
    | Receive(request: RequestId, wanted: Option<LeaseId>)
    | ReceiveOffline(request: RequestId)
    | Read(ok: bool)
    | Admit(allowed: bool)
    | SeePending(ok: bool, found: Option<RequestId>)
    | SeeActive(ok: bool, random: LeaseId)
    | Summarize(result: Option<Json>)
    | Commit(fate: Fate)
    | Ledger(answer: Answer)
    | Authority(ok: bool, authority: Option<Json>)
    | Crash
    | Tick(elapsed: nat)
    | LateCharge(event: Event)
    | PruneReceipt(request: RequestId)
    | PruneDenial(request: RequestId)

  /** grants and passed record history: the requests granted so far in order,
      and the milliseconds at which the upload check has passed. */
  datatype State = State(
    now: int, store: Store, ledger: set<Event>, sent: set<Event>,
    handler: Handler, reply: Option<Reply>,
    grants: seq<RequestId>, passed: int)

  /** The upload check of enforce mode at the current instant. */
  predicate EntitledNow(s: State) {
    s.store.active.Some? && s.store.active.value.expires > s.now
  }

  function Remaining(s: State): int {
    if s.store.active.Some? then Max(0, s.store.active.value.expires - s.now) else 0
  }

  function Finish(s: State, reply: Reply): State {
    s.(handler := Idle, reply := Some(reply))
  }

  function Goto(s: State, handler: Handler): State {
    s.(handler := handler)
  }

  const SHADOW_SUMMARY := Obj(map["recording" := Obj(map["allowed" := Bool(true), "shadow" := Bool(true)])])

  function OnLookup(s: State, ok: bool): State
    requires s.handler.Lookup?
  {
    var Lookup(r, wanted) := s.handler;
    if !ok then
      Finish(s, Unavailable)
    else if r in s.store.rows then
      var row := s.store.rows[r];
      if row.requested != wanted || row.state == Conflicted then Finish(s, IdempotencyConflict)
      else if row.state == Pending then Goto(s, Throttle(r, wanted, true))
      else if row.summary.None? then Finish(s, Unavailable)
      else Finish(s, LeaseGranted(LeaseResponse.LeaseBody(row.issued, row.expires, row.summary.value)))
    else if r in s.store.denials then
      var denial := s.store.denials[r];
      if denial.requested != wanted then Finish(s, IdempotencyConflict)
      else Finish(s, Denied(denial.code, denial.summary))
    else
      Goto(s, Throttle(r, wanted, false))
  }

  function OnActive(s: State, random: LeaseId): State
    requires s.handler.ReadActive?
  {
    var ReadActive(r, wanted, start) := s.handler;
    var active := s.store.active;
    if wanted.None? then
      if active.None? then
        Goto(s, Begin(r, wanted, Lease(random, Saturate(start + LEASE_MS))))
      else if CanReattach(start, active.value.expires) then
        Goto(s, Reattach(active.value))
      else
        Goto(s, Begin(r, wanted, Lease(active.value.id, Saturate(start + LEASE_MS))))
    else if active.None? || active.value.id != wanted.value || active.value.expires <= start then
      Finish(s, Inactive)
    else if RenewalTooEarly(start, active.value.expires) then
      Finish(s, TooEarly)
    else
      Goto(s, Begin(r, wanted, Lease(active.value.id, Saturate(Max(start, active.value.expires) + LEASE_MS))))
  }

  /** The ledger after an answer: allowing an event records it once, and an
      event it has allowed is never refused afterwards. */
  function Charged(s: State, event: Event, answer: Answer): State {
    if answer.NoAccount? then
      s
    else
      s.(sent := s.sent + {event},
         ledger := if answer.Allow? || (answer.NoReply? && answer.charged) then s.ledger + {event} else s.ledger)
  }

  /** A settled authorization on the lease path. */
  function Settled(s: State, r: RequestId, retry: bool, summary: Json, duplicate: bool): State {
    if DuplicateIsConflict(retry, duplicate) then Goto(s, MarkConflict(r)) else Goto(s, Attach(r, retry, summary))
  }

  function OnCharge(enforce: bool, s: State, answer: Answer): State
    requires s.handler.Charge?
  {
    var Charge(r, retry) := s.handler;
    var known := Live(r) in s.ledger;
    var next := Charged(s, Live(r), answer);
    match answer
    case Allow(summary) => Settled(next, r, retry, summary, known)
    case Refuse(code, summary, duplicate) =>
      if enforce then Goto(next, Deny(r, code, summary)) else Settled(next, r, retry, summary, duplicate)
    case _ =>
      if enforce then Finish(next, Unavailable) else Settled(next, r, retry, SHADOW_SUMMARY, false)
  }

  function OnOfflineCharge(enforce: bool, s: State, answer: Answer): State
    requires s.handler.OfflineCharge?
  {
    var r := s.handler.request;
    var known := Event.Offline(r) in s.ledger;
    var next := Charged(s, Event.Offline(r), answer);
    match answer
    case Allow(summary) => Goto(next, OfflineRecord(r, summary, known))
    case Refuse(code, summary, duplicate) =>
      if enforce then Finish(next, Denied(code, summary)) else Goto(next, OfflineRecord(r, summary, duplicate))
    case _ =>
      if enforce then Finish(next, Unavailable) else Goto(next, OfflineRecord(r, SHADOW_SUMMARY, false))
  }

  /** The authority is added at most once; a summary that is not an object cannot carry it. */
  function WithAuthority(summary: Json, authority: Option<Json>): Option<Json> {
    if summary.Get(LeaseResponse.AUTHORITY_KEY).Some? then Some(summary)
    else if authority.None? || !summary.Obj? then None
    else Some(Obj(summary.fields[LeaseResponse.AUTHORITY_KEY := authority.value]))
  }

  function OnAuthority(s: State, ok: bool, authority: Option<Json>): State
    requires s.handler.Attach?
  {
    var Attach(r, retry, summary) := s.handler;
    var attached := WithAuthority(summary, authority);
    if !ok || (forall p | p in s.store.rows :: !IsPending(s.store.rows, p)) || attached.None? then
      Finish(s, Unavailable)
    else
      Goto(s, Complete(r, if retry then Some(s.now) else None, attached.value))
  }

  function OnBegin(s: State, fate: Fate): State
    requires s.handler.Begin?
  {
    var Begin(r, wanted, lease) := s.handler;
    var tx := BeginTx(s.store, r, wanted, lease, s.now);
    if tx.None? || fate == Failed then Finish(s, Unavailable)
    else if fate == AckLost then Finish(s.(store := tx.value), Unavailable)
    else Goto(s.(store := tx.value), Charge(r, false))
  }

  function OnDeny(s: State, fate: Fate): State
    requires s.handler.Deny?
  {
    var Deny(r, code, summary) := s.handler;
    var tx := DenyTx(s.store, r, code, summary);
    if tx.None? || fate == Failed then Finish(s, Unavailable)
    else if fate == AckLost then Finish(s.(store := tx.value), Unavailable)
    else Finish(s.(store := tx.value), Denied(code, summary))
  }

  function OnConflict(s: State, fate: Fate): State
    requires s.handler.MarkConflict?
  {
    var store := if fate == Failed then s.store else ConflictTx(s.store, s.handler.effective);
    Finish(s.(store := store), IdempotencyConflict)
  }

  function OnComplete(s: State, fate: Fate): State
    requires s.handler.Complete?
  {
    var Complete(r, retryNow, summary) := s.handler;
    var tx := CompleteTx(s.store, r, retryNow, summary);
    if tx.None? || fate == Failed then
      Finish(s, Unavailable)
    else
      var granted := s.(store := tx.value, grants := s.grants + [r]);
      var lease := tx.value.active.value;
      if fate == AckLost then Finish(granted, Unavailable)
      else Finish(granted, LeaseGranted(LeaseResponse.LeaseBody(lease.id, lease.expires, summary)))
  }

  function OnOfflineRecord(s: State, fate: Fate): State
    requires s.handler.OfflineRecord?
  {
    var OfflineRecord(r, summary, duplicate) := s.handler;
    if fate == Failed then
      Finish(s, Unavailable)
    else
      var recorded := s.(store := OfflineTx(s.store, r));
      if fate == AckLost then Finish(recorded, Unavailable)
      else Finish(recorded, OfflineRecorded(duplicate || r in s.store.offline, summary))
  }

  /** When an action can happen next. The ledger never refuses an event it has
      allowed, a late charge is one that was sent, and pruning removes only
      settled receipts older than the retention period. */
  predicate Enabled(s: State, a: Action) {
    match a
    case Receive(_, _) => s.handler.Idle?
    case ReceiveOffline(_) => s.handler.Idle?
    case Read(_) => s.handler.Lookup? || s.handler.OfflineLookup?
    case Admit(_) => s.handler.Throttle?
    case SeePending(_, found) =>
      && s.handler.FindPending?
      && (if found.Some? then IsPending(s.store.rows, found.value)
          else forall p | p in s.store.rows :: !IsPending(s.store.rows, p))
    case SeeActive(_, _) => s.handler.ReadActive?
    case Summarize(_) => s.handler.Reattach? || s.handler.OfflineSummary?
    case Commit(_) =>
      || s.handler.Begin? || s.handler.Deny? || s.handler.MarkConflict?
      || s.handler.Complete? || s.handler.OfflineRecord?
    case Ledger(answer) =>
      || (s.handler.Charge? && (answer.Refuse? ==> Live(s.handler.effective) !in s.ledger))
      || (s.handler.OfflineCharge? && (answer.Refuse? ==> Event.Offline(s.handler.request) !in s.ledger))
    case Authority(_, _) => s.handler.Attach?
    case Crash => true
    case Tick(_) => true
    case LateCharge(e) => e in s.sent
    case PruneReceipt(r) =>
      r in s.store.rows && s.store.rows[r].state != Pending && s.store.rows[r].created + RETENTION_MS < s.now
    case PruneDenial(r) => r in s.store.denials
  }

  function Step(enforce: bool, s: State, a: Action): State
    requires Enabled(s, a)
  {
    match a
    case Receive(r, wanted) =>
      if ValidRequest(r, wanted) then Goto(s, Lookup(r, wanted)) else Finish(s, BadRequest)
    case ReceiveOffline(r) =>
      if UuidV4(r) then Goto(s, OfflineLookup(r)) else Finish(s, BadRequest)
    case Read(ok) =>
      if s.handler.Lookup? then OnLookup(s, ok)
      else if !ok then Finish(s, Unavailable)
      else if s.handler.request in s.store.offline then Goto(s, OfflineSummary)
      else Goto(s, OfflineCharge(s.handler.request))
    case Admit(allowed) =>
      if !allowed then Finish(s, RateLimited)
      else if s.handler.known then Goto(s, Charge(s.handler.request, true))
      else Goto(s, FindPending(s.handler.request, s.handler.wanted, s.now))
    case SeePending(ok, found) =>
      if !ok then Finish(s, Unavailable)
      else if found.Some? then Goto(s, Charge(found.value, true))
      else Goto(s, ReadActive(s.handler.request, s.handler.wanted, s.handler.start))
    case SeeActive(ok, random) =>
      if !ok then Finish(s, Unavailable) else OnActive(s, random)
    case Summarize(result) =>
      if result.None? then Finish(s, Unavailable)
      else if s.handler.OfflineSummary? then Finish(s, OfflineRecorded(true, result.value))
      else Finish(s, LeaseGranted(LeaseResponse.LeaseBody(s.handler.lease.id, s.handler.lease.expires, result.value)))
    case Commit(fate) =>
      if s.handler.Begin? then OnBegin(s, fate)
      else if s.handler.Deny? then OnDeny(s, fate)
      else if s.handler.MarkConflict? then OnConflict(s, fate)
      else if s.handler.Complete? then OnComplete(s, fate)
      else OnOfflineRecord(s, fate)
    case Ledger(answer) =>
      if s.handler.Charge? then OnCharge(enforce, s, answer) else OnOfflineCharge(enforce, s, answer)
    case Authority(ok, authority) => OnAuthority(s, ok, authority)
    case Crash => s.(handler := Idle, reply := None)
    case Tick(elapsed) => s.(now := s.now + elapsed, passed := s.passed + Min(elapsed, Remaining(s)))
    case LateCharge(e) => s.(ledger := s.ledger + {e})
    case PruneReceipt(r) => s.(store := s.store.(rows := s.store.rows - {r}))
    case PruneDenial(r) => s.(store := s.store.(denials := s.store.denials - {r}))
  }

  function Initial(now: int): State {
    State(now, Store(map[], map[], None, {}, 0), {}, {}, Idle, None, [], 0)
  }

  /** A run is a list of actions, each enabled where it happens. */
  predicate CanRun(enforce: bool, s: State, run: seq<Action>)
    decreases |run|
  {
    run == [] || (Enabled(s, run[0]) && CanRun(enforce, Step(enforce, s, run[0]), run[1..]))
  }

  function Run(enforce: bool, s: State, run: seq<Action>): State
    requires CanRun(enforce, s, run)
    decreases |run|
  {
    if run == [] then s else Run(enforce, Step(enforce, s, run[0]), run[1..])
  }
}
