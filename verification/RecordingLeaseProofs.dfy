/** What every run of the recording-lease machine keeps. */
module RecordingLeaseProofs {
  import opened Prelude
  import opened Json
  import opened RecordingLease
  import LeaseResponse

  // --------------------------------------------------------------- invariant

  ghost predicate NothingPending(rows: map<RequestId, Row>) {
    forall p | p in rows :: !IsPending(rows, p)
  }

  ghost predicate StoreOk(st: Store) {
    && (forall p, q | p in st.rows && q in st.rows :: IsPending(st.rows, p) && IsPending(st.rows, q) ==> p == q)
    && st.rows.Keys !! st.denials.Keys
    && (forall r | r in st.rows :: ValidRequest(r, st.rows[r].requested))
    && (forall r | r in st.rows :: st.rows[r].state == Granted ==> st.rows[r].summary.Some?)
  }

  /** No pending or proposed minute ends later than one minute past the time
      already paid for. */
  function Ceiling(s: State): int {
    LEASE_MS + if s.store.active.Some? then Max(s.now, s.store.active.value.expires) else s.now
  }

  ghost predicate UnknownRequest(st: Store, r: RequestId, wanted: Option<LeaseId>) {
    r !in st.rows && r !in st.denials && ValidRequest(r, wanted)
  }

  ghost predicate HandlerOk(enforce: bool, s: State) {
    match s.handler
    case Lookup(r, wanted) => ValidRequest(r, wanted)
    case Throttle(r, wanted, known) =>
      if known then IsPending(s.store.rows, r) else UnknownRequest(s.store, r, wanted)
    case FindPending(r, wanted, start) => UnknownRequest(s.store, r, wanted) && 0 <= start <= s.now
    case ReadActive(r, wanted, start) =>
      UnknownRequest(s.store, r, wanted) && 0 <= start <= s.now && NothingPending(s.store.rows)
    case Begin(r, wanted, lease) =>
      UnknownRequest(s.store, r, wanted) && NothingPending(s.store.rows) && lease.expires <= Ceiling(s)
    case Charge(r, _) => IsPending(s.store.rows, r)
    case Deny(r, _, _) => IsPending(s.store.rows, r) && (enforce ==> r !in s.grants)
    case MarkConflict(r) => IsPending(s.store.rows, r)
    case Attach(r, _, _) => IsPending(s.store.rows, r) && (enforce ==> Live(r) in s.ledger)
    case Complete(r, retryNow, _) =>
      && IsPending(s.store.rows, r)
      && (enforce ==> Live(r) in s.ledger)
      && (retryNow.Some? ==> 0 <= retryNow.value <= s.now)
    case OfflineRecord(r, _, _) => enforce ==> Event.Offline(r) in s.ledger
    case _ => true
  }

  ghost predicate HistoryOk(enforce: bool, s: State) {
    && (forall r | r in s.store.rows :: s.store.rows[r].state == Granted ==> r in s.grants)
    && (forall r | r in s.grants :: UuidV4(r))
    && (enforce ==> forall r | r in s.grants :: Live(r) in s.ledger)
    && (enforce ==> forall r | r in s.store.offline :: Event.Offline(r) in s.ledger)
    && (enforce ==> forall r | r in s.store.denials :: r !in s.grants)
    && s.store.minutes == |s.grants| + |s.store.offline|
  }

  ghost predicate Metered(s: State) {
    && 0 <= s.now
    && (forall p | p in s.store.rows :: IsPending(s.store.rows, p) ==> s.store.rows[p].expires <= Ceiling(s))
    && s.passed + Remaining(s) <= LEASE_MS * |s.grants|
  }

  ghost predicate Inv(enforce: bool, s: State) {
    StoreOk(s.store) && HandlerOk(enforce, s) && HistoryOk(enforce, s) && Metered(s)
  }

  lemma CompletionAddsOneMinute(s: State, r: RequestId, retryNow: Option<int>, summary: Json)
    requires Metered(s) && StoreOk(s.store)
    requires retryNow.Some? ==> 0 <= retryNow.value <= s.now
    requires CompleteTx(s.store, r, retryNow, summary).Some?
    ensures Remaining(s.(store := CompleteTx(s.store, r, retryNow, summary).value)) <= Remaining(s) + LEASE_MS
  {
  }

  /** A step that only moves the handler on owes nothing but the handler's own part. */
  lemma HandlerMoves(enforce: bool, s: State, t: State)
    requires Inv(enforce, s) && t == s.(handler := t.handler, reply := t.reply) && HandlerOk(enforce, t)
    ensures Inv(enforce, t)
  {
  }

  lemma ReceiveStepKeepsInvariant(enforce: bool, s: State, a: Action)
    requires Inv(enforce, s) && Enabled(s, a)
    requires a.Receive? || a.ReceiveOffline? || a.Admit? || a.Crash?
    ensures Inv(enforce, Step(enforce, s, a))
  {
    HandlerMoves(enforce, s, Step(enforce, s, a));
  }

  lemma ReadStepKeepsInvariant(enforce: bool, s: State, a: Action)
    requires Inv(enforce, s) && Enabled(s, a) && a.Read?
    ensures Inv(enforce, Step(enforce, s, a))
  {
    HandlerMoves(enforce, s, Step(enforce, s, a));
  }

  lemma SeeStepKeepsInvariant(enforce: bool, s: State, a: Action)
    requires Inv(enforce, s) && Enabled(s, a)
    requires a.SeePending? || a.SeeActive?
    ensures Inv(enforce, Step(enforce, s, a))
  {
    HandlerMoves(enforce, s, Step(enforce, s, a));
  }

  lemma SummaryStepKeepsInvariant(enforce: bool, s: State, a: Action)
    requires Inv(enforce, s) && Enabled(s, a)
    requires a.Summarize? || a.Authority?
    ensures Inv(enforce, Step(enforce, s, a))
  {
    HandlerMoves(enforce, s, Step(enforce, s, a));
  }

  /** The ledger only grows, which no part of the invariant minds. */
  lemma ChargeKeepsInvariant(enforce: bool, s: State, event: Event, answer: Answer)
    requires Inv(enforce, s)
    ensures Inv(enforce, Charged(s, event, answer))
  {
  }

  lemma LedgerStepKeepsInvariant(enforce: bool, s: State, answer: Answer)
    requires Inv(enforce, s) && Enabled(s, Ledger(answer))
    ensures Inv(enforce, Step(enforce, s, Ledger(answer)))
  {
    var event := if s.handler.Charge? then Live(s.handler.effective) else Event.Offline(s.handler.request);
    ChargeKeepsInvariant(enforce, s, event, answer);
    HandlerMoves(enforce, Charged(s, event, answer), Step(enforce, s, Ledger(answer)));
  }

  lemma EnvironmentStepKeepsInvariant(enforce: bool, s: State, a: Action)
    requires Inv(enforce, s) && Enabled(s, a)
    requires a.Tick? || a.LateCharge?
    ensures Inv(enforce, Step(enforce, s, a))
  {
  }

  lemma PruneStepKeepsInvariant(enforce: bool, s: State, a: Action)
    requires Inv(enforce, s) && Enabled(s, a)
    requires a.PruneReceipt? || a.PruneDenial?
    ensures Inv(enforce, Step(enforce, s, a))
  {
  }

  lemma BeginKeepsInvariant(enforce: bool, s: State, fate: Fate)
    requires Inv(enforce, s) && s.handler.Begin?
    ensures Inv(enforce, OnBegin(s, fate))
  {
  }

  /** A store that only settled or lost rows: what it grants, meters and records stays. */
  ghost predicate OnlySettled(enforce: bool, s: State, st: Store) {
    && StoreOk(st)
    && st.active == s.store.active && st.offline == s.store.offline && st.minutes == s.store.minutes
    && (forall r | r in st.rows :: r in s.store.rows)
    && (forall r | r in st.rows && st.rows[r].state != Conflicted :: st.rows[r] == s.store.rows[r])
    && (enforce ==> forall r | r in st.denials :: r !in s.grants)
  }

  lemma SettledHistoryOk(enforce: bool, s: State, st: Store)
    requires HistoryOk(enforce, s) && OnlySettled(enforce, s, st)
    ensures HistoryOk(enforce, s.(store := st))
  {
  }

  lemma SettledMetered(enforce: bool, s: State, st: Store)
    requires Metered(s) && OnlySettled(enforce, s, st)
    ensures Metered(s.(store := st))
  {
  }

  lemma SettlingKeepsInvariant(enforce: bool, s: State, st: Store, reply: Option<Reply>)
    requires Inv(enforce, s) && OnlySettled(enforce, s, st)
    ensures Inv(enforce, s.(store := st, handler := Idle, reply := reply))
  {
    SettledHistoryOk(enforce, s, st);
    SettledMetered(enforce, s, st);
  }

  lemma DeniedStoreOk(st: Store, r: RequestId, code: string, summary: Json)
    requires StoreOk(st) && DenyTx(st, r, code, summary).Some?
    ensures StoreOk(DenyTx(st, r, code, summary).value)
  {
  }

  lemma DenyKeepsInvariant(enforce: bool, s: State, fate: Fate)
    requires Inv(enforce, s) && s.handler.Deny?
    ensures Inv(enforce, OnDeny(s, fate))
  {
    var Deny(r, code, summary) := s.handler;
    var tx, t := DenyTx(s.store, r, code, summary), OnDeny(s, fate);
    if tx.Some? {
      DeniedStoreOk(s.store, r, code, summary);
      SettlingKeepsInvariant(enforce, s, tx.value, t.reply);
    }
    HandlerMoves(enforce, s, s.(handler := Idle, reply := t.reply));
  }

  lemma ConflictedStoreOk(st: Store, r: RequestId)
    requires StoreOk(st)
    ensures StoreOk(ConflictTx(st, r))
  {
  }

  lemma ConflictKeepsInvariant(enforce: bool, s: State, fate: Fate)
    requires Inv(enforce, s) && s.handler.MarkConflict?
    ensures Inv(enforce, OnConflict(s, fate))
  {
    var t := OnConflict(s, fate);
    ConflictedStoreOk(s.store, s.handler.effective);
    SettlingKeepsInvariant(enforce, s, t.store, t.reply);
  }

  /** The state right after a completion commits. */
  ghost function Completed(s: State): State
    requires s.handler.Complete?
    requires CompleteTx(s.store, s.handler.effective, s.handler.retryNow, s.handler.summary).Some?
  {
    var Complete(r, retryNow, summary) := s.handler;
    s.(store := CompleteTx(s.store, r, retryNow, summary).value, grants := s.grants + [r], handler := Idle)
  }

  lemma CompletedStoreOk(enforce: bool, s: State)
    requires Inv(enforce, s) && s.handler.Complete?
    requires CompleteTx(s.store, s.handler.effective, s.handler.retryNow, s.handler.summary).Some?
    ensures StoreOk(Completed(s).store)
  {
  }

  lemma CompletedHistoryOk(enforce: bool, s: State)
    requires Inv(enforce, s) && s.handler.Complete?
    requires CompleteTx(s.store, s.handler.effective, s.handler.retryNow, s.handler.summary).Some?
    ensures HistoryOk(enforce, Completed(s))
  {
  }

  lemma CompletedMetered(enforce: bool, s: State)
    requires Inv(enforce, s) && s.handler.Complete?
    requires CompleteTx(s.store, s.handler.effective, s.handler.retryNow, s.handler.summary).Some?
    ensures Metered(Completed(s))
  {
    var Complete(r, retryNow, summary) := s.handler;
    CompletionAddsOneMinute(s, r, retryNow, summary);
    forall p | p in Completed(s).store.rows ensures !IsPending(Completed(s).store.rows, p) {
      assert p in s.store.rows;
    }
  }

  lemma CompleteKeepsInvariant(enforce: bool, s: State, fate: Fate)
    requires Inv(enforce, s) && s.handler.Complete?
    ensures Inv(enforce, OnComplete(s, fate))
  {
    var Complete(r, retryNow, summary) := s.handler;
    var tx := CompleteTx(s.store, r, retryNow, summary);
    if tx.Some? && fate != Failed {
      CompletedStoreOk(enforce, s);
      CompletedHistoryOk(enforce, s);
      CompletedMetered(enforce, s);
      var t := OnComplete(s, fate);
      assert t == Completed(s).(reply := t.reply);
    }
  }

  lemma OfflineRecordKeepsInvariant(enforce: bool, s: State, fate: Fate)
    requires Inv(enforce, s) && s.handler.OfflineRecord?
    ensures Inv(enforce, OnOfflineRecord(s, fate))
  {
  }

  lemma StepKeepsInvariant(enforce: bool, s: State, a: Action)
    requires Inv(enforce, s) && Enabled(s, a)
    ensures Inv(enforce, Step(enforce, s, a))
  {
    match a
    case Summarize(_) => SummaryStepKeepsInvariant(enforce, s, a);
    case Authority(_, _) => SummaryStepKeepsInvariant(enforce, s, a);
    case Ledger(answer) => LedgerStepKeepsInvariant(enforce, s, answer);
    case Commit(fate) =>
      if s.handler.Begin? { BeginKeepsInvariant(enforce, s, fate); }
      else if s.handler.Deny? { DenyKeepsInvariant(enforce, s, fate); }
      else if s.handler.MarkConflict? { ConflictKeepsInvariant(enforce, s, fate); }
      else if s.handler.Complete? { CompleteKeepsInvariant(enforce, s, fate); }
      else { OfflineRecordKeepsInvariant(enforce, s, fate); }
    case Tick(_) => EnvironmentStepKeepsInvariant(enforce, s, a);
    case LateCharge(_) => EnvironmentStepKeepsInvariant(enforce, s, a);
    case PruneReceipt(_) => PruneStepKeepsInvariant(enforce, s, a);
    case PruneDenial(_) => PruneStepKeepsInvariant(enforce, s, a);
    case Read(_) => ReadStepKeepsInvariant(enforce, s, a);
    case SeePending(_, _) => SeeStepKeepsInvariant(enforce, s, a);
    case SeeActive(_, _) => SeeStepKeepsInvariant(enforce, s, a);
    case _ => ReceiveStepKeepsInvariant(enforce, s, a);
  }

  lemma {:induction false} RunKeepsInvariant(enforce: bool, s: State, run: seq<Action>)
    requires Inv(enforce, s) && CanRun(enforce, s, run)
    ensures Inv(enforce, Run(enforce, s, run))
    decreases |run|
  {
    if run != [] {
      StepKeepsInvariant(enforce, s, run[0]);
      RunKeepsInvariant(enforce, Step(enforce, s, run[0]), run[1..]);
    }
  }

  // -------------------------------------------------- one grant per event

  /** Every grant so far answers a different event, and what is pending has not
      been granted yet. */
  ghost predicate GrantedOnce(s: State) {
    Distinct(s.grants) && forall p | p in s.store.rows :: IsPending(s.store.rows, p) ==> p !in s.grants
  }

  /** The only reuse the protocol cannot undo: beginning a new row for a request
      that was granted before, which needs its receipt to be gone. */
  predicate Reuses(s: State, a: Action) {
    a.Commit? && s.handler.Begin? && s.handler.request in s.grants
  }

  ghost predicate NeverReuses(enforce: bool, s: State, run: seq<Action>)
    requires CanRun(enforce, s, run)
    decreases |run|
  {
    run == [] || (!Reuses(s, run[0]) && NeverReuses(enforce, Step(enforce, s, run[0]), run[1..]))
  }

  /** A row becomes pending only when a begin commits. */
  lemma PendingComesFromBegin(enforce: bool, s: State, a: Action, p: RequestId)
    requires Enabled(s, a) && IsPending(Step(enforce, s, a).store.rows, p)
    ensures IsPending(s.store.rows, p) || (a.Commit? && s.handler.Begin? && s.handler.request == p)
  {
  }

  /** A grant is recorded only when a completion commits, and for a pending row. */
  lemma GrantComesFromCompletion(enforce: bool, s: State, a: Action)
    requires Enabled(s, a)
    ensures
      var t := Step(enforce, s, a);
      t.grants == s.grants ||
      (&& a.Commit? && s.handler.Complete? && IsPending(s.store.rows, s.handler.effective)
       && t.grants == s.grants + [s.handler.effective]
       && !IsPending(t.store.rows, s.handler.effective))
  {
  }

  lemma StepKeepsGrantedOnce(enforce: bool, s: State, a: Action)
    requires Inv(enforce, s) && GrantedOnce(s) && Enabled(s, a) && !Reuses(s, a)
    ensures GrantedOnce(Step(enforce, s, a))
  {
    var t := Step(enforce, s, a);
    GrantComesFromCompletion(enforce, s, a);
    forall p | p in t.store.rows && IsPending(t.store.rows, p) ensures p !in t.grants {
      PendingComesFromBegin(enforce, s, a, p);
    }
  }

  lemma {:induction false} RunKeepsGrantedOnce(enforce: bool, s: State, run: seq<Action>)
    requires Inv(enforce, s) && GrantedOnce(s) && CanRun(enforce, s, run) && NeverReuses(enforce, s, run)
    ensures GrantedOnce(Run(enforce, s, run))
    decreases |run|
  {
    if run != [] {
      StepKeepsInvariant(enforce, s, run[0]);
      StepKeepsGrantedOnce(enforce, s, run[0]);
      RunKeepsGrantedOnce(enforce, Step(enforce, s, run[0]), run[1..]);
    }
  }

  // ------------------------------------------------------------ conservation

  function AllowedLive(ledger: set<Event>): set<Event> {
    set e | e in ledger && e.Live?
  }

  function AllowedOffline(ledger: set<Event>): set<Event> {
    set e | e in ledger && e.Offline?
  }

  lemma {:induction false} DistinctGrantsWithin(grants: seq<RequestId>, events: set<Event>)
    requires Distinct(grants) && forall g | g in grants :: Live(g) in events
    ensures |grants| <= |events|
  {
    if grants != [] {
      var last := |grants| - 1;
      forall g | g in grants[..last] ensures Live(g) in events - {Live(grants[last])} {
      }
      DistinctGrantsWithin(grants[..last], events - {Live(grants[last])});
    }
  }

  lemma {:induction false} OfflineWithin(offline: set<RequestId>, events: set<Event>)
    requires forall r | r in offline :: Event.Offline(r) in events
    ensures |offline| <= |events|
  {
    if offline != {} {
      var r :| r in offline;
      OfflineWithin(offline - {r}, events - {Event.Offline(r)});
    }
  }

  /** How many of the next n milliseconds pass the upload check. */
  function PassedWithin(s: State, n: nat): nat {
    if n == 0 then 0 else PassedWithin(s, n - 1) + if EntitledNow(s.(now := s.now + n - 1)) then 1 else 0
  }

  /** The time counted as passed is the time at which the upload check passes,
      millisecond by millisecond. */
  lemma {:induction false} PassedTimeIsEntitledTime(enforce: bool, s: State, elapsed: nat)
    ensures Step(enforce, s, Tick(elapsed)).passed == s.passed + PassedWithin(s, elapsed)
  {
    if elapsed > 0 {
      PassedTimeIsEntitledTime(enforce, s, elapsed - 1);
    }
  }

  /** Enforce mode, any run, any crashes, any retries, receipts pruned at will:
      the time the upload check has passed plus the time still paid for is at most
      one minute per distinct ledger event, as long as no granted request is begun
      a second time. */
  lemma MeteringConservation(start: int, run: seq<Action>)
    requires 0 <= start && CanRun(true, Initial(start), run)
    requires NeverReuses(true, Initial(start), run)
    ensures
      var s := Run(true, Initial(start), run);
      && s.passed + Remaining(s) <= LEASE_MS * |AllowedLive(s.ledger)|
      && s.store.minutes <= |s.ledger|
  {
    var s := Run(true, Initial(start), run);
    RunKeepsInvariant(true, Initial(start), run);
    RunKeepsGrantedOnce(true, Initial(start), run);
    DistinctGrantsWithin(s.grants, AllowedLive(s.ledger));
    OfflineWithin(s.store.offline, AllowedOffline(s.ledger));
    assert s.ledger == AllowedLive(s.ledger) + AllowedOffline(s.ledger);
    assert AllowedLive(s.ledger) !! AllowedOffline(s.ledger);
  }

  /** Without the restriction on reuse the bound still counts grants, in either
      mode, and each of them added one minute of delivery credit. */
  lemma GrantConservation(enforce: bool, start: int, run: seq<Action>)
    requires 0 <= start && CanRun(enforce, Initial(start), run)
    ensures
      var s := Run(enforce, Initial(start), run);
      && s.passed + Remaining(s) <= LEASE_MS * |s.grants|
      && s.store.minutes == |s.grants| + |s.store.offline|
  {
    RunKeepsInvariant(enforce, Initial(start), run);
  }

  // -------------------------------------------------------------- reattaching

  /** No request arrives on the lease path. */
  predicate NoArrival(run: seq<Action>) {
    forall a | a in run :: !a.Receive?
  }

  /** A request that has read no lease yet, or is being handed one. */
  predicate Asking(h: Handler) {
    h.Lookup? || h.Throttle? || h.FindPending? || h.ReadActive? || h.Reattach?
  }

  /** From s to t nothing was bought, charged, granted or recorded; receipts and denials
      were at most pruned, and the ledger at most received charges sent before. */
  ghost predicate Untouched(s: State, t: State) {
    && t.store.active == s.store.active && t.store.offline == s.store.offline && t.store.minutes == s.store.minutes
    && t.grants == s.grants && t.sent == s.sent && t.now >= s.now
    && (forall r | r in t.store.rows :: r in s.store.rows && t.store.rows[r] == s.store.rows[r])
    && (forall r | r in t.store.denials :: r in s.store.denials && t.store.denials[r] == s.store.denials[r])
    && s.ledger <= t.ledger <= s.ledger + s.sent
  }

  lemma AskingStep(enforce: bool, s: State, a: Action)
    requires Enabled(s, a) && !a.Receive?
    ensures !Asking(s.handler) ==> !Asking(Step(enforce, s, a).handler)
    ensures Asking(s.handler) && Asking(Step(enforce, s, a).handler) ==> Untouched(s, Step(enforce, s, a))
    ensures Step(enforce, s, a).handler.Reattach? ==> s.handler.Reattach? || s.handler.ReadActive?
  {
  }

  /** Once the request has left that path, for the charge or for its answer, it does not
      come back. */
  lemma {:induction false} NeverAsksAgain(enforce: bool, s: State, run: seq<Action>)
    requires CanRun(enforce, s, run) && NoArrival(run) && !Asking(s.handler)
    ensures !Asking(Run(enforce, s, run).handler)
    decreases |run|
  {
    if run != [] {
      assert run[0] in run;
      AskingStep(enforce, s, run[0]);
      NeverAsksAgain(enforce, Step(enforce, s, run[0]), run[1..]);
    }
  }

  lemma {:induction false} AskingTouchesNothing(enforce: bool, s: State, run: seq<Action>)
    requires CanRun(enforce, s, run) && NoArrival(run) && Asking(Run(enforce, s, run).handler)
    ensures Untouched(s, Run(enforce, s, run)) && Asking(s.handler)
    decreases |run|
  {
    if run != [] {
      assert run[0] in run;
      var t := Step(enforce, s, run[0]);
      AskingTouchesNothing(enforce, t, run[1..]);
      AskingStep(enforce, s, run[0]);
      UntouchedOnwards(s, t, Run(enforce, s, run));
    }
  }

  lemma UntouchedOnwards(s: State, t: State, u: State)
    requires Untouched(s, t) && Untouched(t, u)
    ensures Untouched(s, u)
  {
  }

  /** Handed back is the active lease, by a request that named none. */
  lemma {:induction false} ReattachHandsBackActive(enforce: bool, s: State, run: seq<Action>)
    requires CanRun(enforce, s, run) && NoArrival(run) && Run(enforce, s, run).handler.Reattach?
    requires s.handler.Reattach? ==> s.store.active == Some(s.handler.lease)
    ensures Run(enforce, s, run).store.active == Some(Run(enforce, s, run).handler.lease)
    decreases |run|
  {
    if run != [] {
      assert run[0] in run;
      AskingTouchesNothing(enforce, Step(enforce, s, run[0]), run[1..]);
      AskingStep(enforce, s, run[0]);
      ReattachHandsBackActive(enforce, Step(enforce, s, run[0]), run[1..]);
    }
  }

  /** Reattaching is free. Take any run, with whatever ticks, prunes and late charges in
      it, in which a request goes from its lookup to being handed a lease: up to and
      including its answer, nothing was charged, granted or recorded, and what it is
      handed is the lease that was active when it came. */
  lemma ReattachAddsNothing(enforce: bool, s: State, run: seq<Action>, result: Option<Json>)
    requires s.handler.Lookup? && CanRun(enforce, s, run) && NoArrival(run)
    requires Run(enforce, s, run).handler.Reattach?
    ensures
      var t := Run(enforce, s, run);
      var u := Step(enforce, t, Summarize(result));
      && Untouched(s, u) && u.handler.Idle? && s.store.active == Some(t.handler.lease)
      && (result.Some? ==>
            var lease := s.store.active.value;
            u.reply == Some(LeaseGranted(LeaseResponse.LeaseBody(lease.id, lease.expires, result.value))))
  {
    AskingTouchesNothing(enforce, s, run);
    ReattachHandsBackActive(enforce, s, run);
  }

  /** Whatever the crash history, a completion that commits grants the one pending
      row, that row is the one the handler charged, and in enforce mode its event
      has been allowed. */
  lemma ChargeAndGrantMatch(enforce: bool, start: int, run: seq<Action>, fate: Fate)
    requires 0 <= start && CanRun(enforce, Initial(start), run)
    requires Run(enforce, Initial(start), run).handler.Complete?
    ensures
      var s := Run(enforce, Initial(start), run);
      Matches(enforce, s, Step(enforce, s, Commit(fate)), s.handler.effective)
  {
    RunKeepsInvariant(enforce, Initial(start), run);
    CompletionMatches(enforce, Run(enforce, Initial(start), run), fate);
  }

  ghost predicate Matches(enforce: bool, s: State, t: State, r: RequestId) {
    && (forall p | p in s.store.rows :: IsPending(s.store.rows, p) <==> p == r)
    && (t.grants == s.grants || t.grants == s.grants + [r])
    && (t.grants == s.grants <==> t.store == s.store)
    && (t.grants != s.grants ==>
          && NothingPending(t.store.rows)
          && r in s.store.rows && r in t.store.rows && t.store.rows[r].state == Granted
          && t.store.active == Some(Lease(s.store.rows[r].issued, t.store.rows[r].expires))
          && (enforce ==> Live(r) in t.ledger))
  }

  lemma CompletionMatches(enforce: bool, s: State, fate: Fate)
    requires Inv(enforce, s) && s.handler.Complete?
    ensures Matches(enforce, s, Step(enforce, s, Commit(fate)), s.handler.effective)
  {
    var t := Step(enforce, s, Commit(fate));
    var r := s.handler.effective;
    assert IsPending(s.store.rows, r);
    if t.store != s.store {
      assert t.store.rows[r].state == Granted;
      forall p | p in t.store.rows ensures !IsPending(t.store.rows, p) {
        assert p in s.store.rows;
      }
      assert t.grants[|s.grants|] == r;
    }
  }
}
