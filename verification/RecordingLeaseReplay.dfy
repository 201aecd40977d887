/** Replays of a settled request, and exactly when one ledger event can be
    granted twice. */
module RecordingLeaseReplay {
  import opened Prelude
  import opened Json
  import opened RecordingLease
  import opened RecordingLeaseProofs

  // ------------------------------------------------------------------ replay

  predicate Keeps(run: seq<Action>, r: RequestId) {
    PruneReceipt(r) !in run
  }

  predicate KeepsAll(run: seq<Action>) {
    forall a | a in run :: !a.PruneReceipt?
  }

  lemma StepKeepsSettledRow(enforce: bool, s: State, a: Action, r: RequestId)
    requires Enabled(s, a) && a != PruneReceipt(r)
    requires r in s.store.rows && s.store.rows[r].state != Pending
    ensures
      var t := Step(enforce, s, a);
      r in t.store.rows && t.store.rows[r] == s.store.rows[r]
  {
  }

  lemma {:induction false} RunKeepsSettledRow(enforce: bool, s: State, run: seq<Action>, r: RequestId)
    requires CanRun(enforce, s, run) && Keeps(run, r)
    requires r in s.store.rows && s.store.rows[r].state != Pending
    ensures
      var t := Run(enforce, s, run);
      r in t.store.rows && t.store.rows[r] == s.store.rows[r]
    decreases |run|
  {
    if run != [] {
      StepKeepsSettledRow(enforce, s, run[0], r);
      RunKeepsSettledRow(enforce, Step(enforce, s, run[0]), run[1..], r);
    }
  }

  /** The answer a granted request got is the answer every later replay of it
      gets, body and all, until its receipt is pruned; a replay that names another
      lease is refused, and neither changes anything. */
  lemma ReplayStability(enforce: bool, start: int, before: seq<Action>, after: seq<Action>, wanted: Option<LeaseId>)
    requires 0 <= start && CanRun(enforce, Initial(start), before)
    requires Run(enforce, Initial(start), before).handler.Complete?
    requires Step(enforce, Run(enforce, Initial(start), before), Commit(Acked)).reply.Some?
    requires Step(enforce, Run(enforce, Initial(start), before), Commit(Acked)).reply.value.LeaseGranted?
    requires CanRun(enforce, Step(enforce, Run(enforce, Initial(start), before), Commit(Acked)), after)
    requires Keeps(after, Run(enforce, Initial(start), before).handler.effective)
    requires Run(enforce, Step(enforce, Run(enforce, Initial(start), before), Commit(Acked)), after).handler
             == Lookup(Run(enforce, Initial(start), before).handler.effective, wanted)
    ensures
      var s := Run(enforce, Initial(start), before);
      var granted := Step(enforce, s, Commit(Acked));
      var u := Run(enforce, granted, after);
      var t := Step(enforce, u, Read(true));
      && t.store == u.store && t.ledger == u.ledger && t.grants == u.grants && t.handler.Idle?
      && t.reply == if wanted == s.store.rows[s.handler.effective].requested then granted.reply
        else Some(IdempotencyConflict)
  {
    RunKeepsInvariant(enforce, Initial(start), before);
    ReplayFrom(enforce, Run(enforce, Initial(start), before), after, wanted);
  }

  lemma ReplayFrom(enforce: bool, s: State, after: seq<Action>, wanted: Option<LeaseId>)
    requires Inv(enforce, s) && s.handler.Complete?
    requires OnComplete(s, Acked).reply.value.LeaseGranted?
    requires CanRun(enforce, OnComplete(s, Acked), after) && Keeps(after, s.handler.effective)
    requires Run(enforce, OnComplete(s, Acked), after).handler == Lookup(s.handler.effective, wanted)
    ensures
      var granted := OnComplete(s, Acked);
      var u := Run(enforce, granted, after);
      var t := OnLookup(u, true);
      && t.store == u.store && t.ledger == u.ledger && t.grants == u.grants && t.handler.Idle?
      && t.reply == if wanted == s.store.rows[s.handler.effective].requested then granted.reply
        else Some(IdempotencyConflict)
  {
    RunKeepsSettledRow(enforce, OnComplete(s, Acked), after, s.handler.effective);
  }

  // --------------------------------------------------------- kept for a week

  /** A row carries the time it was begun at, and keeps it. */
  lemma RowsKeepTheirTime(enforce: bool, s: State, a: Action, r: RequestId)
    requires Enabled(s, a) && r in Step(enforce, s, a).store.rows
    ensures
      var t := Step(enforce, s, a);
      if r in s.store.rows then t.store.rows[r].created == s.store.rows[r].created
      else a.Commit? && s.handler.Begin? && s.handler.request == r && t.store.rows[r].created == s.now
  {
  }

  lemma {:induction false} ClockRuns(enforce: bool, s: State, run: seq<Action>)
    requires CanRun(enforce, s, run)
    ensures s.now <= Run(enforce, s, run).now
    decreases |run|
  {
    if run != [] {
      ClockRuns(enforce, Step(enforce, s, run[0]), run[1..]);
    }
  }

  /** No run prunes a settled receipt within seven days of its beginning. */
  lemma {:induction false} YoungReceiptIsKept(enforce: bool, s: State, run: seq<Action>, r: RequestId)
    requires CanRun(enforce, s, run) && r in s.store.rows && s.store.rows[r].state != Pending
    requires Run(enforce, s, run).now <= s.store.rows[r].created + 7 * 24 * 60 * 60 * 1_000
    ensures Keeps(run, r)
    decreases |run|
  {
    if run != [] {
      var t := Step(enforce, s, run[0]);
      ClockRuns(enforce, s, run);
      assert run[0] != PruneReceipt(r);
      StepKeepsSettledRow(enforce, s, run[0], r);
      YoungReceiptIsKept(enforce, t, run[1..], r);
      assert run == [run[0]] + run[1..];
    }
  }

  /** So for a week after it was begun, a granted request answers every replay with the
      body it answered first, whatever else happens. */
  lemma ReplayStableForAWeek(enforce: bool, s: State, after: seq<Action>, wanted: Option<LeaseId>)
    requires Inv(enforce, s) && s.handler.Complete?
    requires OnComplete(s, Acked).reply.value.LeaseGranted? && CanRun(enforce, OnComplete(s, Acked), after)
    requires s.handler.effective in s.store.rows
    requires Run(enforce, OnComplete(s, Acked), after).handler == Lookup(s.handler.effective, wanted)
    requires Run(enforce, OnComplete(s, Acked), after).now
             <= s.store.rows[s.handler.effective].created + 7 * 24 * 60 * 60 * 1_000
    ensures
      var granted := OnComplete(s, Acked);
      var t := OnLookup(Run(enforce, granted, after), true);
      t.reply == if wanted == s.store.rows[s.handler.effective].requested then granted.reply
                 else Some(IdempotencyConflict)
  {
    YoungReceiptIsKept(enforce, OnComplete(s, Acked), after, s.handler.effective);
    ReplayFrom(enforce, s, after, wanted);
  }

  // ------------------------------------------------- when an event pays twice

  /** A granted request whose receipt no longer says so: pruned, or pruned and
      begun again. */
  ghost predicate ReceiptLost(s: State) {
    exists g :: g in s.grants && (g !in s.store.rows || s.store.rows[g].state == Pending)
  }

  ghost predicate DoubleGrantFollows(s: State) {
    exists run :: CanRun(true, s, run) && KeepsAll(run) && !Distinct(Run(true, s, run).grants)
  }

  lemma StepKeepsReceipts(enforce: bool, s: State, a: Action)
    requires Inv(enforce, s) && Enabled(s, a) && !a.PruneReceipt?
    requires Distinct(s.grants) && !ReceiptLost(s)
    ensures Distinct(Step(enforce, s, a).grants) && !ReceiptLost(Step(enforce, s, a))
  {
    var t := Step(enforce, s, a);
    GrantComesFromCompletion(enforce, s, a);
    forall g | g in t.grants ensures g in t.store.rows && t.store.rows[g].state != Pending {
      if g in s.grants {
        StepKeepsSettledRow(enforce, s, a, g);
      } else {
        assert t.store.rows[g].state == Granted;
      }
    }
  }

  lemma {:induction false} RunKeepsReceipts(enforce: bool, s: State, run: seq<Action>)
    requires Inv(enforce, s) && CanRun(enforce, s, run) && KeepsAll(run)
    requires Distinct(s.grants) && !ReceiptLost(s)
    ensures Distinct(Run(enforce, s, run).grants) && !ReceiptLost(Run(enforce, s, run))
    decreases |run|
  {
    if run != [] {
      assert run[0] in run;
      StepKeepsInvariant(enforce, s, run[0]);
      StepKeepsReceipts(enforce, s, run[0]);
      RunKeepsReceipts(enforce, Step(enforce, s, run[0]), run[1..]);
    }
  }

  lemma {:induction false} RunThenStep(enforce: bool, s: State, run: seq<Action>, a: Action)
    requires CanRun(enforce, s, run) && Enabled(Run(enforce, s, run), a)
    ensures CanRun(enforce, s, run + [a])
    ensures Run(enforce, s, run + [a]) == Step(enforce, Run(enforce, s, run), a)
    decreases |run|
  {
    if run == [] {
      assert run + [a] == [a];
      assert CanRun(enforce, Step(enforce, s, a), [a][1..]);
    } else {
      RunThenStep(enforce, Step(enforce, s, run[0]), run[1..], a);
      assert (run + [a])[1..] == run[1..] + [a];
    }
  }

  lemma {:induction false} RunThenRun(enforce: bool, s: State, run: seq<Action>, more: seq<Action>)
    requires CanRun(enforce, s, run) && CanRun(enforce, Run(enforce, s, run), more)
    ensures CanRun(enforce, s, run + more)
    ensures Run(enforce, s, run + more) == Run(enforce, Run(enforce, s, run), more)
    decreases |run|
  {
    if run == [] {
      assert run + more == more;
    } else {
      RunThenRun(enforce, Step(enforce, s, run[0]), run[1..], more);
      assert (run + more)[1..] == run[1..] + more;
    }
  }

  /** A run that prunes nothing, with the state it leads to. */
  ghost predicate Leads(s: State, run: seq<Action>, t: State) {
    CanRun(true, s, run) && KeepsAll(run) && Run(true, s, run) == t
  }

  lemma Then(s: State, run: seq<Action>, t: State, a: Action) returns (longer: seq<Action>, u: State)
    requires Leads(s, run, t) && Enabled(t, a) && !a.PruneReceipt?
    ensures u == Step(true, t, a) && Leads(s, longer, u)
  {
    RunThenStep(true, s, run, a);
    longer, u := run + [a], Step(true, t, a);
  }

  predicate Expired(s: State) {
    s.store.active.Some? ==> s.store.active.value.expires <= s.now
  }

  /** From the charge to the completion when nothing fails. */
  lemma ChargeToComplete(s: State, run0: seq<Action>, t0: State, p: RequestId) returns (run: seq<Action>, t: State)
    requires Leads(s, run0, t0) && t0.handler.Charge? && t0.handler.effective == p && IsPending(t0.store.rows, p)
    requires t0.handler.retry || Live(p) !in t0.ledger
    ensures Leads(s, run, t) && t.handler.Complete? && t.handler.effective == p
    ensures t.handler.retryNow == if t0.handler.retry then Some(t0.now) else None
    ensures t == t0.(handler := t.handler, ledger := t0.ledger + {Live(p)}, sent := t0.sent + {Live(p)})
  {
    run, t := Then(s, run0, t0, Ledger(Allow(Obj(map[]))));
    assert t.handler == Attach(p, t0.handler.retry, Obj(map[]));
    run, t := Then(s, run, t, Authority(true, Some(Null)));
  }

  /** A completion that commits and is acknowledged. */
  lemma CommitCompletion(s: State, run0: seq<Action>, t0: State) returns (run: seq<Action>, t: State)
    requires Leads(s, run0, t0) && t0.handler.Complete?
    requires CompleteTx(t0.store, t0.handler.effective, t0.handler.retryNow, t0.handler.summary).Some?
    ensures Leads(s, run, t) && t.handler.Idle?
    ensures t.store == CompleteTx(t0.store, t0.handler.effective, t0.handler.retryNow, t0.handler.summary).value
    ensures t == t0.(handler := Idle, reply := t.reply, store := t.store, grants := t0.grants + [t0.handler.effective])
  {
    run, t := Then(s, run0, t0, Commit(Acked));
  }

  lemma RetryToCharge(s: State, run0: seq<Action>, t0: State, p: RequestId) returns (run: seq<Action>, t: State)
    requires Leads(s, run0, t0) && StoreOk(t0.store) && t0.handler.Idle? && IsPending(t0.store.rows, p)
    ensures Leads(s, run, t) && t == t0.(handler := Charge(p, true))
  {
    run, t := Then(s, run0, t0, Receive(p, t0.store.rows[p].requested));
    run, t := Then(s, run, t, Read(true));
    run, t := Then(s, run, t, Admit(true));
  }

  /** A retry of a pending request completes it, whether or not its event was
      already in the ledger. */
  lemma RecoverPending(s: State, run0: seq<Action>, t0: State, p: RequestId) returns (run: seq<Action>, t: State)
    requires Leads(s, run0, t0) && Inv(true, t0) && t0.handler.Idle? && Expired(t0) && IsPending(t0.store.rows, p)
    ensures Leads(s, run, t) && t.handler.Idle? && t.grants == t0.grants + [p]
    ensures t.store.rows.Keys == t0.store.rows.Keys && t.store.denials == t0.store.denials
    ensures NothingPending(t.store.rows)
    ensures t.ledger == t0.ledger + {Live(p)} && t.passed == t0.passed && t.now == t0.now
    ensures t.now + LEASE_MS <= I64_MAX ==> Remaining(t) >= LEASE_MS
  {
    run, t := RetryToCharge(s, run0, t0, p);
    run, t := ChargeToComplete(s, run, t, p);
    assert t.store == t0.store;
    run, t := CommitCompletion(s, run, t);
    forall q | q in t.store.rows ensures !IsPending(t.store.rows, q) {
      assert q in t0.store.rows;
    }
  }

  lemma StopAndExpire(s: State) returns (run: seq<Action>, t: State)
    requires Inv(true, s)
    ensures Leads(s, run, t) && Inv(true, t) && t.handler.Idle? && Expired(t)
    ensures t.grants == s.grants && t.store == s.store
  {
    assert Leads(s, [], s);
    run, t := Then(s, [], s, Crash);
    var wait := Remaining(t);
    run, t := Then(s, run, t, Tick(wait));
    RunKeepsInvariant(true, s, run);
  }

  /** A request unknown to the store, with nothing pending and no live lease,
      reaches the charge with its row pending. */
  lemma FreshToCharge(s: State, run0: seq<Action>, t0: State, g: RequestId) returns (run: seq<Action>, t: State)
    requires Leads(s, run0, t0) && t0.handler.Idle? && Expired(t0) && 0 <= t0.now
    requires NothingPending(t0.store.rows) && UnknownRequest(t0.store, g, None)
    ensures Leads(s, run, t) && t.handler == Charge(g, false)
    ensures t == t0.(handler := t.handler, store := t.store)
    ensures IsPending(t.store.rows, g) && t.store == t0.store.(rows := t0.store.rows[g := t.store.rows[g]])
    ensures t.store.rows[g].expires == Saturate(t0.now + LEASE_MS) && t.store.rows[g].created == t0.now
  {
    run, t := Then(s, run0, t0, Receive(g, None));
    run, t := Then(s, run, t, Read(true));
    run, t := Then(s, run, t, Admit(true));
    run, t := Then(s, run, t, SeePending(true, None));
    run, t := Then(s, run, t, SeeActive(true, ""));
    assert t.handler.Begin? && t.handler.request == g && t.store == t0.store;
    assert BeginTx(t.store, g, None, Lease(t.handler.lease.id, t.handler.lease.expires), t.now).Some?;
    run, t := Then(s, run, t, Commit(Acked));
  }

  /** The same request, when the answer to its charge is lost: its row stays pending. */
  lemma BeginAndLose(s: State, run0: seq<Action>, t0: State, g: RequestId) returns (run: seq<Action>, t: State)
    requires Leads(s, run0, t0) && t0.handler.Idle? && Expired(t0) && 0 <= t0.now
    requires NothingPending(t0.store.rows) && UnknownRequest(t0.store, g, None)
    ensures Leads(s, run, t) && t.handler.Idle? && t.grants == t0.grants && IsPending(t.store.rows, g) && Expired(t)
    ensures t.ledger == t0.ledger && t.passed == t0.passed && t.now == t0.now
  {
    run, t := FreshToCharge(s, run0, t0, g);
    run, t := Then(s, run, t, Ledger(NoReply(false)));
  }

  lemma RepeatIsNotDistinct(xs: seq<RequestId>, ys: seq<RequestId>, g: RequestId)
    requires g in xs && xs <= ys && |xs| < |ys| && ys[|ys| - 1] == g
    ensures !Distinct(ys)
  {
    var i :| 0 <= i < |xs| && xs[i] == g;
    assert ys[i] == g;
  }

  /** An account at rest: no handler, no paid time left. */
  ghost predicate AtRest(s: State, run: seq<Action>, t: State) {
    Leads(s, run, t) && Inv(true, t) && t.handler.Idle? && Expired(t) && s.grants <= t.grants
  }

  /** Whatever was pending is recovered and its minute waited out. */
  lemma ClearPending(s: State, run0: seq<Action>, t0: State, g: RequestId) returns (run: seq<Action>, t: State)
    requires Inv(true, s) && AtRest(s, run0, t0) && g !in t0.store.rows
    ensures AtRest(s, run, t) && NothingPending(t.store.rows) && g !in t.store.rows
  {
    run, t := run0, t0;
    if p :| p in t.store.rows && IsPending(t.store.rows, p) {
      run, t := RecoverPending(s, run, t, p);
      RunKeepsInvariant(true, s, run);
      var wait := Remaining(t);
      run, t := Then(s, run, t, Tick(wait));
      RunKeepsInvariant(true, s, run);
    }
  }

  /** A granted request without its receipt is begun again and left pending. */
  lemma LoseAgain(s: State, run0: seq<Action>, t0: State, g: RequestId) returns (run: seq<Action>, t: State)
    requires Inv(true, s) && AtRest(s, run0, t0) && g in s.grants && g !in t0.store.rows
    ensures AtRest(s, run, t) && IsPending(t.store.rows, g)
  {
    run, t := ClearPending(s, run0, t0, g);
    assert g in t.grants;
    run, t := BeginAndLose(s, run, t, g);
    RunKeepsInvariant(true, s, run);
  }

  /** From a lost receipt a second grant can be reached. */
  lemma LostReceiptPaysTwice(s: State)
    requires Inv(true, s) && ReceiptLost(s)
    ensures DoubleGrantFollows(s)
  {
    var g :| g in s.grants && (g !in s.store.rows || s.store.rows[g].state == Pending);
    var run, t := StopAndExpire(s);
    if g !in t.store.rows {
      run, t := LoseAgain(s, run, t, g);
    }
    var earlier := t.grants;
    assert g in earlier;
    run, t := RecoverPending(s, run, t, g);
    RepeatIsNotDistinct(earlier, t.grants, g);
    assert CanRun(true, s, run) && KeepsAll(run) && !Distinct(Run(true, s, run).grants);
  }

  /** The exact condition. From a reachable enforce-mode state with one grant per
      event so far, some continuation that prunes no further receipt grants an
      event again if and only if the receipt of some granted request is lost.
      Retaining receipts (or never resending a granted request id after its
      receipt is pruned) is therefore not just enough but needed. */
  lemma DoubleGrantExactlyWhenReceiptLost(start: int, run: seq<Action>)
    requires 0 <= start && CanRun(true, Initial(start), run)
    requires Distinct(Run(true, Initial(start), run).grants)
    ensures
      var s := Run(true, Initial(start), run);
      DoubleGrantFollows(s) <==> ReceiptLost(s)
  {
    RunKeepsInvariant(true, Initial(start), run);
    var s := Run(true, Initial(start), run);
    if ReceiptLost(s) {
      LostReceiptPaysTwice(s);
    } else {
      forall more | CanRun(true, s, more) && KeepsAll(more) ensures Distinct(Run(true, s, more).grants) {
        RunKeepsReceipts(true, s, more);
      }
    }
  }

  /** As long as no receipt is pruned no event is granted twice, and metering is
      conserved without any assumption on what clients send. */
  lemma RetainedReceiptsConserve(start: int, run: seq<Action>)
    requires 0 <= start && CanRun(true, Initial(start), run) && KeepsAll(run)
    ensures
      var s := Run(true, Initial(start), run);
      && Distinct(s.grants)
      && s.passed + Remaining(s) <= LEASE_MS * |AllowedLive(s.ledger)|
  {
    var s := Run(true, Initial(start), run);
    RunKeepsInvariant(true, Initial(start), run);
    RunKeepsReceipts(true, Initial(start), run);
    DistinctGrantsWithin(s.grants, AllowedLive(s.ledger));
  }

  const REUSED: RequestId := "00000000-0000-4000-8000-000000000000"

  /** A first-time grant of a request to an account with nothing pending and no lease. */
  lemma GrantFirst(s: State, g: RequestId) returns (run: seq<Action>, t: State)
    requires s == Initial(0) && UuidV4(g)
    ensures Leads(s, run, t) && t.handler.Idle? && t.now == 0 && t.passed == 0 && t.grants == [g]
    ensures t.ledger == {Live(g)} && t.store.rows.Keys == {g} && t.store.denials == map[]
    ensures t.store.rows[g].state == Granted && t.store.rows[g].created == 0
    ensures t.store.active.Some? && t.store.active.value.expires == LEASE_MS
  {
    assert Leads(s, [], s);
    run, t := FreshToCharge(s, [], s, g);
    run, t := ChargeToComplete(s, run, t, g);
    run, t := CommitCompletion(s, run, t);
  }

  /** Sending a granted request again a week later, after its receipt is pruned. */
  lemma ReuseGrantsAgain(t0: State, g: RequestId) returns (run: seq<Action>, t: State)
    requires Inv(true, t0) && t0.handler.Idle? && Expired(t0) && t0.now + LEASE_MS <= I64_MAX
    requires NothingPending(t0.store.rows) && UnknownRequest(t0.store, g, None)
    ensures CanRun(true, t0, run) && Run(true, t0, run) == t
    ensures t.ledger == t0.ledger + {Live(g)} && t.passed == t0.passed + LEASE_MS
  {
    assert Leads(t0, [], t0);
    run, t := BeginAndLose(t0, [], t0, g);
    RunKeepsInvariant(true, t0, run);
    run, t := RecoverPending(t0, run, t, g);
    run, t := Then(t0, run, t, Tick(LEASE_MS));
  }

  lemma ReusedIsValid()
    ensures UuidV4(REUSED)
  {
    forall i | 0 <= i < 36 ensures REUSED[i] == if i == 8 || i == 13 || i == 18 || i == 23 then '-'
      else if i == 14 then '4' else if i == 19 then '8' else '0' {
    }
  }

  /** A state in which a granted request has been forgotten and its minute is over. */
  lemma GrantExpirePrune(g: RequestId) returns (run: seq<Action>, t: State)
    requires UuidV4(g)
    ensures CanRun(true, Initial(0), run) && Run(true, Initial(0), run) == t
    ensures t.handler.Idle? && t.now == RETENTION_MS + 1 && t.passed == LEASE_MS && t.ledger == {Live(g)}
    ensures Expired(t) && NothingPending(t.store.rows) && UnknownRequest(t.store, g, None)
  {
    run, t := GrantFirst(Initial(0), g);
    run, t := Then(Initial(0), run, t, Tick(RETENTION_MS + 1));
    RunThenStep(true, Initial(0), run, PruneReceipt(g));
    run, t := run + [PruneReceipt(g)], Step(true, t, PruneReceipt(g));
    assert t.store.rows.Keys == {};
  }

  /** The concrete failure: a request is granted, a week passes, its receipt is
      pruned, the client sends the same id again, the answer to that charge is
      lost, and the retry is granted a second minute on one ledger event. */
  lemma PrunedReceiptOverrunsMeter()
    ensures exists run ::
              && CanRun(true, Initial(0), run)
              && Run(true, Initial(0), run).passed > LEASE_MS * |AllowedLive(Run(true, Initial(0), run).ledger)|
  {
    ReusedIsValid();
    var run, t := GrantExpirePrune(REUSED);
    RunKeepsInvariant(true, Initial(0), run);
    var again, u := ReuseGrantsAgain(t, REUSED);
    RunThenRun(true, Initial(0), run, again);
    assert AllowedLive(u.ledger) == {Live(REUSED)};
    assert Run(true, Initial(0), run + again) == u;
  }
}
