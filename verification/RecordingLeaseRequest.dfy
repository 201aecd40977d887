/** What one request gets, from its lookup to its answer, in terms of the lease that was
    active when it came: over every run in which nobody else's request arrives, with
    whatever ticks, prunes, late charges, failures and crashes in it. */
module RecordingLeaseRequest {
  import opened Prelude
  import opened RecordingLease
  import opened RecordingLeaseProofs

  predicate Alone(run: seq<Action>) {
    forall a | a in run :: !a.Receive? && !a.ReceiveOffline?
  }

  // ------------------------------------------------------------------- prices

  /** The minute a request may buy at a time: one that names the active lease buys the
      minute after it, at most 25 seconds ahead; one that names none buys the minute from
      now, under the id of the active lease, of which at most 20 seconds are left. */
  ghost predicate Quote(active: Option<Lease>, wanted: Option<LeaseId>, start: int, lease: Lease) {
    if wanted.Some? then
      && active.Some? && active.value.id == wanted.value
      && 0 < active.value.expires - start <= 25_000
      && lease == Lease(wanted.value, Saturate(active.value.expires + 60_000))
    else
      && lease.expires == Saturate(start + 60_000)
      && (active.Some? ==> lease.id == active.value.id && active.value.expires - start <= 20_000)
  }

  ghost predicate Priced(s0: State, now: int, wanted: Option<LeaseId>, lease: Lease) {
    exists start | s0.now <= start <= now :: Quote(s0.store.active, wanted, start, lease)
  }

  // ----------------------------------------------------------------- progress

  ghost predicate Begun(s0: State, s: State, r: RequestId, wanted: Option<LeaseId>) {
    && IsPending(s.store.rows, r) && s.store.active == s0.store.active
    && Priced(s0, s.now, wanted, Lease(s.store.rows[r].issued, s.store.rows[r].expires))
  }

  /** The minute the request was priced is the active lease. */
  ghost predicate Bought(s0: State, s: State, wanted: Option<LeaseId>) {
    exists lease | Priced(s0, s.now, wanted, lease) ::
      var floor := if s0.store.active.Some? then s0.store.active.value.expires else lease.expires;
      s.store.active == Some(Lease(lease.id, Max(lease.expires, floor)))
  }

  ghost predicate Over(s0: State, s: State, r: RequestId, wanted: Option<LeaseId>) {
    && (s.reply == Some(TooEarly) ==>
          s0.store.active.Some? && wanted == Some(s0.store.active.value.id)
          && s0.store.active.value.expires - s0.now > 25_000)
    && (s.reply == Some(Inactive) ==>
          && wanted.Some?
          && (s0.store.active.Some? && s0.store.active.value.id == wanted.value ==>
                s0.store.active.value.expires <= s.now))
    && (s.grants == s0.grants || exists p :: s.grants == s0.grants + [p])
    && (s.grants == s0.grants + [r] ==> Bought(s0, s, wanted))
  }

  /** Where the request of s0 stands in s. */
  ghost predicate Serves(s0: State, s: State, r: RequestId, wanted: Option<LeaseId>) {
    && s.now >= s0.now
    && match s.handler
    case Lookup(q, w) => q == r && w == wanted && Untouched(s0, s)
    case Throttle(q, w, known) => q == r && w == wanted && !known && Untouched(s0, s)
    case FindPending(q, w, start) => q == r && w == wanted && Untouched(s0, s) && s0.now <= start <= s.now
    case ReadActive(q, w, start) => q == r && w == wanted && Untouched(s0, s) && s0.now <= start <= s.now
    case Reattach(lease) =>
      wanted.None? && s0.store.active == Some(lease) && Untouched(s0, s) && lease.expires - s0.now > 20_000
    case Begin(q, w, lease) => q == r && w == wanted && Untouched(s0, s) && Priced(s0, s.now, wanted, lease)
    case Charge(q, retry) => s.grants == s0.grants && (q == r ==> !retry && Begun(s0, s, r, wanted))
    case Attach(q, retry, _) => s.grants == s0.grants && (q == r ==> !retry && Begun(s0, s, r, wanted))
    case Complete(q, retryNow, _) => s.grants == s0.grants && (q == r ==> retryNow.None? && Begun(s0, s, r, wanted))
    case Deny(_, _, _) => s.grants == s0.grants
    case MarkConflict(_) => s.grants == s0.grants
    case Idle => Over(s0, s, r, wanted)
    case _ => false
  }

  ghost predicate Fresh(s0: State, r: RequestId) {
    r !in s0.store.rows && r !in s0.store.denials
  }

  lemma EnvironmentStep(enforce: bool, s0: State, s: State, r: RequestId, wanted: Option<LeaseId>, a: Action)
    requires Serves(s0, s, r, wanted) && Enabled(s, a)
    requires a.Tick? || a.LateCharge? || a.PruneReceipt? || a.PruneDenial? || a.Crash?
    ensures Serves(s0, Step(enforce, s, a), r, wanted)
  {
  }

  lemma LookingStep(enforce: bool, s0: State, s: State, r: RequestId, wanted: Option<LeaseId>, a: Action)
    requires Fresh(s0, r) && Serves(s0, s, r, wanted) && Enabled(s, a)
    requires a.Read? || a.Admit? || a.SeePending? || a.Summarize?
    ensures Serves(s0, Step(enforce, s, a), r, wanted)
  {
  }

  lemma PricingStep(enforce: bool, s0: State, s: State, r: RequestId, wanted: Option<LeaseId>, a: Action)
    requires Serves(s0, s, r, wanted) && Enabled(s, a) && a.SeeActive?
    ensures Serves(s0, Step(enforce, s, a), r, wanted)
  {
    var t := Step(enforce, s, a);
    if t.handler.Begin? {
      assert Quote(s0.store.active, wanted, s.handler.start, t.handler.lease);
    }
  }

  lemma PayingStep(enforce: bool, s0: State, s: State, r: RequestId, wanted: Option<LeaseId>, a: Action)
    requires Serves(s0, s, r, wanted) && Enabled(s, a)
    requires a.Ledger? || a.Authority?
    ensures Serves(s0, Step(enforce, s, a), r, wanted)
  {
  }

  lemma CommitStep(enforce: bool, s0: State, s: State, r: RequestId, wanted: Option<LeaseId>, a: Action)
    requires Serves(s0, s, r, wanted) && Enabled(s, a) && a.Commit?
    ensures Serves(s0, Step(enforce, s, a), r, wanted)
  {
    var t := Step(enforce, s, a);
    if s.handler.Complete? && t.grants != s.grants {
      assert t.grants == s0.grants + [s.handler.effective];
      assert t.grants[|s0.grants|] == s.handler.effective;
      if s.handler.effective == r {
        var row := s.store.rows[r];
        assert Priced(s0, t.now, wanted, Lease(row.issued, row.expires));
      }
    }
  }

  lemma StepServes(enforce: bool, s0: State, s: State, r: RequestId, wanted: Option<LeaseId>, a: Action)
    requires Fresh(s0, r) && Serves(s0, s, r, wanted) && Enabled(s, a) && !a.Receive? && !a.ReceiveOffline?
    ensures Serves(s0, Step(enforce, s, a), r, wanted)
  {
    if a.Read? || a.Admit? || a.SeePending? || a.Summarize? {
      LookingStep(enforce, s0, s, r, wanted, a);
    } else if a.SeeActive? {
      PricingStep(enforce, s0, s, r, wanted, a);
    } else if a.Ledger? || a.Authority? {
      PayingStep(enforce, s0, s, r, wanted, a);
    } else if a.Commit? {
      CommitStep(enforce, s0, s, r, wanted, a);
    } else {
      EnvironmentStep(enforce, s0, s, r, wanted, a);
    }
  }

  lemma {:induction false} RunServes(enforce: bool, s0: State, s: State, r: RequestId, wanted: Option<LeaseId>,
                                     run: seq<Action>)
    requires Fresh(s0, r) && Serves(s0, s, r, wanted) && CanRun(enforce, s, run) && Alone(run)
    ensures Serves(s0, Run(enforce, s, run), r, wanted)
    decreases |run|
  {
    if run != [] {
      assert run[0] in run;
      StepServes(enforce, s0, s, r, wanted, run[0]);
      RunServes(enforce, s0, Step(enforce, s, run[0]), r, wanted, run[1..]);
    }
  }

  /** Renewals neither overlap nor leave a gap: a request granted for the lease it names
      leaves that lease expiring exactly one minute later than before, no matter how long
      it took, and it came or was priced at most 25 seconds before that expiry. */
  lemma RenewalExtendsByAMinute(enforce: bool, s: State, run: seq<Action>, r: RequestId, wanted: LeaseId)
    requires s.handler == Lookup(r, Some(wanted)) && Fresh(s, r) && CanRun(enforce, s, run) && Alone(run)
    requires 0 <= s.now && Run(enforce, s, run).handler.Idle? && Run(enforce, s, run).grants == s.grants + [r]
    ensures
      var t, before := Run(enforce, s, run), s.store.active;
      && before.Some? && before.value.id == wanted && s.now < before.value.expires <= t.now + 25_000
      && (before.value.expires + 60_000 <= I64_MAX ==>
            t.store.active == Some(Lease(wanted, before.value.expires + 60_000)))
  {
    RunServes(enforce, s, s, r, Some(wanted), run);
  }

  /** A request granted without naming a lease pays for the minute from a moment between
      its arrival and its answer, and only if at most 20 seconds were left by then. */
  lemma NewMinuteRunsFromNow(enforce: bool, s: State, run: seq<Action>, r: RequestId)
    requires s.handler == Lookup(r, None) && Fresh(s, r) && CanRun(enforce, s, run) && Alone(run)
    requires 0 <= s.now && Run(enforce, s, run).handler.Idle? && Run(enforce, s, run).grants == s.grants + [r]
    ensures
      var t, active := Run(enforce, s, run), Run(enforce, s, run).store.active;
      && active.Some? && (t.now + 60_000 <= I64_MAX ==>
            s.now + 60_000 <= active.value.expires <= t.now + 60_000)
      && (s.store.active.Some? ==>
            active.value.id == s.store.active.value.id && s.store.active.value.expires <= t.now + 20_000)
  {
    RunServes(enforce, s, s, r, None, run);
  }

  /** Refusals are deserved: a lease is called inactive only if by then no unexpired lease
      of the name was active, and a renewal too early only if more than 25 seconds were
      left when it came. A paid lease is handed back only with more than 20 seconds left. */
  lemma RefusalsAreDeserved(enforce: bool, s: State, run: seq<Action>, r: RequestId, wanted: Option<LeaseId>)
    requires s.handler == Lookup(r, wanted) && Fresh(s, r) && CanRun(enforce, s, run) && Alone(run)
    ensures
      var t, active := Run(enforce, s, run), s.store.active;
      && (t.handler.Idle? && t.reply == Some(Inactive) ==>
            wanted.Some? && (active.None? || active.value.id != wanted.value || active.value.expires <= t.now))
      && (t.handler.Idle? && t.reply == Some(TooEarly) ==>
            active.Some? && wanted == Some(active.value.id) && active.value.expires > s.now + 25_000)
      && (t.handler.Reattach? ==>
            wanted.None? && active == Some(t.handler.lease) && active.value.expires > s.now + 20_000)
  {
    RunServes(enforce, s, s, r, wanted, run);
  }
}
