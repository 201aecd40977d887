/** How far ahead an account can pay. Early renewals are refused, so paid time never
    runs more than a minute past the renewal window, however clients retry and crash. */
module RecordingLeaseHorizon {
  import opened Prelude
  import opened RecordingLease
  import opened RecordingLeaseProofs

  const WINDOW_MS: int := RENEWAL_HEADROOM_MS + RENEWAL_CLOCK_SKEW_MS
  const HORIZON_MS: int := WINDOW_MS + LEASE_MS

  /** The active lease, if any, is within its renewal window. */
  predicate Renewable(s: State) {
    s.store.active.Some? ==> s.store.active.value.expires <= s.now + WINDOW_MS
  }

  /** Paid time ends within the horizon; while a minute is being bought, the lease it
      extends is renewable. */
  ghost predicate Banked(s: State) {
    && (s.store.active.Some? ==> s.store.active.value.expires <= s.now + HORIZON_MS)
    && (forall p | p in s.store.rows ::
          IsPending(s.store.rows, p) ==> Renewable(s) && s.store.rows[p].expires <= s.now + HORIZON_MS)
    && (s.handler.Begin? ==> Renewable(s) && s.handler.lease.expires <= s.now + HORIZON_MS)
  }

  /** Only begins and completions change a pending row or the active lease. */
  ghost predicate Settles(s: State, a: Action) {
    a.Commit? && (s.handler.Begin? || s.handler.Complete?)
  }

  lemma RowsOnlySettle(enforce: bool, s: State, a: Action)
    requires Enabled(s, a) && !Settles(s, a)
    ensures
      var t := Step(enforce, s, a);
      && t.store.active == s.store.active && t.now >= s.now
      && (forall p | p in t.store.rows && IsPending(t.store.rows, p) ::
            p in s.store.rows && t.store.rows[p] == s.store.rows[p])
      && (t.handler.Begin? ==> t.handler == s.handler || a.SeeActive?)
  {
  }

  /** A minute is proposed only inside the window, or when no lease is active. */
  lemma ProposalWithinHorizon(enforce: bool, s: State, ok: bool, random: LeaseId)
    requires Inv(enforce, s) && s.handler.ReadActive?
    ensures
      var t := Step(enforce, s, SeeActive(ok, random));
      t.handler.Begin? ==> Renewable(s) && t.handler.lease.expires <= s.now + HORIZON_MS
  {
  }

  lemma QuietStepKeepsBanked(enforce: bool, s: State, a: Action)
    requires Inv(enforce, s) && Banked(s) && Enabled(s, a) && !Settles(s, a)
    ensures Banked(Step(enforce, s, a))
  {
    RowsOnlySettle(enforce, s, a);
    if a.SeeActive? {
      ProposalWithinHorizon(enforce, s, a.ok, a.random);
    }
  }

  lemma CompletionWithinHorizon(enforce: bool, s: State)
    requires Inv(enforce, s) && Banked(s) && s.handler.Complete?
    ensures
      var Complete(r, retryNow, summary) := s.handler;
      var tx := CompleteTx(s.store, r, retryNow, summary);
      tx.Some? ==> tx.value.active.Some? && tx.value.active.value.expires <= s.now + HORIZON_MS
  {
  }

  lemma SettlingStepKeepsBanked(enforce: bool, s: State, a: Action)
    requires Inv(enforce, s) && Banked(s) && Enabled(s, a) && Settles(s, a)
    ensures Banked(Step(enforce, s, a))
  {
    if s.handler.Complete? {
      CompletionWithinHorizon(enforce, s);
      CompletionMatches(enforce, s, a.fate);
    }
  }

  lemma {:induction false} RunKeepsBanked(enforce: bool, s: State, run: seq<Action>)
    requires Inv(enforce, s) && Banked(s) && CanRun(enforce, s, run)
    ensures Banked(Run(enforce, s, run))
    decreases |run|
  {
    if run != [] {
      StepKeepsInvariant(enforce, s, run[0]);
      if Settles(s, run[0]) {
        SettlingStepKeepsBanked(enforce, s, run[0]);
      } else {
        QuietStepKeepsBanked(enforce, s, run[0]);
      }
      RunKeepsBanked(enforce, Step(enforce, s, run[0]), run[1..]);
    }
  }

  /** In every reachable state of either mode at most 85 seconds are paid ahead. */
  lemma PaidAheadBounded(enforce: bool, start: int, run: seq<Action>)
    requires 0 <= start && CanRun(enforce, Initial(start), run)
    ensures Remaining(Run(enforce, Initial(start), run)) <= 85_000
  {
    RunKeepsBanked(enforce, Initial(start), run);
  }
}
