/** What tells the two modes apart, and what a charge leads to: shadow mode denies nobody,
    enforce mode denies exactly what the ledger refused and goes on saying so. */
module RecordingLeaseModes {
  import opened Prelude
  import opened Json
  import opened RecordingLease
  import opened RecordingLeaseProofs
  import opened RecordingLeaseReplay
  import LeaseResponse

  // -------------------------------------------------------------------- shadow

  ghost predicate Undenied(s: State) {
    && s.store.denials == map[] && !s.handler.Deny?
    && (s.reply.Some? ==> !s.reply.value.Denied?)
  }

  lemma {:induction false} RunKeepsUndenied(s: State, run: seq<Action>)
    requires Undenied(s) && CanRun(false, s, run)
    ensures Undenied(Run(false, s, run))
    decreases |run|
  {
    if run != [] {
      RunKeepsUndenied(Step(false, s, run[0]), run[1..]);
    }
  }

  /** In shadow mode no run stores a denial or answers with one, live or offline, whatever
      the ledger says. */
  lemma ShadowNeverDenies(start: int, run: seq<Action>)
    requires CanRun(false, Initial(start), run)
    ensures
      var s := Run(false, Initial(start), run);
      s.store.denials == map[] && (s.reply.Some? ==> !s.reply.value.Denied?)
  {
    RunKeepsUndenied(Initial(start), run);
  }

  // --------------------------------------------------------------- superseding

  /** What is being bought continues the active lease, if there is one. */
  ghost predicate Continuing(s: State) {
    && (s.store.active.Some? ==>
          && (forall p | p in s.store.rows ::
                IsPending(s.store.rows, p) ==> s.store.rows[p].issued == s.store.active.value.id)
          && (s.handler.Begin? ==> s.handler.lease.id == s.store.active.value.id))
  }

  lemma PricingKeepsContinuing(enforce: bool, s: State, a: Action)
    requires Continuing(s) && Enabled(s, a) && a.SeeActive?
    ensures Continuing(Step(enforce, s, a))
  {
  }

  lemma CommitKeepsContinuing(enforce: bool, s: State, a: Action)
    requires Inv(enforce, s) && Continuing(s) && Enabled(s, a) && a.Commit?
    ensures Continuing(Step(enforce, s, a))
  {
    if s.handler.Complete? {
      CompletionMatches(enforce, s, a.fate);
    }
  }

  /** Other steps neither begin nor complete a row, nor propose a lease. */
  lemma OtherKeepsContinuing(enforce: bool, s: State, a: Action)
    requires Continuing(s) && Enabled(s, a) && !a.SeeActive? && !a.Commit?
    ensures Continuing(Step(enforce, s, a))
  {
    var t := Step(enforce, s, a);
    assert t.store.active == s.store.active && (t.handler.Begin? ==> t.handler == s.handler);
    assert forall p | p in t.store.rows :: p in s.store.rows && t.store.rows[p] == s.store.rows[p];
  }

  lemma StepKeepsContinuing(enforce: bool, s: State, a: Action)
    requires Inv(enforce, s) && Continuing(s) && Enabled(s, a)
    ensures Continuing(Step(enforce, s, a))
  {
    if a.SeeActive? {
      PricingKeepsContinuing(enforce, s, a);
    } else if a.Commit? {
      CommitKeepsContinuing(enforce, s, a);
    } else {
      OtherKeepsContinuing(enforce, s, a);
    }
  }

  lemma {:induction false} RunKeepsContinuing(enforce: bool, s: State, run: seq<Action>)
    requires Inv(enforce, s) && Continuing(s) && CanRun(enforce, s, run)
    ensures Continuing(Run(enforce, s, run))
    decreases |run|
  {
    if run != [] {
      StepKeepsInvariant(enforce, s, run[0]);
      StepKeepsContinuing(enforce, s, run[0]);
      RunKeepsContinuing(enforce, Step(enforce, s, run[0]), run[1..]);
    }
  }

  /** With one handler at a time a completion is never refused because another lease became
      active: in every reachable state the row being completed can be. */
  lemma NeverSuperseded(enforce: bool, s: State)
    requires Inv(enforce, s) && Continuing(s) && s.handler.Complete?
    ensures CompleteTx(s.store, s.handler.effective, s.handler.retryNow, s.handler.summary).Some?
  {
  }

  // ------------------------------------------------------------ after a charge

  /** What the mode makes of an answer: whether the minute is granted. */
  predicate Grants(enforce: bool, answer: Answer) {
    answer.Allow? || !enforce
  }

  /** Whether the ledger had the event already. */
  predicate Duplicate(s: State, r: RequestId, answer: Answer) {
    match answer
    case Allow(_) => Live(r) in s.ledger
    case Refuse(_, _, duplicate) => duplicate
    case _ => false
  }

  function Summary(answer: Answer): Json {
    if answer.Allow? || answer.Refuse? then answer.summary else SHADOW_SUMMARY
  }

  /** From s to t the row of r was granted: once, as the active lease under the id it was
      issued, with the summary charged and the retention authority, unless the summary had
      one, and that is the answer. */
  ghost predicate GrantedAs(s: State, t: State, r: RequestId, summary: Json, authority: Json) {
    && t.grants == s.grants + [r] && t.handler.Idle? && t.store.active.Some?
    && r in s.store.rows && r in t.store.rows && t.store.rows[r].state == Granted && t.store.rows[r].summary.Some?
    && var lease, stored := t.store.active.value, t.store.rows[r].summary.value;
    && lease == Lease(s.store.rows[r].issued, t.store.rows[r].expires)
    && t.reply == Some(LeaseGranted(LeaseResponse.LeaseBody(lease.id, lease.expires, stored)))
    && (forall k | k != LeaseResponse.AUTHORITY_KEY :: stored.Get(k) == summary.Get(k))
    && var given := summary.Get(LeaseResponse.AUTHORITY_KEY);
    && stored.Get(LeaseResponse.AUTHORITY_KEY) == if given.Some? then given else Some(authority)
  }

  lemma AttachGrants(enforce: bool, s: State, authority: Json)
    requires Inv(enforce, s) && Continuing(s) && s.handler.Attach? && s.handler.summary.Obj?
    ensures
      var attached := OnAuthority(s, true, Some(authority));
      && attached.handler.Complete?
      && GrantedAs(s, OnComplete(attached, Acked), s.handler.effective, s.handler.summary, authority)
  {
    assert IsPending(s.store.rows, s.handler.effective);
    SummaryStepKeepsInvariant(enforce, s, Authority(true, Some(authority)));
    NeverSuperseded(enforce, OnAuthority(s, true, Some(authority)));
  }

  /** From a charge the mode accepts, if the event is new or this is a retry, the next two
      awaits grant the very row charged. It takes a summary that can carry the retention
      authority. */
  lemma AcceptedChargeGrants(enforce: bool, s: State, answer: Answer, authority: Json)
    requires Inv(enforce, s) && Continuing(s) && s.handler.Charge? && Enabled(s, Ledger(answer))
    requires Grants(enforce, answer) && (s.handler.retry || !Duplicate(s, s.handler.effective, answer))
    requires Summary(answer).Obj?
    ensures
      var charged := OnCharge(enforce, s, answer);
      charged.handler == Attach(s.handler.effective, s.handler.retry, Summary(answer)) &&
      var attached := OnAuthority(charged, true, Some(authority));
      && attached.handler.Complete?
      && GrantedAs(s, OnComplete(attached, Acked), s.handler.effective, Summary(answer), authority)
  {
    LedgerStepKeepsInvariant(enforce, s, answer);
    OtherKeepsContinuing(enforce, s, Ledger(answer));
    AttachGrants(enforce, OnCharge(enforce, s, answer), authority);
  }

  /** Put together: from every reachable charge in shadow mode, whatever the ledger says,
      unless it says that a first charge is a duplicate, the minute is granted. */
  lemma ShadowGrants(start: int, run: seq<Action>, answer: Answer, authority: Json)
    requires 0 <= start && CanRun(false, Initial(start), run)
    requires Run(false, Initial(start), run).handler.Charge? && Enabled(Run(false, Initial(start), run), Ledger(answer))
    requires Summary(answer).Obj?
    requires
      var s := Run(false, Initial(start), run);
      s.handler.retry || !Duplicate(s, s.handler.effective, answer)
    ensures
      var s := Run(false, Initial(start), run);
      var steps := [Ledger(answer), Authority(true, Some(authority)), Commit(Acked)];
      CanRun(false, s, steps) && GrantedAs(s, Run(false, s, steps), s.handler.effective, Summary(answer), authority)
  {
    RunKeepsInvariant(false, Initial(start), run);
    RunKeepsContinuing(false, Initial(start), run);
    var s := Run(false, Initial(start), run);
    AcceptedChargeGrants(false, s, answer, authority);
    ThreeSteps(false, s, Ledger(answer), Authority(true, Some(authority)), Commit(Acked));
  }

  lemma ThreeSteps(enforce: bool, s: State, a: Action, b: Action, c: Action)
    requires Enabled(s, a) && Enabled(Step(enforce, s, a), b)
    requires Enabled(Step(enforce, Step(enforce, s, a), b), c)
    ensures CanRun(enforce, s, [a, b, c])
    ensures Run(enforce, s, [a, b, c]) == Step(enforce, Step(enforce, Step(enforce, s, a), b), c)
  {
    var t := Step(enforce, s, a);
    var u := Step(enforce, t, b);
    assert [a, b, c][1..] == [b, c] && [b, c][1..] == [c] && [c][1..] == [];
    assert CanRun(enforce, Step(enforce, u, c), []);
    assert CanRun(enforce, u, [c]);
    assert CanRun(enforce, t, [b, c]);
    assert Run(enforce, Step(enforce, u, c), []) == Step(enforce, u, c) == Run(enforce, u, [c]);
    assert Run(enforce, t, [b, c]) == Run(enforce, u, [c]);
  }

  /** A first charge of an event the ledger already had is a conflict, in both modes. */
  lemma FreshDuplicateConflicts(enforce: bool, s: State, answer: Answer)
    requires Inv(enforce, s) && s.handler.Charge? && !s.handler.retry && Enabled(s, Ledger(answer))
    requires Grants(enforce, answer) && Duplicate(s, s.handler.effective, answer)
    ensures
      var charged := Step(enforce, s, Ledger(answer));
      charged.handler.MarkConflict? &&
      var t := Step(enforce, charged, Commit(Acked));
      && t.reply == Some(IdempotencyConflict) && t.grants == s.grants && t.store.active == s.store.active
      && t.store.rows[s.handler.effective] == s.store.rows[s.handler.effective].(state := Conflicted)
  {
  }

  /** A charge the mode does not accept: refused, it becomes a denial with the ledger's own
      words in place of the row; unanswered, it leaves the row pending for a retry. */
  lemma RejectedChargeDenies(s: State, answer: Answer)
    requires Inv(true, s) && s.handler.Charge? && Enabled(s, Ledger(answer)) && !Grants(true, answer)
    ensures
      var r, charged := s.handler.effective, Step(true, s, Ledger(answer));
      if answer.Refuse? then
        charged.handler.Deny? &&
        var t := Step(true, charged, Commit(Acked));
        && t.reply == Some(Denied(answer.code, answer.summary)) && t.handler.Idle? && t.grants == s.grants
        && r !in t.store.rows && r in t.store.denials
        && t.store.denials[r] == Denial(s.store.rows[r].requested, answer.code, answer.summary)
      else
        charged.reply == Some(Unavailable) && charged.handler.Idle? && charged.store == s.store
  {
    assert IsPending(s.store.rows, s.handler.effective);
  }

  // ------------------------------------------------------------ denied replays

  predicate KeepsDenial(run: seq<Action>, r: RequestId) {
    PruneDenial(r) !in run
  }

  lemma StepKeepsDenial(enforce: bool, s: State, a: Action, r: RequestId)
    requires Inv(enforce, s) && Enabled(s, a) && r in s.store.denials && a != PruneDenial(r)
    ensures r in Step(enforce, s, a).store.denials && Step(enforce, s, a).store.denials[r] == s.store.denials[r]
  {
  }

  lemma {:induction false} RunKeepsDenial(enforce: bool, s: State, run: seq<Action>, r: RequestId)
    requires Inv(enforce, s) && CanRun(enforce, s, run) && r in s.store.denials && KeepsDenial(run, r)
    ensures
      var t := Run(enforce, s, run);
      r in t.store.denials && t.store.denials[r] == s.store.denials[r] && Inv(enforce, t)
    decreases |run|
  {
    if run != [] {
      assert run[0] in run;
      StepKeepsInvariant(enforce, s, run[0]);
      StepKeepsDenial(enforce, s, run[0], r);
      RunKeepsDenial(enforce, Step(enforce, s, run[0]), run[1..], r);
    }
  }

  /** A denial is as stable as a grant: after any run to a committed denial and any run from
      it that keeps it, every replay of the request gets the same code and summary, or a
      conflict if it names another lease, and changes nothing. */
  lemma DenialStability(enforce: bool, start: int, before: seq<Action>, after: seq<Action>, wanted: Option<LeaseId>)
    requires 0 <= start && CanRun(enforce, Initial(start), before)
    requires Run(enforce, Initial(start), before).handler.Deny?
    requires CanRun(enforce, Step(enforce, Run(enforce, Initial(start), before), Commit(Acked)), after)
    requires KeepsDenial(after, Run(enforce, Initial(start), before).handler.effective)
    requires Run(enforce, Step(enforce, Run(enforce, Initial(start), before), Commit(Acked)), after).handler
             == Lookup(Run(enforce, Initial(start), before).handler.effective, wanted)
    ensures
      var s := Run(enforce, Initial(start), before);
      var u := Run(enforce, Step(enforce, s, Commit(Acked)), after);
      var t := Step(enforce, u, Read(true));
      && t == u.(handler := Idle, reply := t.reply) && s.handler.effective in s.store.rows
      && t.reply == Some(if wanted == s.store.rows[s.handler.effective].requested
                         then Denied(s.handler.code, s.handler.summary) else IdempotencyConflict)
  {
    RunKeepsInvariant(enforce, Initial(start), before);
    DenialFrom(enforce, Run(enforce, Initial(start), before), after, wanted);
  }

  lemma DenialFrom(enforce: bool, s: State, after: seq<Action>, wanted: Option<LeaseId>)
    requires Inv(enforce, s) && s.handler.Deny? && CanRun(enforce, OnDeny(s, Acked), after)
    requires KeepsDenial(after, s.handler.effective)
    requires Run(enforce, OnDeny(s, Acked), after).handler == Lookup(s.handler.effective, wanted)
    ensures
      var u := Run(enforce, OnDeny(s, Acked), after);
      var t := OnLookup(u, true);
      && s.handler.effective in s.store.rows
      && t == u.(handler := Idle, reply := t.reply)
      && t.reply == Some(if wanted == s.store.rows[s.handler.effective].requested
                         then Denied(s.handler.code, s.handler.summary) else IdempotencyConflict)
  {
    assert IsPending(s.store.rows, s.handler.effective);
    DenyKeepsInvariant(enforce, s, Acked);
    RunKeepsDenial(enforce, OnDeny(s, Acked), after, s.handler.effective);
  }

  /** So is a conflict: once a row is marked, every replay that finds it conflicts. */
  lemma ConflictStability(enforce: bool, s: State, after: seq<Action>, wanted: Option<LeaseId>)
    requires Inv(enforce, s) && s.handler.MarkConflict? && CanRun(enforce, OnConflict(s, Acked), after)
    requires PruneReceipt(s.handler.effective) !in after
    requires Run(enforce, OnConflict(s, Acked), after).handler == Lookup(s.handler.effective, wanted)
    ensures
      var u := Run(enforce, OnConflict(s, Acked), after);
      OnLookup(u, true) == u.(handler := Idle, reply := Some(IdempotencyConflict))
  {
    assert IsPending(s.store.rows, s.handler.effective);
    RunKeepsSettledRow(enforce, OnConflict(s, Acked), after, s.handler.effective);
  }
}
