/** Why a request got the answer it got: every answer but a grant goes back to something
    that happened while the request was served, so a request nothing went wrong for is
    granted, or told what the ledger or the active lease says. */
module RecordingLeaseAnswers {
  import opened Prelude
  import opened Json
  import opened RecordingLease
  import opened RecordingLeaseProofs
  import opened RecordingLeaseRequest
  import opened RecordingLeaseModes
  import LeaseResponse

  // ---------------------------------------------------------------- the causes

  /** A step that went wrong: a read, a write or a lookup that failed, in enforce mode a
      charge without an answer, or an answer that cannot carry the retention authority. */
  predicate Fault(enforce: bool, a: Action) {
    match a
    case Read(ok) => !ok
    case SeePending(ok, _) => !ok
    case SeeActive(ok, _) => !ok
    case Summarize(result) => result.None?
    case Commit(fate) => fate != Acked
    case Ledger(answer) =>
      if answer.Allow? || answer.Refuse? then !answer.summary.Obj? else enforce
    case Authority(ok, authority) => !ok || authority.None?
    case _ => false
  }

  ghost predicate Faulty(enforce: bool, past: seq<Action>) {
    exists a | a in past :: Fault(enforce, a)
  }

  ghost predicate RefusedIn(enforce: bool, past: seq<Action>, code: string, summary: Json) {
    enforce && exists duplicate :: Ledger(Refuse(code, summary, duplicate)) in past
  }

  ghost predicate DuplicateIn(past: seq<Action>, s: State, q: RequestId) {
    Live(q) in s.ledger || exists code, summary :: Ledger(Refuse(code, summary, true)) in past
  }

  // ------------------------------------------------------------- justification

  ghost predicate ReplyJustified(enforce: bool, s: State, past: seq<Action>) {
    match s.reply
    case None => Crash in past
    case Some(Unavailable) => Faulty(enforce, past)
    case Some(RateLimited) => Admit(false) in past
    case Some(Denied(code, summary)) => RefusedIn(enforce, past, code, summary)
    case Some(IdempotencyConflict) => exists q :: DuplicateIn(past, s, q)
    case Some(LeaseGranted(body)) =>
      s.store.active.Some? && exists j ::
        body == LeaseResponse.LeaseBody(s.store.active.value.id, s.store.active.value.expires, j)
    case Some(Inactive) => true
    case Some(TooEarly) => true
    case Some(BadRequest) => false
    case Some(OfflineRecorded(_, _)) => false
  }

  ghost predicate Justified(enforce: bool, s: State, past: seq<Action>) {
    match s.handler
    case Deny(_, code, summary) => RefusedIn(enforce, past, code, summary)
    case MarkConflict(q) => DuplicateIn(past, s, q)
    case Attach(_, _, summary) => summary.Obj? || Faulty(enforce, past)
    case Idle => ReplyJustified(enforce, s, past)
    case _ => true
  }

  lemma CausesStay(enforce: bool, past: seq<Action>, a: Action)
    ensures Faulty(enforce, past) ==> Faulty(enforce, past + [a])
    ensures Fault(enforce, a) ==> Faulty(enforce, past + [a])
    ensures forall b | b in past :: b in past + [a]
    ensures a in past + [a]
  {
    assert (past + [a])[|past|] == a;
    assert forall b | b in past :: b in past + [a];
  }

  lemma RefusalStays(enforce: bool, past: seq<Action>, a: Action, code: string, summary: Json)
    requires RefusedIn(enforce, past, code, summary)
    ensures RefusedIn(enforce, past + [a], code, summary)
  {
    var duplicate :| Ledger(Refuse(code, summary, duplicate)) in past;
    assert Ledger(Refuse(code, summary, duplicate)) in past + [a];
  }

  lemma DuplicateStays(past: seq<Action>, a: Action, s: State, t: State, q: RequestId)
    requires DuplicateIn(past, s, q) && s.ledger <= t.ledger
    ensures DuplicateIn(past + [a], t, q)
  {
    if Live(q) !in s.ledger {
      var code, summary :| Ledger(Refuse(code, summary, true)) in past;
      assert Ledger(Refuse(code, summary, true)) in past + [a];
    }
  }

  lemma ReplyStaysJustified(enforce: bool, s: State, t: State, past: seq<Action>, a: Action)
    requires ReplyJustified(enforce, s, past) && s.ledger <= t.ledger
    requires t.reply == s.reply && t.store.active == s.store.active
    ensures ReplyJustified(enforce, t, past + [a])
  {
    CausesStay(enforce, past, a);
    if s.reply.Some? && s.reply.value.Denied? {
      RefusalStays(enforce, past, a, s.reply.value.code, s.reply.value.summary);
    } else if s.reply == Some(IdempotencyConflict) {
      var q :| DuplicateIn(past, s, q);
      DuplicateStays(past, a, s, t, q);
    }
  }

  lemma EnvironmentJustified(enforce: bool, s: State, past: seq<Action>, a: Action)
    requires Justified(enforce, s, past) && Enabled(s, a)
    requires a.Tick? || a.LateCharge? || a.PruneReceipt? || a.PruneDenial? || a.Crash?
    ensures Justified(enforce, Step(enforce, s, a), past + [a])
  {
    var t := Step(enforce, s, a);
    CausesStay(enforce, past, a);
    if a.Crash? {
      assert t.handler.Idle? && t.reply.None?;
    } else {
      assert t.handler == s.handler && t.reply == s.reply && t.store.active == s.store.active && s.ledger <= t.ledger;
      match s.handler {
        case Deny(_, code, summary) => RefusalStays(enforce, past, a, code, summary);
        case MarkConflict(q) => DuplicateStays(past, a, s, t, q);
        case Idle => ReplyStaysJustified(enforce, s, t, past, a);
        case _ =>
      }
    }
  }

  lemma LookingJustified(enforce: bool, s0: State, s: State, r: RequestId, wanted: Option<LeaseId>,
                         past: seq<Action>, a: Action)
    requires Fresh(s0, r) && Serves(s0, s, r, wanted) && Enabled(s, a)
    requires a.Read? || a.Admit? || a.SeePending? || a.SeeActive? || a.Summarize?
    ensures Justified(enforce, Step(enforce, s, a), past + [a])
  {
    CausesStay(enforce, past, a);
  }

  lemma PayingJustified(enforce: bool, s: State, past: seq<Action>, a: Action)
    requires Inv(enforce, s) && Justified(enforce, s, past) && Enabled(s, a) && s.handler.OfflineCharge? == false
    requires a.Ledger? || a.Authority?
    ensures Justified(enforce, Step(enforce, s, a), past + [a])
  {
    CausesStay(enforce, past, a);
    if a.Authority? {
      assert IsPending(s.store.rows, s.handler.effective);
    }
  }

  lemma CommitJustified(enforce: bool, s: State, past: seq<Action>, a: Action)
    requires Inv(enforce, s) && Justified(enforce, s, past) && Enabled(s, a)
    requires a.Commit? && !s.handler.OfflineRecord? && !s.handler.Complete?
    ensures Justified(enforce, Step(enforce, s, a), past + [a])
  {
    CausesStay(enforce, past, a);
    if s.handler.Deny? {
      RefusalStays(enforce, past, a, s.handler.code, s.handler.summary);
    } else if s.handler.MarkConflict? {
      DuplicateStays(past, a, s, Step(enforce, s, a), s.handler.effective);
    }
  }

  lemma CompletionJustified(enforce: bool, s: State, past: seq<Action>, a: Action)
    requires Inv(enforce, s) && Continuing(s) && s.handler.Complete? && a.Commit?
    ensures Justified(enforce, Step(enforce, s, a), past + [a])
  {
    CausesStay(enforce, past, a);
    NeverSuperseded(enforce, s);
  }

  ghost predicate Known(enforce: bool, s0: State, s: State, r: RequestId, wanted: Option<LeaseId>, past: seq<Action>) {
    Inv(enforce, s) && Continuing(s) && Serves(s0, s, r, wanted) && Justified(enforce, s, past)
  }

  lemma StepJustified(enforce: bool, s0: State, s: State, r: RequestId, wanted: Option<LeaseId>,
                      past: seq<Action>, a: Action)
    requires Fresh(s0, r) && Known(enforce, s0, s, r, wanted, past)
    requires Enabled(s, a) && !a.Receive? && !a.ReceiveOffline?
    ensures Justified(enforce, Step(enforce, s, a), past + [a])
  {
    if a.Commit? && s.handler.Complete? {
      CompletionJustified(enforce, s, past, a);
    } else if a.Commit? {
      CommitJustified(enforce, s, past, a);
    } else if a.Ledger? || a.Authority? {
      PayingJustified(enforce, s, past, a);
    } else if a.Read? || a.Admit? || a.SeePending? || a.SeeActive? || a.Summarize? {
      LookingJustified(enforce, s0, s, r, wanted, past, a);
    } else {
      EnvironmentJustified(enforce, s, past, a);
    }
  }

  lemma {:induction false} RunJustified(enforce: bool, s0: State, s: State, r: RequestId, wanted: Option<LeaseId>,
                                        past: seq<Action>, run: seq<Action>)
    requires Fresh(s0, r) && Known(enforce, s0, s, r, wanted, past) && CanRun(enforce, s, run) && Alone(run)
    ensures Justified(enforce, Run(enforce, s, run), past + run)
    decreases |run|
  {
    if run == [] {
      assert past + run == past;
    } else {
      var a := run[0];
      assert a in run;
      StepJustified(enforce, s0, s, r, wanted, past, a);
      StepKeepsInvariant(enforce, s, a);
      StepKeepsContinuing(enforce, s, a);
      StepServes(enforce, s0, s, r, wanted, a);
      RunJustified(enforce, s0, Step(enforce, s, a), r, wanted, past + [a], run[1..]);
      assert past + [a] + run[1..] == past + run;
    }
  }

  /** Every answer has its cause. Take any reachable state in which a request the store does
      not know is being looked up, and any run without other arrivals after which it has
      been answered. No answer means a crash; unavailable means that something went wrong;
      rate-limited that the limiter said so; denied, that this is enforce mode and the
      ledger refused with just those words; a conflict, that the ledger had the event. A
      grant shows the lease that is active. */
  lemma EveryAnswerHasItsCause(enforce: bool, start: int, before: seq<Action>, run: seq<Action>)
    requires 0 <= start && CanRun(enforce, Initial(start), before)
    requires Run(enforce, Initial(start), before).handler.Lookup?
    requires Fresh(Run(enforce, Initial(start), before), Run(enforce, Initial(start), before).handler.request)
    requires CanRun(enforce, Run(enforce, Initial(start), before), run) && Alone(run)
    requires Run(enforce, Run(enforce, Initial(start), before), run).handler.Idle?
    ensures ReplyJustified(enforce, Run(enforce, Run(enforce, Initial(start), before), run), run)
  {
    RunKeepsInvariant(enforce, Initial(start), before);
    RunKeepsContinuing(enforce, Initial(start), before);
    var s := Run(enforce, Initial(start), before);
    RunJustified(enforce, s, s, s.handler.request, s.handler.wanted, [], run);
    assert [] + run == run;
  }

  /** So a request for which nothing goes wrong is granted, or refused for what the ledger
      or the active lease says. */
  lemma NothingWrongIsAnswered(enforce: bool, start: int, before: seq<Action>, run: seq<Action>)
    requires 0 <= start && CanRun(enforce, Initial(start), before)
    requires Run(enforce, Initial(start), before).handler.Lookup?
    requires Fresh(Run(enforce, Initial(start), before), Run(enforce, Initial(start), before).handler.request)
    requires CanRun(enforce, Run(enforce, Initial(start), before), run) && Alone(run)
    requires Run(enforce, Run(enforce, Initial(start), before), run).handler.Idle?
    requires !Faulty(enforce, run) && Crash !in run && Admit(false) !in run
    ensures
      var reply := Run(enforce, Run(enforce, Initial(start), before), run).reply;
      && reply.Some?
      && (|| reply.value.LeaseGranted? || reply.value.Inactive? || reply.value.TooEarly?
          || reply.value.IdempotencyConflict? || (enforce && reply.value.Denied?))
  {
    EveryAnswerHasItsCause(enforce, start, before, run);
  }
}
