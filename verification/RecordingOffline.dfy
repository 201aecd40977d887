/** What an offline report gets, from its lookup to its answer: one recorded minute per
    request, and an answer with a cause. */
module RecordingOffline {
  import opened Prelude
  import opened Json
  import opened RecordingLease
  import opened RecordingLeaseRequest
  import opened RecordingLeaseAnswers

  /** Nothing was granted or recorded from s0 to s. */
  ghost predicate Calm(s0: State, s: State) {
    && s.store.active == s0.store.active && s.store.offline == s0.store.offline
    && s.store.minutes == s0.store.minutes && s.grants == s0.grants
  }

  ghost predicate Unsent(s0: State, s: State) {
    s0.ledger <= s.ledger <= s0.ledger + s0.sent && s.sent == s0.sent
  }

  /** The ledger had the event when the report came, or was charged for it before, or said
      so while it was served. */
  ghost predicate KnownEvent(s0: State, past: seq<Action>, r: RequestId) {
    Event.Offline(r) in s0.ledger + s0.sent || exists code, summary :: Ledger(Refuse(code, summary, true)) in past
  }

  ghost predicate Recorded(s0: State, s: State, r: RequestId, duplicate: bool, past: seq<Action>) {
    && s.store.active == s0.store.active && s.grants == s0.grants
    && s.store.offline == s0.store.offline + {r}
    && s.store.minutes == s0.store.minutes + (if r in s0.store.offline then 0 else 1)
    && (r in s0.store.offline ==> duplicate)
    && (duplicate ==> r in s0.store.offline || KnownEvent(s0, past, r))
  }

  ghost predicate OfflineOver(enforce: bool, s0: State, s: State, r: RequestId, past: seq<Action>) {
    match s.reply
    case None => Crash in past
    case Some(OfflineRecorded(duplicate, _)) => Recorded(s0, s, r, duplicate, past)
    case Some(Denied(code, summary)) => Calm(s0, s) && RefusedIn(enforce, past, code, summary)
    case Some(Unavailable) => Faulty(enforce, past)
    case _ => false
  }

  /** Where the report of s0 stands in s. */
  ghost predicate Reports(enforce: bool, s0: State, s: State, r: RequestId, past: seq<Action>) {
    match s.handler
    case OfflineLookup(q) => q == r && Calm(s0, s) && Unsent(s0, s)
    case OfflineSummary => r in s0.store.offline && Calm(s0, s)
    case OfflineCharge(q) => q == r && r !in s0.store.offline && Calm(s0, s) && Unsent(s0, s)
    case OfflineRecord(q, _, duplicate) =>
      q == r && r !in s0.store.offline && Calm(s0, s) && (duplicate ==> KnownEvent(s0, past, r))
    case Idle => OfflineOver(enforce, s0, s, r, past)
    case _ => false
  }

  lemma KnownEventStays(s0: State, past: seq<Action>, a: Action, r: RequestId)
    requires KnownEvent(s0, past, r)
    ensures KnownEvent(s0, past + [a], r)
  {
    if Event.Offline(r) !in s0.ledger + s0.sent {
      var code, summary :| Ledger(Refuse(code, summary, true)) in past;
      assert Ledger(Refuse(code, summary, true)) in past + [a];
    }
  }

  lemma OverStays(enforce: bool, s0: State, s: State, t: State, r: RequestId, past: seq<Action>, a: Action)
    requires OfflineOver(enforce, s0, s, r, past) && t.reply == s.reply && t.grants == s.grants
    requires t.store.active == s.store.active && t.store.offline == s.store.offline
        && t.store.minutes == s.store.minutes
    ensures OfflineOver(enforce, s0, t, r, past + [a])
  {
    CausesStay(enforce, past, a);
    match s.reply
    case Some(OfflineRecorded(duplicate, _)) =>
      if duplicate && r !in s0.store.offline {
        KnownEventStays(s0, past, a, r);
      }
    case Some(Denied(code, summary)) => RefusalStays(enforce, past, a, code, summary);
    case _ =>
  }

  lemma EnvironmentReports(enforce: bool, s0: State, s: State, r: RequestId, past: seq<Action>, a: Action)
    requires Reports(enforce, s0, s, r, past) && Enabled(s, a)
    requires a.Tick? || a.LateCharge? || a.PruneReceipt? || a.PruneDenial? || a.Crash?
    ensures Reports(enforce, s0, Step(enforce, s, a), r, past + [a])
  {
    CausesStay(enforce, past, a);
    var t := Step(enforce, s, a);
    if s.handler.Idle? && !a.Crash? {
      OverStays(enforce, s0, s, t, r, past, a);
    } else if s.handler.OfflineRecord? && s.handler.duplicate {
      KnownEventStays(s0, past, a, r);
    }
  }

  lemma HandlerReports(enforce: bool, s0: State, s: State, r: RequestId, past: seq<Action>, a: Action)
    requires Reports(enforce, s0, s, r, past) && Enabled(s, a)
    requires a.Read? || a.Summarize? || a.Ledger?
    ensures Reports(enforce, s0, Step(enforce, s, a), r, past + [a])
  {
    CausesStay(enforce, past, a);
    if a.Ledger? && a.answer.Refuse? {
      assert Ledger(Refuse(a.answer.code, a.answer.summary, a.answer.duplicate)) in past + [a];
    }
  }

  lemma RecordReports(enforce: bool, s0: State, s: State, r: RequestId, past: seq<Action>, a: Action)
    requires Reports(enforce, s0, s, r, past) && Enabled(s, a) && a.Commit?
    ensures Reports(enforce, s0, Step(enforce, s, a), r, past + [a])
  {
    CausesStay(enforce, past, a);
    if s.handler.duplicate {
      KnownEventStays(s0, past, a, r);
    }
  }

  lemma {:induction false} RunReports(enforce: bool, s0: State, s: State, r: RequestId, past: seq<Action>,
                                      run: seq<Action>)
    requires Reports(enforce, s0, s, r, past) && CanRun(enforce, s, run) && Alone(run)
    ensures Reports(enforce, s0, Run(enforce, s, run), r, past + run)
    decreases |run|
  {
    if run == [] {
      assert past + run == past;
    } else {
      var a := run[0];
      assert a in run;
      if a.Commit? {
        RecordReports(enforce, s0, s, r, past, a);
      } else if a.Read? || a.Summarize? || a.Ledger? {
        HandlerReports(enforce, s0, s, r, past, a);
      } else {
        EnvironmentReports(enforce, s0, s, r, past, a);
      }
      RunReports(enforce, s0, Step(enforce, s, a), r, past + [a], run[1..]);
      assert past + [a] + run[1..] == past + run;
    }
  }

  /** An offline report, over every run without other arrivals: recorded, it adds one minute
      and one receipt if it is new and nothing if it is not, and calls itself a duplicate
      only if the store or the ledger knew it; denied, only in enforce mode by the ledger's
      own words; unavailable, only if something went wrong. It never touches a lease. */
  lemma OfflineReportAnswered(enforce: bool, s: State, run: seq<Action>)
    requires s.handler.OfflineLookup? && CanRun(enforce, s, run) && Alone(run)
    requires Run(enforce, s, run).handler.Idle?
    ensures OfflineOver(enforce, s, Run(enforce, s, run), s.handler.request, run)
  {
    RunReports(enforce, s, s, s.handler.request, [], run);
    assert [] + run == run;
  }

  /** And if nothing goes wrong and the ledger does not refuse it, it is recorded. */
  lemma OfflineReportRecorded(enforce: bool, s: State, run: seq<Action>)
    requires s.handler.OfflineLookup? && CanRun(enforce, s, run) && Alone(run)
    requires Run(enforce, s, run).handler.Idle? && !Faulty(enforce, run) && Crash !in run
    requires enforce ==> forall a | a in run && a.Ledger? :: !a.answer.Refuse?
    ensures s.handler.request in Run(enforce, s, run).store.offline
  {
    OfflineReportAnswered(enforce, s, run);
    var t := Run(enforce, s, run);
    if t.reply.Some? && t.reply.value.Denied? {
      var duplicate :| Ledger(Refuse(t.reply.value.code, t.reply.value.summary, duplicate)) in run;
    }
  }
}
