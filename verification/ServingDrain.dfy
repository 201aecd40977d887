/** The drain protocol: any number of request threads, one drainer and any
    number of shutdown waiters over two flags, a counter and a notifier. Every
    load, store, fetch_add, fetch_sub and notify is one step, and steps are taken
    one at a time (sequential consistency).

    The notifier is an epoch. Creating a `notified` future remembers the epoch;
    awaiting it returns once the epoch has moved, which is how a future created
    before a `notify_waiters` call receives that call. */
module ServingDrain {
  import opened Prelude

  datatype Shared = Shared(draining: bool, active: int, complete: bool, epoch: nat)

  /** A request thread, named by what it does next. */
  datatype Thread =
    | Arrived     // loads draining
    | Admitting   // increments the counter
    | Rechecking  // counted; loads draining again
    | Serving     // holds its guard; dropping it decrements
    | BackingOut  // counted but refused; decrements
    | Owing       // its decrement reached zero; notifies
    | Refused
    | Finished

  /** The drainer, from the termination signal to the end of finish_shutdown. */
  datatype Drainer =
    | Waiting                // for the signal; then stores draining
    | Announcing             // notifies
    | Listening              // creates the notified future
    | Checking(seen: nat)    // loads the counter
    | Parked(seen: nat)      // awaits the future
    | Releasing(quiet: bool) // stores shutdown_complete
    | Closing(quiet: bool)   // notifies
    | Done(quiet: bool)

  datatype Waiter =
    | Registering
    | Testing(seen: nat)
    | Asleep(seen: nat)
    | Returned

  datatype State = State(shared: Shared, threads: seq<Thread>, drainer: Drainer, waiters: seq<Waiter>)

  datatype Action =
    | Spawn
    | SpawnWaiter
    | ThreadStep(i: nat)
    | DrainerStep
    | WaiterStep(j: nat)
    | Timeout

  function Notify(sh: Shared): Shared {
    sh.(epoch := sh.epoch + 1)
  }

  predicate ThreadEnabled(t: Thread) {
    !t.Refused? && !t.Finished?
  }

  function ThreadNext(sh: Shared, t: Thread): (Shared, Thread)
    requires ThreadEnabled(t)
  {
    match t
    case Arrived => (sh, if sh.draining then Refused else Admitting)
    case Admitting => (sh.(active := sh.active + 1), Rechecking)
    case Rechecking => (sh, if sh.draining then BackingOut else Serving)
    case Serving => (sh.(active := sh.active - 1), if sh.active == 1 then Owing else Finished)
    case BackingOut => (sh.(active := sh.active - 1), if sh.active == 1 then Owing else Refused)
    case Owing => (Notify(sh), Finished)
  }

  predicate DrainerEnabled(sh: Shared, d: Drainer) {
    !d.Done? && (d.Parked? ==> d.seen != sh.epoch)
  }

  function DrainerNext(sh: Shared, d: Drainer): (Shared, Drainer)
    requires DrainerEnabled(sh, d)
  {
    match d
    case Waiting => (sh.(draining := true), Announcing)
    case Announcing => (Notify(sh), Listening)
    case Listening => (sh, Checking(sh.epoch))
    case Checking(seen) => (sh, if sh.active == 0 then Releasing(true) else Parked(seen))
    case Parked(_) => (sh, Listening)
    case Releasing(quiet) => (sh.(complete := true), Closing(quiet))
    case Closing(quiet) => (Notify(sh), Done(quiet))
  }

  predicate WaiterEnabled(sh: Shared, w: Waiter) {
    !w.Returned? && (w.Asleep? ==> w.seen != sh.epoch)
  }

  function WaiterNext(sh: Shared, w: Waiter): Waiter
    requires WaiterEnabled(sh, w)
  {
    match w
    case Registering => Testing(sh.epoch)
    case Testing(seen) => if sh.complete then Returned else Asleep(seen)
    case Asleep(_) => Registering
  }

  predicate Enabled(s: State, a: Action) {
    match a
    case Spawn => true
    case SpawnWaiter => true
    case ThreadStep(i) => i < |s.threads| && ThreadEnabled(s.threads[i])
    case DrainerStep => DrainerEnabled(s.shared, s.drainer)
    case WaiterStep(j) => j < |s.waiters| && WaiterEnabled(s.shared, s.waiters[j])
    case Timeout => s.drainer.Parked?
  }

  function Step(s: State, a: Action): State
    requires Enabled(s, a)
  {
    match a
    case Spawn => s.(threads := s.threads + [Arrived])
    case SpawnWaiter => s.(waiters := s.waiters + [Registering])
    case ThreadStep(i) =>
      var (shared, t) := ThreadNext(s.shared, s.threads[i]);
      s.(shared := shared, threads := s.threads[i := t])
    case DrainerStep =>
      var (shared, d) := DrainerNext(s.shared, s.drainer);
      s.(shared := shared, drainer := d)
    case WaiterStep(j) => s.(waiters := s.waiters[j := WaiterNext(s.shared, s.waiters[j])])
    case Timeout => s.(drainer := Releasing(false))
  }

  const INITIAL := State(Shared(false, 0, false, 0), [], Waiting, [])

  predicate CanRun(s: State, run: seq<Action>)
    decreases |run|
  {
    run == [] || (Enabled(s, run[0]) && CanRun(Step(s, run[0]), run[1..]))
  }

  function Run(s: State, run: seq<Action>): State
    requires CanRun(s, run)
    decreases |run|
  {
    if run == [] then s else Run(Step(s, run[0]), run[1..])
  }

  // ------------------------------------------------------------ the counter

  predicate Counted(t: Thread) {
    t.Rechecking? || t.Serving? || t.BackingOut?
  }

  /** Threads between their increment and their decrement. */
  function CountedThreads(threads: seq<Thread>): nat {
    if threads == [] then 0
    else CountedThreads(threads[..|threads| - 1]) + if Counted(threads[|threads| - 1]) then 1 else 0
  }

  lemma {:induction false} CountedUpdate(threads: seq<Thread>, i: nat, t: Thread)
    requires i < |threads|
    ensures CountedThreads(threads[i := t]) + (if Counted(threads[i]) then 1 else 0)
            == CountedThreads(threads) + (if Counted(t) then 1 else 0)
  {
    var last := |threads| - 1;
    if i == last {
      assert threads[i := t][..last] == threads[..last];
    } else {
      CountedUpdate(threads[..last], i, t);
      assert threads[i := t][..last] == threads[..last][i := t];
    }
  }

  lemma {:induction false} CountedPositive(threads: seq<Thread>, i: nat)
    requires i < |threads| && Counted(threads[i])
    ensures CountedThreads(threads) >= 1
  {
    if i < |threads| - 1 {
      CountedPositive(threads[..|threads| - 1], i);
    }
  }

  lemma {:induction false} SomeCounted(threads: seq<Thread>)
    requires CountedThreads(threads) >= 1
    ensures exists i | 0 <= i < |threads| :: Counted(threads[i])
  {
    var last := |threads| - 1;
    if !Counted(threads[last]) {
      SomeCounted(threads[..last]);
      var i :| 0 <= i < last && Counted(threads[..last][i]);
      assert Counted(threads[i]);
    }
  }

  // --------------------------------------------------------------- invariant

  ghost predicate SomeoneOwes(threads: seq<Thread>) {
    exists i | 0 <= i < |threads| :: threads[i].Owing?
  }

  predicate Quieted(d: Drainer) {
    (d.Releasing? || d.Closing? || d.Done?) && d.quiet
  }

  predicate TimedOut(d: Drainer) {
    (d.Releasing? || d.Closing? || d.Done?) && !d.quiet
  }

  ghost predicate NoGuardLive(s: State) {
    forall i | 0 <= i < |s.threads| :: !s.threads[i].Serving?
  }

  /** A parked party whose condition holds has been notified since it last
      looked, or a notification for it is owed. */
  ghost predicate NoLostWakeup(s: State) {
    && (s.drainer.Parked? && s.shared.active == 0 ==>
          s.drainer.seen != s.shared.epoch || SomeoneOwes(s.threads))
    && (forall j | 0 <= j < |s.waiters| :: s.waiters[j].Asleep? && s.shared.complete ==>
          s.waiters[j].seen != s.shared.epoch || s.drainer.Closing?)
  }

  ghost predicate Inv(s: State) {
    && s.shared.active == CountedThreads(s.threads)
    && (s.shared.draining <==> !s.drainer.Waiting?)
    && (s.shared.complete <==> s.drainer.Closing? || s.drainer.Done?)
    && (s.drainer.Checking? || s.drainer.Parked? ==> s.drainer.seen <= s.shared.epoch)
    && (forall j | 0 <= j < |s.waiters| ::
          s.waiters[j].Testing? || s.waiters[j].Asleep? ==> s.waiters[j].seen <= s.shared.epoch)
    && (Quieted(s.drainer) ==> NoGuardLive(s))
    && NoLostWakeup(s)
  }

  lemma SpawnKeepsInv(s: State)
    requires Inv(s)
    ensures Inv(Step(s, Spawn))
  {
    var t := Step(s, Spawn);
    assert t.threads[..|s.threads|] == s.threads;
    if i :| 0 <= i < |s.threads| && s.threads[i].Owing? {
      assert t.threads[i].Owing?;
    }
  }

  lemma ThreadStepKeepsInv(s: State, i: nat)
    requires Inv(s) && Enabled(s, ThreadStep(i))
    ensures Inv(Step(s, ThreadStep(i)))
  {
    var u := Step(s, ThreadStep(i));
    CountedUpdate(s.threads, i, u.threads[i]);
    if u.threads[i].Owing? {
      assert SomeoneOwes(u.threads);
    } else if SomeoneOwes(s.threads) && !s.threads[i].Owing? {
      var k :| 0 <= k < |s.threads| && s.threads[k].Owing?;
      assert u.threads[k].Owing?;
    }
  }

  lemma DrainerStepKeepsInv(s: State)
    requires Inv(s) && Enabled(s, DrainerStep)
    ensures Inv(Step(s, DrainerStep))
  {
    if s.drainer.Checking? && s.shared.active == 0 {
      forall i | 0 <= i < |s.threads| ensures !s.threads[i].Serving? {
        if s.threads[i].Serving? {
          CountedPositive(s.threads, i);
        }
      }
    }
  }

  lemma StepKeepsInv(s: State, a: Action)
    requires Inv(s) && Enabled(s, a)
    ensures Inv(Step(s, a))
  {
    match a
    case Spawn => SpawnKeepsInv(s);
    case ThreadStep(i) => ThreadStepKeepsInv(s, i);
    case DrainerStep => DrainerStepKeepsInv(s);
    case _ =>
  }

  lemma {:induction false} RunKeepsInv(s: State, run: seq<Action>)
    requires Inv(s) && CanRun(s, run)
    ensures Inv(Run(s, run))
    decreases |run|
  {
    if run != [] {
      StepKeepsInv(s, run[0]);
      RunKeepsInv(Step(s, run[0]), run[1..]);
    }
  }

  lemma {:induction false} QuietIsForever(s: State, run: seq<Action>)
    requires CanRun(s, run) && Quieted(s.drainer)
    ensures Quieted(Run(s, run).drainer)
    decreases |run|
  {
    if run != [] {
      QuietIsForever(Step(s, run[0]), run[1..]);
    }
  }

  /** Once wait_for_quiet has returned true no request guard is live, and none
      ever will be, however many threads arrive or were already half admitted. */
  lemma DrainSafety(before: seq<Action>, after: seq<Action>)
    requires CanRun(INITIAL, before) && Quieted(Run(INITIAL, before).drainer)
    requires CanRun(Run(INITIAL, before), after)
    ensures NoGuardLive(Run(INITIAL, before)) && NoGuardLive(Run(Run(INITIAL, before), after))
  {
    RunKeepsInv(INITIAL, before);
    RunKeepsInv(Run(INITIAL, before), after);
    QuietIsForever(Run(INITIAL, before), after);
  }

  /** In every reachable state the counter is the number of threads between
      increment and decrement, so no decrement underflows. */
  lemma CounterExact(run: seq<Action>, i: nat)
    requires CanRun(INITIAL, run) && i < |Run(INITIAL, run).threads|
    ensures
      var s := Run(INITIAL, run);
      && s.shared.active == CountedThreads(s.threads)
      && (Counted(s.threads[i]) ==> s.shared.active >= 1)
  {
    RunKeepsInv(INITIAL, run);
    if Counted(Run(INITIAL, run).threads[i]) {
      CountedPositive(Run(INITIAL, run).threads, i);
    }
  }

  lemma WakeupsDelivered(run: seq<Action>)
    requires CanRun(INITIAL, run)
    ensures NoLostWakeup(Run(INITIAL, run))
  {
    RunKeepsInv(INITIAL, run);
  }

  // --------------------------------------------------------------- admission

  /** Nobody is refused, and no shutdown waiter let go, before the time. */
  ghost predicate Deserved(s: State) {
    && (forall i | 0 <= i < |s.threads| :: s.threads[i].BackingOut? || s.threads[i].Refused? ==> s.shared.draining)
    && (forall j | 0 <= j < |s.waiters| :: s.waiters[j].Returned? ==> s.shared.complete)
    && (TimedOut(s.drainer) || Quieted(s.drainer) ==> s.shared.draining)
  }

  lemma {:induction false} RunKeepsDeserved(s: State, run: seq<Action>)
    requires Inv(s) && Deserved(s) && CanRun(s, run)
    ensures Deserved(Run(s, run))
    decreases |run|
  {
    if run != [] {
      StepKeepsInv(s, run[0]);
      RunKeepsDeserved(Step(s, run[0]), run[1..]);
    }
  }

  /** In every reachable state: a thread is refused, or about to be, only once the server
      is draining, and a waiter has returned only once the shutdown is complete. */
  lemma RefusalsAndReleasesDeserved(run: seq<Action>)
    requires CanRun(INITIAL, run)
    ensures Deserved(Run(INITIAL, run))
  {
    RunKeepsDeserved(INITIAL, run);
  }

  /** Steps a thread has left until it holds its guard. */
  function UntilServing(t: Thread): Option<nat> {
    match t
    case Arrived => Some(3)
    case Admitting => Some(2)
    case Rechecking => Some(1)
    case Serving => Some(0)
    case _ => None
  }

  /** How often thread i steps in a run. */
  function StepsOf(run: seq<Action>, i: nat): nat {
    if run == [] then 0 else (if run[0] == ThreadStep(i) then 1 else 0) + StepsOf(run[1..], i)
  }

  /** The signal cannot be taken back. */
  lemma {:induction false} WaitingFromTheStart(s: State, run: seq<Action>)
    requires CanRun(s, run) && Run(s, run).drainer.Waiting?
    ensures s.drainer.Waiting?
    decreases |run|
  {
    if run != [] {
      WaitingFromTheStart(Step(s, run[0]), run[1..]);
    }
  }

  /** While no signal has come, every request is admitted: whatever other threads and
      waiters do in between, a thread on its way in takes exactly its own steps to its
      guard, three of them from its arrival, and keeps it until it drops it. */
  lemma {:induction false} RequestsAreAdmitted(s: State, run: seq<Action>, i: nat)
    requires Inv(s) && CanRun(s, run) && Run(s, run).drainer.Waiting? && i < |s.threads|
    requires UntilServing(s.threads[i]).Some? && StepsOf(run, i) <= UntilServing(s.threads[i]).value
    ensures i < |Run(s, run).threads|
    ensures UntilServing(Run(s, run).threads[i]) == Some(UntilServing(s.threads[i]).value - StepsOf(run, i))
    decreases |run|
  {
    if run != [] {
      var t := Step(s, run[0]);
      WaitingFromTheStart(t, run[1..]);
      WaitingFromTheStart(s, run);
      StepKeepsInv(s, run[0]);
      RequestsAreAdmitted(t, run[1..], i);
    }
  }

  /** Once the signal has come, an arrival is turned away at the door: it never enters the
      count the drainer is waiting on. */
  lemma {:induction false} LateArrivalsNeverCount(s: State, run: seq<Action>, i: nat)
    requires CanRun(s, run) && s.shared.draining && i < |s.threads|
    requires s.threads[i].Arrived? || s.threads[i].Refused?
    ensures i < |Run(s, run).threads|
    ensures Run(s, run).threads[i] == if StepsOf(run, i) == 0 then s.threads[i] else Refused
    decreases |run|
  {
    if run != [] {
      LateArrivalsNeverCount(Step(s, run[0]), run[1..], i);
    }
  }

  lemma ArrivalIsServed(before: seq<Action>, run: seq<Action>, i: nat)
    requires CanRun(INITIAL, before) && i < |Run(INITIAL, before).threads| && Run(INITIAL, before).threads[i].Arrived?
    requires CanRun(Run(INITIAL, before), run) && Run(Run(INITIAL, before), run).drainer.Waiting?
    requires StepsOf(run, i) == 3
    ensures
      var t := Run(Run(INITIAL, before), run);
      i < |t.threads| && t.threads[i].Serving?
  {
    RunKeepsInv(INITIAL, before);
    RequestsAreAdmitted(Run(INITIAL, before), run, i);
  }

  // ---------------------------------------------------------------- progress

  function ThreadWork(t: Thread): nat {
    match t
    case Arrived => 5
    case Admitting => 4
    case Rechecking => 3
    case Serving => 2
    case BackingOut => 2
    case Owing => 1
    case _ => 0
  }

  function DrainerWork(epoch: nat, d: Drainer): nat {
    match d
    case Waiting => 9
    case Announcing => 8
    case Checking(seen) => if seen == epoch then 4 else 7
    case Parked(seen) => if seen == epoch then 3 else 6
    case Listening => 5
    case Releasing(_) => 2
    case Closing(_) => 1
    case Done(_) => 0
  }

  function WaiterWork(epoch: nat, w: Waiter): nat {
    match w
    case Testing(seen) => if seen == epoch then 2 else 5
    case Asleep(seen) => if seen == epoch then 1 else 4
    case Registering => 3
    case Returned => 0
  }

  function ThreadsWork(threads: seq<Thread>): nat {
    if threads == [] then 0 else ThreadsWork(threads[..|threads| - 1]) + ThreadWork(threads[|threads| - 1])
  }

  function WaitersWork(epoch: nat, waiters: seq<Waiter>): nat {
    if waiters == [] then 0
    else WaitersWork(epoch, waiters[..|waiters| - 1]) + WaiterWork(epoch, waiters[|waiters| - 1])
  }

  lemma {:induction false} ThreadsWorkUpdate(threads: seq<Thread>, i: nat, t: Thread)
    requires i < |threads|
    ensures ThreadsWork(threads[i := t]) + ThreadWork(threads[i]) == ThreadsWork(threads) + ThreadWork(t)
  {
    var last := |threads| - 1;
    if i == last {
      assert threads[i := t][..last] == threads[..last];
    } else {
      ThreadsWorkUpdate(threads[..last], i, t);
      assert threads[i := t][..last] == threads[..last][i := t];
    }
  }

  lemma {:induction false} WaitersWorkUpdate(epoch: nat, waiters: seq<Waiter>, j: nat, w: Waiter)
    requires j < |waiters|
    ensures WaitersWork(epoch, waiters[j := w]) + WaiterWork(epoch, waiters[j])
        == WaitersWork(epoch, waiters) + WaiterWork(epoch, w)
  {
    var last := |waiters| - 1;
    if j == last {
      assert waiters[j := w][..last] == waiters[..last];
    } else {
      WaitersWorkUpdate(epoch, waiters[..last], j, w);
      assert waiters[j := w][..last] == waiters[..last][j := w];
    }
  }

  /** Steps of the parties already there, timeouts and new arrivals aside. */
  predicate Own(a: Action) {
    a.ThreadStep? || a.DrainerStep? || a.WaiterStep?
  }

  ghost predicate LessWork(t: State, s: State) {
    || ThreadsWork(t.threads) < ThreadsWork(s.threads)
    || (ThreadsWork(t.threads) == ThreadsWork(s.threads)
        && (|| DrainerWork(t.shared.epoch, t.drainer) < DrainerWork(s.shared.epoch, s.drainer)
            || (DrainerWork(t.shared.epoch, t.drainer) == DrainerWork(s.shared.epoch, s.drainer)
                && WaitersWork(t.shared.epoch, t.waiters) < WaitersWork(s.shared.epoch, s.waiters))))
  }

  /** Every scheduling order makes progress: each own step lowers the remaining
      work in a well-founded order, so nobody spins. */
  lemma OwnStepDoesWork(s: State, a: Action)
    requires Inv(s) && Enabled(s, a) && Own(a)
    ensures LessWork(Step(s, a), s)
  {
    var t := Step(s, a);
    match a
    case ThreadStep(i) => ThreadsWorkUpdate(s.threads, i, t.threads[i]);
    case DrainerStep =>
    case WaiterStep(j) => WaitersWorkUpdate(s.shared.epoch, s.waiters, j, t.waiters[j]);
  }

  /** No deadlock: when nobody can step, the drain has run to its end and every
      shutdown waiter has returned. */
  lemma StuckMeansDone(s: State)
    requires Inv(s) && forall a :: Own(a) ==> !Enabled(s, a)
    ensures s.drainer.Done? && s.shared.active == 0
    ensures forall j | 0 <= j < |s.waiters| :: s.waiters[j].Returned?
  {
    if s.shared.active > 0 {
      SomeCounted(s.threads);
      var i :| 0 <= i < |s.threads| && Counted(s.threads[i]);
      assert Enabled(s, ThreadStep(i));
    }
    if SomeoneOwes(s.threads) {
      var i :| 0 <= i < |s.threads| && s.threads[i].Owing?;
      assert Enabled(s, ThreadStep(i));
    }
    assert !Enabled(s, DrainerStep);
    forall j | 0 <= j < |s.waiters| ensures s.waiters[j].Returned? {
      assert !Enabled(s, WaiterStep(j));
    }
  }

  // Runs of own steps: none is longer than the work there is, and whichever order they
  // take, they end in the same place.

  /** An upper bound on what is left: a thread's step may give the drainer and the waiters
      their work back, a drainer's step the waiters theirs. */
  function Work(s: State): nat {
    var each := 5 * |s.waiters| + 1;
    Times(10 * ThreadsWork(s.threads) + DrainerWork(s.shared.epoch, s.drainer), each)
      + WaitersWork(s.shared.epoch, s.waiters)
  }

  function Times(n: nat, each: nat): nat {
    if n == 0 then 0 else Times(n - 1, each) + each
  }

  lemma {:induction false} WaitersWorkBounded(epoch: nat, waiters: seq<Waiter>)
    ensures WaitersWork(epoch, waiters) <= 5 * |waiters|
  {
    if waiters != [] {
      WaitersWorkBounded(epoch, waiters[..|waiters| - 1]);
    }
  }

  /** A drop in the first component outweighs any rise of the second. */
  lemma {:induction false} Outweighs(high: nat, low: nat, high': nat, low': nat, each: nat)
    requires high' < high && low' < each
    ensures Times(high', each) + low' < Times(high, each) + low
  {
    if high' < high - 1 {
      Outweighs(high - 1, low, high', low', each);
    }
  }

  lemma OwnStepLowersWork(s: State, a: Action)
    requires Inv(s) && Enabled(s, a) && Own(a)
    ensures Work(Step(s, a)) < Work(s)
  {
    var t := Step(s, a);
    OwnStepDoesWork(s, a);
    WaitersWorkBounded(t.shared.epoch, t.waiters);
    var each := 5 * |s.waiters| + 1;
    var before := 10 * ThreadsWork(s.threads) + DrainerWork(s.shared.epoch, s.drainer);
    var after := 10 * ThreadsWork(t.threads) + DrainerWork(t.shared.epoch, t.drainer);
    if after < before {
      Outweighs(before, WaitersWork(s.shared.epoch, s.waiters), after, WaitersWork(t.shared.epoch, t.waiters), each);
    }
  }

  ghost predicate OwnRun(s: State, run: seq<Action>) {
    CanRun(s, run) && forall a | a in run :: Own(a)
  }

  lemma {:induction false} OwnRunsAreShort(s: State, run: seq<Action>)
    requires Inv(s) && OwnRun(s, run)
    ensures |run| + Work(Run(s, run)) <= Work(s) && Inv(Run(s, run))
    ensures TimedOut(Run(s, run).drainer) ==> TimedOut(s.drainer)
    decreases |run|
  {
    if run != [] {
      assert run[0] in run;
      StepKeepsInv(s, run[0]);
      OwnStepLowersWork(s, run[0]);
      OwnRunsAreShort(Step(s, run[0]), run[1..]);
    }
  }

  ghost predicate Drained(t: State) {
    && t.drainer.Done? && NoGuardLive(t) && t.shared.active == 0
    && forall j | 0 <= j < |t.waiters| :: t.waiters[j].Returned?
  }

  /** From every reachable state, under every order of own steps: their number is bounded
      by the work there is, and when none can be taken any more the drain is done, quietly
      unless its deadline had already passed, and every shutdown waiter has returned. */
  lemma EveryOrderCompletes(s: State, run: seq<Action>)
    requires Inv(s) && OwnRun(s, run)
    ensures |run| <= Work(s)
    ensures (forall a :: Own(a) ==> !Enabled(Run(s, run), a)) ==>
              Drained(Run(s, run)) && (Run(s, run).drainer.quiet || TimedOut(s.drainer))
  {
    OwnRunsAreShort(s, run);
    var t := Run(s, run);
    if forall a :: Own(a) ==> !Enabled(t, a) {
      StuckMeansDone(t);
      forall i | 0 <= i < |t.threads| ensures !t.threads[i].Serving? {
        assert !Enabled(t, ThreadStep(i));
      }
    }
  }

  lemma {:induction false} RunThenStep(s: State, run: seq<Action>, a: Action)
    requires CanRun(s, run) && Enabled(Run(s, run), a)
    ensures CanRun(s, run + [a]) && Run(s, run + [a]) == Step(Run(s, run), a)
    decreases |run|
  {
    if run == [] {
      assert run + [a] == [a];
      assert CanRun(Step(s, a), [a][1..]);
    } else {
      RunThenStep(Step(s, run[0]), run[1..], a);
      assert (run + [a])[1..] == run[1..] + [a];
    }
  }

  /** However far own steps have gone, they can go on to the end of the drain. */
  lemma {:induction false} DrainCompletes(s: State, soFar: seq<Action>) returns (run: seq<Action>)
    requires Inv(s) && OwnRun(s, soFar)
    ensures OwnRun(s, run) && soFar <= run && Drained(Run(s, run))
    ensures Run(s, run).drainer.quiet || TimedOut(s.drainer)
    decreases Work(s) - |soFar|
  {
    EveryOrderCompletes(s, soFar);
    run := soFar;
    if a :| Own(a) && Enabled(Run(s, soFar), a) {
      RunThenStep(s, soFar, a);
      EveryOrderCompletes(s, soFar + [a]);
      run := DrainCompletes(s, soFar + [a]);
    }
  }

  // --------------------------------------------------------- the shared state

  /** The atomics and the notifier, one atomic operation per method call, each the
      transition the machine above takes. */
  class ServingLifecycle {
    var draining: bool
    var activeRequests: int
    var shutdownComplete: bool
    var epoch: nat

    function View(): Shared reads this {
      Shared(draining, activeRequests, shutdownComplete, epoch)
    }

    constructor ()
      ensures View() == INITIAL.shared
    {
      draining, activeRequests, shutdownComplete, epoch := false, 0, false, 0;
    }

    method NotifyWaiters()
      modifies `epoch
      ensures View() == Notify(old(View()))
    {
      epoch := epoch + 1;
    }

    method FetchSub() returns (last: bool)
      modifies `activeRequests
      ensures View() == old(View()).(active := old(activeRequests) - 1)
      ensures last <==> activeRequests == 0
    {
      activeRequests := activeRequests - 1;
      last := activeRequests == 0;
    }

    method AdvanceThread(t: Thread) returns (u: Thread)
      requires ThreadEnabled(t)
      modifies this
      ensures (View(), u) == ThreadNext(old(View()), t)
    {
      match t {
        case Arrived => u := if draining then Refused else Admitting;
        case Admitting =>
          activeRequests := activeRequests + 1;
          u := Rechecking;
        case Rechecking => u := if draining then BackingOut else Serving;
        case Serving =>
          var last := FetchSub();
          u := if last then Owing else Finished;
        case BackingOut =>
          var last := FetchSub();
          u := if last then Owing else Refused;
        case Owing =>
          NotifyWaiters();
          u := Finished;
      }
    }

    method AdvanceDrainer(d: Drainer) returns (e: Drainer)
      requires DrainerEnabled(View(), d)
      modifies this
      ensures (View(), e) == DrainerNext(old(View()), d)
    {
      match d {
        case Waiting =>
          draining := true;
          e := Announcing;
        case Announcing =>
          NotifyWaiters();
          e := Listening;
        case Listening => e := Checking(epoch);
        case Checking(seen) => e := if activeRequests == 0 then Releasing(true) else Parked(seen);
        case Parked(_) => e := Listening;
        case Releasing(quiet) =>
          shutdownComplete := true;
          e := Closing(quiet);
        case Closing(quiet) =>
          NotifyWaiters();
          e := Done(quiet);
      }
    }
  }

  /** Runs any schedule over the shared object, skipping entries whose party cannot
      step. What it reaches, a run of the machine reaches, so whatever the schedule, the
      counter ends exact and non-negative, a quiet drain leaves no live guard, and no
      wake-up is lost. */
  method Serve(schedule: seq<Action>)
    returns (lifecycle: ServingLifecycle, threads: seq<Thread>, drainer: Drainer, waiters: seq<Waiter>,
             ghost run: seq<Action>)
    ensures CanRun(INITIAL, run) && Run(INITIAL, run) == State(lifecycle.View(), threads, drainer, waiters)
    ensures forall a | a in run :: a in schedule
    ensures lifecycle.activeRequests == CountedThreads(threads)
    ensures Quieted(drainer) ==> forall i | 0 <= i < |threads| :: !threads[i].Serving?
    ensures NoLostWakeup(State(lifecycle.View(), threads, drainer, waiters))
  {
    lifecycle := new ServingLifecycle();
    threads, drainer, waiters, run := [], Waiting, [], [];
    for k := 0 to |schedule|
      invariant fresh(lifecycle) && CanRun(INITIAL, run) && forall a | a in run :: a in schedule
      invariant Run(INITIAL, run) == State(lifecycle.View(), threads, drainer, waiters)
    {
      ghost var s := State(lifecycle.View(), threads, drainer, waiters);
      if Enabled(State(lifecycle.View(), threads, drainer, waiters), schedule[k]) {
        RunThenStep(INITIAL, run, schedule[k]);
        run := run + [schedule[k]];
        match schedule[k] {
          case Spawn => threads := threads + [Arrived];
          case SpawnWaiter => waiters := waiters + [Registering];
          case ThreadStep(i) =>
            var t := lifecycle.AdvanceThread(threads[i]);
            threads := threads[i := t];
          case DrainerStep => drainer := lifecycle.AdvanceDrainer(drainer);
          case WaiterStep(j) => waiters := waiters[j := WaiterNext(lifecycle.View(), waiters[j])];
          case Timeout => drainer := Releasing(false);
        }
        assert State(lifecycle.View(), threads, drainer, waiters) == Step(s, schedule[k]);
      }
    }
    RunKeepsInv(INITIAL, run);
  }
}
