/** The promises of the image pipeline, over every history of invocations. */
module ImagePipelineTheorems {
  import opened Prelude
  import opened ImagePipeline
  import opened ImagePipelineProofs
  import opened ImagePipelineUploads
  import opened ImagePipelineHistories
  import Decimal

  /** Every digest recorded as pushed is the manifest digest a build receipt and a
      scan receipt record for the same artifact hash and the same build, and the frozen
      evidence is whole, names the address pushed to and carries exactly the times of
      those two receipts; every upload sent exactly the bytes of a recorded build and
      scan, whatever was put at the artifact path meanwhile, to that one address, and one
      of them sent this artifact; and a directory records at most one push. */
  lemma PushProvenance(run: seq<Action>, p: Receipt)
    requires CanRun(INITIAL, run) && p in Run(INITIAL, run).dir.receipts && p.PushReceipt?
    ensures
      var s := Run(INITIAL, run);
      && p.digest == p.push.manifest
      && Attested(s.dir, p.push)
      && BuiltAs(s.dir, p.push.build, p.push.artifactSha, p.digest)
      && ScannedAs(s.dir, p.push.build, p.push.artifactSha, p.digest)
      && (forall q | q in s.dir.receipts && q.PushReceipt? :: q == p)
      && UploadedAs(s.pushed, p.push) && s.dir.evidence.value.evidence.imageUri == p.push.imageUri
      && (forall k | 0 <= k < |s.pushed| :: s.pushed[k].0 == p.push.imageUri)
      && (forall k | 0 <= k < |s.pushed| :: UploadBacked(s.dir, s.pushed[k].1))
  {
    RunKeepsInv(INITIAL, run);
    var dir := Run(INITIAL, run).dir;
    assert Backed(dir, p);
    AttestedIsBacked(dir, p.push);
    RunKeepsDelivered(INITIAL, run);
  }

  lemma AttestedIsBacked(dir: Directory, push: PushInputs)
    requires Attested(dir, push)
    ensures BuiltAs(dir, push.build, push.artifactSha, push.manifest)
    ensures ScannedAs(dir, push.build, push.artifactSha, push.manifest)
    ensures dir.evidence.Some? && dir.evidence.value.Whole? && dir.evidence.value.evidence.imageUri == push.imageUri
  {
    var b, sc :| Recorded(dir, b) && Recorded(dir, sc) && Attests(dir.evidence, push, b, sc);
  }

  /** Receipts come in order: a final receipt has its push receipt, a push receipt
      its scan and build receipts and the frozen evidence, a scan receipt its build. */
  lemma ReceiptsComeInOrder(run: seq<Action>, r: Receipt)
    requires CanRun(INITIAL, run) && r in Run(INITIAL, run).dir.receipts
    ensures
      var dir := Run(INITIAL, run).dir;
      && (r.FinalReceipt? ==>
            && PushedAs(dir, r.final.push, r.final.digest)
            && ScannedAs(dir, r.final.push.build, r.final.push.artifactSha, r.final.digest)
            && Attested(dir, r.final.push) && ReportsOf(dir, r.final))
      && (r.ScanReceipt? ==> BuiltAs(dir, r.scan.build, r.scan.artifactSha, r.scan.manifest))
  {
    RunKeepsInv(INITIAL, run);
    var dir := Run(INITIAL, run).dir;
    assert Backed(dir, r);
    if r.FinalReceipt? {
      var p :| Recorded(dir, p) && p == PushReceipt(r.final.push, r.final.digest);
      assert Backed(dir, p);
      AttestedIsBacked(dir, r.final.push);
    }
  }

  /** Receipt files never disappear and never change their bytes, and neither does
      the evidence file once it is there, even a torn one. */
  lemma {:induction false} ReceiptsNeverChange(s: State, run: seq<Action>)
    requires CanRun(s, run)
    ensures Extends(s.dir, Run(s, run).dir)
    decreases |run|
  {
    if run != [] {
      StepExtends(s, run[0]);
      ReceiptsNeverChange(Step(s, run[0]), run[1..]);
    }
  }

  lemma FileStays(d: Directory, e: Directory, stage: Stage)
    requires Extends(d, e) && FileExists(d, stage)
    ensures FileExists(e, stage)
  {
    var r :| r in d.receipts && Of(r, stage);
    assert r in e.receipts;
  }

  lemma NoUploadStep(s: State, a: Action)
    requires RunnerOk(s.dir, s.runner) && Enabled(s, a) && FileExists(s.dir, PushStage)
    ensures Step(s, a).pushed == s.pushed
  {
    assert !a.Upload?;
  }

  /** A durable push receipt, even a torn one, is the end of uploading. */
  lemma {:induction false} NoUploadAfterPushReceipt(s: State, run: seq<Action>)
    requires Inv(s) && CanRun(s, run) && FileExists(s.dir, PushStage)
    ensures Run(s, run).pushed == s.pushed
    decreases |run|
  {
    if run != [] {
      var t := Step(s, run[0]);
      NoUploadStep(s, run[0]);
      StepKeepsInv(s, run[0]);
      StepExtends(s, run[0]);
      FileStays(s.dir, t.dir, PushStage);
      NoUploadAfterPushReceipt(t, run[1..]);
    }
  }

  /** A push receipt does not by itself rule out another container build: a resumed
      invocation starts one exactly when it is a push and the artifact is gone. A
      resumed build is always refused. */
  lemma RebuildAfterPushExactly(s: State, command: Command, prepare: Action)
    requires Inv(s) && s.runner.Off? && FileExists(s.dir, PushStage) && prepare.Prepare?
    requires Enabled(Step(s, Start(command, true)), prepare) || Step(s, Start(command, true)).runner.Off?
    ensures
      var started := Step(s, Start(command, true));
      (!started.runner.Off? && Step(started, prepare).runner.Building?) <==> command == Push && s.dir.artifact.None?
  {
    var p :| p in s.dir.receipts && Of(p, PushStage);
    assert Backed(s.dir, p);
    var started := Step(s, Start(command, true));
    if command == Push && s.dir.artifact.None? {
      assert Candidates(started.dir, BuildStage) == {};
    }
  }

  lemma PushAndRemove(j: Job) returns (run: seq<Action>, t: State)
    requires Good(j)
    ensures Leads(run, t) && t.runner.Off? && t.builds == 1
    ensures FileExists(t.dir, PushStage) && t.dir.exists_ && t.dir.artifact.None? && t.dir.evidence.Some?
  {
    run, t := PushOnce(j);
    assert Pushed(j) in t.dir.receipts && Of(Pushed(j), PushStage);
    run, t := Then(run, t, Stop);
    run, t := Then(run, t, Replace(None, t.dir.sbom, t.dir.scan));
  }

  /** Every push can come to this: its artifact is removed afterwards, and its resume
      builds the container again. */
  lemma RebuildAfterPushHappens(j: Job, second: nat, now: int)
    requires Good(j)
    ensures exists run ::
      CanRun(INITIAL, run) && FileExists(Run(INITIAL, run).dir, PushStage) && Run(INITIAL, run).builds == 2
  {
    var run, t := PushAndRemove(j);
    run, t := Then(run, t, Start(Push, true));
    assert Candidates(t.dir, BuildStage) == {};
    run, t := Then(run, t, Prepared(j, second, now, Nothing));
    run, t := Then(run, t, RunBuild(j.image));
  }

  /** Steps up to the build receipt. */
  predicate Early(a: Action) {
    a.Start? || a.Prepare? || a.RunBuild? || a.ReadManifest? || a.ReadHash? || a.Write?
  }

  ghost predicate Guarded(s: State, a: Action) {
    Enabled(s, a) && s.dir.artifact.Some? && !s.runner.Building? && (a.Replace? ==> a.artifact.Some?)
  }

  lemma EarlyNoBuildStep(s: State, a: Action)
    requires Guarded(s, a) && Early(a)
    ensures Step(s, a).dir.artifact.Some? && !Step(s, a).runner.Building? && Step(s, a).builds == s.builds
  {
  }

  lemma LateNoBuildStep(s: State, a: Action)
    requires Guarded(s, a) && !Early(a)
    ensures Step(s, a).dir.artifact.Some? && !Step(s, a).runner.Building? && Step(s, a).builds == s.builds
  {
  }

  /** While something sits at the artifact path, nothing is built over it. */
  lemma {:induction false} NoBuildOverArtifact(s: State, run: seq<Action>)
    requires CanRun(s, run) && s.dir.artifact.Some? && !s.runner.Building?
    requires forall a | a in run && a.Replace? :: a.artifact.Some?
    ensures Run(s, run).builds == s.builds && Run(s, run).dir.artifact.Some?
    decreases |run|
  {
    if run != [] {
      assert run[0] in run;
      if Early(run[0]) {
        EarlyNoBuildStep(s, run[0]);
      } else {
        LateNoBuildStep(s, run[0]);
      }
      NoBuildOverArtifact(Step(s, run[0]), run[1..]);
    }
  }

  /** Once an invocation has left a receipt but no build evidence behind, the
      directory is closed: every later invocation is refused before it does anything. */
  lemma {:induction false} ReceiptsWithoutEvidenceRefuse(s: State, run: seq<Action>)
    requires Inv(s) && CanRun(s, run)
    requires s.runner.Off? && s.dir.evidence.None? && s.dir.receipts != map[]
    ensures
      var t := Run(s, run);
      && t.runner.Off? && t.dir.receipts == s.dir.receipts && t.dir.evidence.None?
      && t.pushed == s.pushed && t.builds == s.builds
    decreases |run|
  {
    if run != [] {
      StepKeepsInv(s, run[0]);
      var t := Step(s, run[0]);
      assert t.runner.Off? && t.dir.receipts == s.dir.receipts;
      ReceiptsWithoutEvidenceRefuse(t, run[1..]);
    }
  }

  /** Between the final outputs and their receipt. */
  ghost predicate Stranded(s: State) {
    && s.dir.finals && !FileExists(s.dir, FinalStage)
    && !s.runner.Quarantining? && !s.runner.Pushing? && !s.runner.RecordingPush?
    && !s.runner.HavePush? && !s.runner.Finalizing? && !s.runner.RecordingFinal?
  }

  lemma EarlyStrandedStep(s: State, a: Action)
    requires Stranded(s) && Enabled(s, a) && Early(a)
    ensures Stranded(Step(s, a)) && Step(s, a).pushed == s.pushed
    ensures forall r | r in Step(s, a).dir.receipts :: r.PushReceipt? ==> r in s.dir.receipts
  {
    var t := Step(s, a);
    assert forall r | r in t.dir.receipts && r !in s.dir.receipts :: r.BuildReceipt?;
  }

  lemma LateStrandedStep(s: State, a: Action)
    requires Stranded(s) && Enabled(s, a) && !Early(a)
    ensures Stranded(Step(s, a)) && Step(s, a).pushed == s.pushed
    ensures forall r | r in Step(s, a).dir.receipts :: r.PushReceipt? ==> r in s.dir.receipts
  {
    var t := Step(s, a);
    assert forall r | r in t.dir.receipts && r !in s.dir.receipts :: r.ScanReceipt?;
  }

  /** An invocation that stopped after its final outputs and before their receipt has
      closed the directory to pushes: no later history uploads or records one. */
  lemma {:induction false} StrandedOutputsRefuse(s: State, run: seq<Action>)
    requires CanRun(s, run) && s.runner.Off? && s.dir.finals && !FileExists(s.dir, FinalStage)
    ensures
      var t := Run(s, run);
      && t.pushed == s.pushed && !FileExists(t.dir, FinalStage)
      && forall r | r in t.dir.receipts :: r.PushReceipt? ==> r in s.dir.receipts
  {
    StrandedRun(s, run);
  }

  lemma {:induction false} StrandedRun(s: State, run: seq<Action>)
    requires CanRun(s, run) && Stranded(s)
    ensures
      var t := Run(s, run);
      && t.pushed == s.pushed && !FileExists(t.dir, FinalStage)
      && forall r | r in t.dir.receipts :: r.PushReceipt? ==> r in s.dir.receipts
    decreases |run|
  {
    if run != [] {
      if Early(run[0]) {
        EarlyStrandedStep(s, run[0]);
      } else {
        LateStrandedStep(s, run[0]);
      }
      StrandedRun(Step(s, run[0]), run[1..]);
    }
  }

  /** A push receipt is reused only if the registry still has its digest: whatever the
      final receipt says, anything else is refused and changes nothing. */
  lemma RegistryDisagreementRefused(s: State, found: Found, registry: Digest)
    requires Enabled(s, LookFinal(found, registry)) && s.runner.reused && registry != s.runner.p.digest
    ensures Step(s, LookFinal(found, registry)) == s.(runner := Off)
  {
  }

  // ------------------------------------------------------------ image address

  lemma AppendCancels(a: string, x: string, y: string)
    requires a + x == a + y
    ensures x == y
  {
    assert x == (a + x)[|a|..] && y == (a + y)[|a|..];
  }

  /** Two invocations for the same profile, source and build name the same image exactly
      if the source is a release tag or they ran in the same second. */
  lemma ImageUriStableExactly(c: Context, d: Context)
    requires c.profile == d.profile && c.sourceRef == d.sourceRef && c.build == d.build
    ensures ImageUri(c) == ImageUri(d) <==> ReleaseTag(c.sourceRef).Some? || c.second == d.second
  {
    if ReleaseTag(c.sourceRef).None? && ImageUri(c) == ImageUri(d) {
      var commit := c.build.commit;
      var prefix := c.build.repository + ":" + (if c.profile == "evaluation" then "eval-" else "");
      var short := (if |commit| > 7 then commit[..7] else commit) + "-";
      AppendCancels(prefix, short + Decimal.Text(c.second), short + Decimal.Text(d.second));
      AppendCancels(short, Decimal.Text(c.second), Decimal.Text(d.second));
      Decimal.TextInjective(c.second, d.second);
    }
  }

  // ------------------------------------------------------------------- resume

  /** An invocation that has not reached the evidence yet was started as a resume. */
  ghost predicate Resuming(runner: Runner) {
    match runner
    case Preparing(_, resume) => resume
    case Building(ctx) => ctx.resume
    case Hashing(ctx) => ctx.resume
    case RecordingBuild(ctx, _) => ctx.resume
    case HaveBuild(ctx, _) => ctx.resume
    case HashMatched(ctx, _) => ctx.resume
    case Verified(ctx, _) => ctx.resume
    case Scanning(ctx, _, _) => ctx.resume
    case Inventoried(ctx, _, _) => ctx.resume
    case RecordingScan(ctx, _, _) => ctx.resume
    case HaveScan(ctx, _, _) => ctx.resume
    case _ => true
  }

  lemma EarlyResumingStep(s: State, a: Action)
    requires Enabled(s, a) && s.dir.exists_ && Resuming(s.runner) && Early(a)
    ensures Step(s, a).dir.exists_ && Resuming(Step(s, a).runner)
  {
  }

  lemma LateResumingStep(s: State, a: Action)
    requires Enabled(s, a) && s.dir.exists_ && Resuming(s.runner) && !Early(a)
    ensures Step(s, a).dir.exists_ && Resuming(Step(s, a).runner)
  {
  }

  /** Once the directory exists, every later invocation is a resume. */
  lemma {:induction false} LaterInvocationsResume(s: State, run: seq<Action>)
    requires CanRun(s, run) && s.dir.exists_ && Resuming(s.runner)
    ensures Resuming(Run(s, run).runner)
    decreases |run|
  {
    if run != [] {
      if Early(run[0]) {
        EarlyResumingStep(s, run[0]);
      } else {
        LateResumingStep(s, run[0]);
      }
      LaterInvocationsResume(Step(s, run[0]), run[1..]);
    }
  }

  /** The evidence of one invocation is that of another. */
  predicate SameSource(first: Context, again: Context) {
    && again.profile == first.profile && again.sourceRef == first.sourceRef
    && (ReleaseTag(first.sourceRef).Some? || again.second == first.second)
  }

  lemma EvidenceAgreesExactly(first: Context, again: Context, b: Receipt, sc: Receipt)
    requires b.BuildReceipt? && sc.ScanReceipt? && first.build == again.build
    ensures ExpectedEvidence(again, b, sc) == ExpectedEvidence(first, b, sc) <==> SameSource(first, again)
  {
    if first.profile == again.profile && first.sourceRef == again.sourceRef {
      ImageUriStableExactly(first, again);
    }
  }

  /** An invocation freezes its evidence; any history follows; then an invocation has
      found the same build and scan receipts. It is a resume. If it is a push, it
      recomputes exactly the frozen evidence, and so proceeds, if and only if it has the
      same profile and source and that source is a release tag or the second is the same;
      otherwise it is refused. Either way the directory is left alone. */
  lemma ResumeRecomputesEvidence(s: State, run: seq<Action>)
    requires Inv(s) && s.runner.HaveScan? && Enabled(s, Freeze(false)) && s.dir.evidence.None?
    requires s.runner.b.createdAt <= s.runner.sc.completedAt && CanRun(Step(s, Freeze(false)), run)
    requires
      var t := Run(Step(s, Freeze(false)), run);
      t.runner.HaveScan? && t.runner.b == s.runner.b && t.runner.sc == s.runner.sc
    ensures
      var HaveScan(first, b, sc) := s.runner;
      var t := Run(Step(s, Freeze(false)), run);
      var again := t.runner.ctx;
      var u := Step(t, Freeze(false));
      && again.resume && t.dir.evidence == Some(Whole(ExpectedEvidence(first, b, sc))) && u.dir == t.dir
      && (again.command == Push ==>
            if SameSource(first, again) then u.runner == CheckingPush(again, b, sc) else u.runner.Off?)
  {
    var HaveScan(first, b, sc) := s.runner;
    var frozen := Step(s, Freeze(false));
    var t := Run(frozen, run);
    StepKeepsInv(s, Freeze(false));
    RunKeepsInv(frozen, run);
    ReceiptsNeverChange(frozen, run);
    LaterInvocationsResume(frozen, run);
    EvidenceAgreesExactly(first, t.runner.ctx, b, sc);
  }

  /** A push that stopped right after freezing its evidence, resumed, up to where it
      recomputes the evidence. */
  lemma StopAndResume(j: Job, second: nat, now: int) returns (run: seq<Action>, t: State)
    requires Good(j)
    ensures Leads(run, t) && t.runner == HaveScan(Again(j, second, now), Built(j), Scanned(j))
    ensures t.dir == Directory(true, Some(j.image), Some(j.sbom), Some(j.report), Some(Evidenced(j)),
                               map[Built(j) := true, Scanned(j) := true], false)
    ensures t.pushed == [] && t.builds == 1
  {
    run, t := BuildAndScan(j);
    run, t := FreezeEvidence(j, run, t);
    run, t := Then(run, t, Stop);
    assert Candidates(t.dir, BuildStage) == {Built(j)};
    assert Candidates(t.dir, ScanStage) == {Scanned(j)};
    run, t := ResumeFindsBoth(j, run, t, second, now);
  }

  /** Every push from anything but a release tag can be refused its resume: stopped right
      after freezing its evidence and resumed in any other second, with nothing else
      changed, it finds both its receipts and is refused for its image address alone. */
  lemma ResumeRefusedHappens(j: Job, second: nat, now: int) returns (run: seq<Action>)
    requires Good(j) && ReleaseTag(j.sourceRef).None? && second != j.second
    ensures CanRun(INITIAL, run)
    ensures
      var t := Run(INITIAL, run);
      && t.runner == HaveScan(Again(j, second, now), Built(j), Scanned(j))
      && t.dir.evidence == Some(Evidenced(j)) && t.dir.artifact == Some(j.image)
      && Step(t, Freeze(false)).runner.Off?
  {
    var t;
    run, t := StopAndResume(j, second, now);
    EvidenceAgreesExactly(First(j), Again(j, second, now), Built(j), Scanned(j));
  }

  /** And every push from a release tag can be resumed at any time: it goes on to the push
      as if it had not stopped. */
  lemma TagResumeProceeds(j: Job, second: nat, now: int) returns (run: seq<Action>)
    requires Good(j) && ReleaseTag(j.sourceRef).Some?
    ensures CanRun(INITIAL, run)
    ensures
      var t := Run(INITIAL, run);
      && t.runner == Quarantining(Again(j, second, now), Built(j), Scanned(j))
        && ImageUri(t.runner.ctx) == ImageUri(First(j))
      && t.dir.artifact == Some(j.image) && t.builds == 1 && t.pushed == []
  {
    var t;
    run, t := StopAndResume(j, second, now);
    EvidenceAgreesExactly(First(j), Again(j, second, now), Built(j), Scanned(j));
    ImageUriStableExactly(First(j), Again(j, second, now));
    run, t := Then(run, t, Freeze(false));
    assert Candidates(t.dir, PushStage) == {};
    run, t := Then(run, t, LookPush(Nothing));
  }

  /** A finished release, resumed at any time, finds all four receipts, asks the registry,
      and is done: it builds nothing, uploads nothing and writes nothing. */
  lemma FinishedReleaseResumes(j: Job, second: nat, now: int, registry: Digest) returns (run: seq<Action>)
    requires Good(j) && ReleaseTag(j.sourceRef).Some?
    ensures CanRun(INITIAL, run)
    ensures
      var t := Run(INITIAL, run);
      && t.runner == HavePush(Again(j, second, now), Built(j), Scanned(j), Pushed(j), true)
      && t.dir == FinishedDirectory(j, true) && t.builds == 1 && |t.pushed| == 1
      && Finds(t.dir, FinalStage, One(Finalized(j, true)))
      && Step(t, LookFinal(One(Finalized(j, true)), j.manifest)) == t.(runner := Off)
  {
    var t;
    run, t := PushDelivers(j, true, registry);
    assert Candidates(t.dir, BuildStage) == {Built(j)};
    assert Candidates(t.dir, ScanStage) == {Scanned(j)};
    run, t := ResumeFindsBoth(j, run, t, second, now);
    EvidenceAgreesExactly(First(j), Again(j, second, now), Built(j), Scanned(j));
    ImageUriStableExactly(First(j), Again(j, second, now));
    run, t := Then(run, t, Freeze(false));
    run, t := FinishedPushFound(j, run, t, second, now);
  }

  lemma FinishedPushFound(j: Job, run0: seq<Action>, t0: State, second: nat, now: int)
      returns (run: seq<Action>, t: State)
    requires Leads(run0, t0) && t0.runner == CheckingPush(Again(j, second, now), Built(j), Scanned(j))
    requires t0.dir == FinishedDirectory(j, true) && ImageUri(Again(j, second, now)) == ImageUri(First(j))
    ensures Leads(run, t) && t == t0.(runner := HavePush(Again(j, second, now), Built(j), Scanned(j), Pushed(j), true))
    ensures Finds(t.dir, FinalStage, One(Finalized(j, true)))
    ensures Step(t, LookFinal(One(Finalized(j, true)), j.manifest)) == t.(runner := Off)
  {
    assert Candidates(t0.dir, PushStage) == {Pushed(j)};
    assert Finalized(j, true) in t0.dir.receipts && Of(Finalized(j, true), FinalStage);
    run, t := Then(run0, t0, LookPush(One(Pushed(j))));
    FinishedFinalFound(j, t);
  }

  lemma FinishedFinalFound(j: Job, t: State)
    requires t.dir == FinishedDirectory(j, true) && t.runner.HavePush?
    requires t.runner == HavePush(t.runner.ctx, Built(j), Scanned(j), Pushed(j), true)
    requires t.runner.ctx.resume
    requires FinalInputsOf(t.runner.ctx, Built(j), Scanned(j), Pushed(j)) == Finalized(j, true).final
    ensures Finds(t.dir, FinalStage, One(Finalized(j, true)))
    ensures Step(t, LookFinal(One(Finalized(j, true)), j.manifest)) == t.(runner := Off)
  {
    assert Candidates(t.dir, FinalStage) == {Finalized(j, true)};
  }
}
