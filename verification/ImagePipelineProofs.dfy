/** What every history of pipeline invocations keeps in one output directory. */
module ImagePipelineProofs {
  import opened Prelude
  import opened ImagePipeline

  predicate Recorded(dir: Directory, r: Receipt) {
    r in dir.receipts && dir.receipts[r]
  }

  // --------------------------------------------------------------- invariant

  predicate BuildOf(b: Receipt, build: BuildInputs, sha: Sha, manifest: Digest) {
    b.BuildReceipt? && b.build == build && b.artifactSha == sha && b.manifest == manifest
  }

  predicate ScanOf(sc: Receipt, build: BuildInputs, sha: Sha, manifest: Digest) {
    sc.ScanReceipt? && sc.scan.build == build && sc.scan.artifactSha == sha && sc.scan.manifest == manifest
  }

  ghost predicate BuiltAs(dir: Directory, build: BuildInputs, sha: Sha, manifest: Digest) {
    exists b :: Recorded(dir, b) && BuildOf(b, build, sha, manifest)
  }

  ghost predicate ScannedAs(dir: Directory, build: BuildInputs, sha: Sha, manifest: Digest) {
    exists sc :: Recorded(dir, sc) && ScanOf(sc, build, sha, manifest)
  }

  ghost predicate PushedAs(dir: Directory, push: PushInputs, digest: Digest) {
    exists p :: Recorded(dir, p) && p == PushReceipt(push, digest)
  }

  /** The reports a final receipt names are those of a scan of the artifact pushed. */
  ghost predicate ReportsOf(dir: Directory, final: FinalInputs) {
    exists sc | Recorded(dir, sc) :: IsReportOf(sc, final)
  }

  predicate IsReportOf(sc: Receipt, final: FinalInputs) {
    && ScanOf(sc, final.push.build, final.push.artifactSha, final.push.manifest)
    && sc.sbomSha == final.sbomSha && sc.scanSha == final.scanSha
  }

  /** The evidence file is whole and speaks of this push: its address, its build, and the
      times of a build and a scan receipt for its artifact. */
  ghost predicate Attested(dir: Directory, push: PushInputs) {
    exists b, sc | Recorded(dir, b) && Recorded(dir, sc) :: Attests(dir.evidence, push, b, sc)
  }

  predicate Attests(evidence: Option<EvidenceFile>, push: PushInputs, b: Receipt, sc: Receipt) {
    && BuildOf(b, push.build, push.artifactSha, push.manifest)
    && ScanOf(sc, push.build, push.artifactSha, push.manifest)
    && evidence.Some? && evidence.value.Whole?
    && var e := evidence.value.evidence;
    && e.imageUri == push.imageUri && e.build == push.build
    && e.createdAt == b.createdAt && e.completedAt == sc.completedAt
  }

  /** What each receipt file presupposes of the rest of the directory. */
  ghost predicate Backed(dir: Directory, r: Receipt) {
    match r
    case BuildReceipt(_, _, _, _) => true
    case ScanReceipt(inputs, _, _, _) => BuiltAs(dir, inputs.build, inputs.artifactSha, inputs.manifest)
    case PushReceipt(push, digest) => digest == push.manifest && Attested(dir, push)
    case FinalReceipt(final, _) =>
      final.digest == final.push.manifest && PushedAs(dir, final.push, final.digest) && ReportsOf(dir, final)
  }

  ghost predicate DirectoryOk(dir: Directory) {
    && (forall r | r in dir.receipts :: Backed(dir, r))
    && (forall p, q | p in dir.receipts && q in dir.receipts :: p.PushReceipt? && q.PushReceipt? ==> p == q)
    && (dir.receipts != map[] || dir.evidence.Some? ==> dir.exists_)
  }

  ghost predicate BuildOk(dir: Directory, ctx: Context, b: Receipt) {
    Recorded(dir, b) && b.BuildReceipt? && b.build == ctx.build
  }

  ghost predicate InputsOk(ctx: Context, b: Receipt, inputs: ScanInputs) {
    b.BuildReceipt? && inputs.build == ctx.build && inputs.artifactSha == b.artifactSha && inputs.manifest == b.manifest
  }

  ghost predicate ScanOk(dir: Directory, ctx: Context, b: Receipt, sc: Receipt) {
    BuildOk(dir, ctx, b) && Recorded(dir, sc) && sc.ScanReceipt? && InputsOk(ctx, b, sc.scan)
  }

  ghost predicate Unpushed(dir: Directory) {
    !FileExists(dir, PushStage) && !FileExists(dir, FinalStage)
  }

  /** The evidence file holds exactly what this invocation computes. */
  ghost predicate Frozen(dir: Directory, ctx: Context, b: Receipt, sc: Receipt) {
    b.BuildReceipt? && sc.ScanReceipt? && dir.evidence == Some(Whole(ExpectedEvidence(ctx, b, sc)))
  }

  ghost predicate PushOk(dir: Directory, ctx: Context, b: Receipt, sc: Receipt, p: Receipt) {
    && ScanOk(dir, ctx, b, sc) && Frozen(dir, ctx, b, sc)
    && Recorded(dir, p) && p == PushReceipt(PushInputsOf(ctx, b), b.manifest)
  }

  ghost predicate RunnerOk(dir: Directory, runner: Runner) {
    && (!runner.Off? ==> dir.exists_)
    && match runner
    case HaveBuild(ctx, b) => BuildOk(dir, ctx, b)
    case HashMatched(ctx, b) => BuildOk(dir, ctx, b)
    case Verified(ctx, b) => BuildOk(dir, ctx, b)
    case Scanning(ctx, b, inputs) => BuildOk(dir, ctx, b) && InputsOk(ctx, b, inputs)
    case Inventoried(ctx, b, inputs) => BuildOk(dir, ctx, b) && InputsOk(ctx, b, inputs)
    case RecordingScan(ctx, b, inputs) => BuildOk(dir, ctx, b) && InputsOk(ctx, b, inputs)
    case HaveScan(ctx, b, sc) => ScanOk(dir, ctx, b, sc)
    case CheckingPush(ctx, b, sc) => ScanOk(dir, ctx, b, sc) && Frozen(dir, ctx, b, sc)
    case Quarantining(ctx, b, sc) => ScanOk(dir, ctx, b, sc) && Frozen(dir, ctx, b, sc) && Unpushed(dir)
    case Pushing(ctx, b, sc, copy) =>
      && ScanOk(dir, ctx, b, sc) && Frozen(dir, ctx, b, sc) && Unpushed(dir)
      && Sha(copy) == b.artifactSha && copy.manifest == Some(b.manifest)
    case RecordingPush(ctx, b, sc) => ScanOk(dir, ctx, b, sc) && Frozen(dir, ctx, b, sc) && Unpushed(dir)
    case HavePush(ctx, b, sc, p, _) => PushOk(dir, ctx, b, sc, p)
    case Finalizing(ctx, b, sc, p) => PushOk(dir, ctx, b, sc, p)
    case RecordingFinal(ctx, b, sc, p, _) => PushOk(dir, ctx, b, sc, p)
    case _ => true
  }

  /** Every upload sent the bytes that a build and a scan receipt in the directory name. */
  ghost predicate UploadsOk(s: State) {
    forall k | 0 <= k < |s.pushed| :: UploadBacked(s.dir, s.pushed[k].1)
  }

  ghost predicate UploadBacked(dir: Directory, blob: Blob) {
    exists b, sc | Recorded(dir, b) && Recorded(dir, sc) :: Covers(b, sc, blob)
  }

  predicate Covers(b: Receipt, sc: Receipt, blob: Blob) {
    && blob.manifest.Some?
    && b.BuildReceipt? && BuildOf(b, b.build, Sha(blob), blob.manifest.value)
    && ScanOf(sc, b.build, Sha(blob), blob.manifest.value)
  }

  ghost predicate Inv(s: State) {
    DirectoryOk(s.dir) && RunnerOk(s.dir, s.runner) && UploadsOk(s)
  }

  // ------------------------------------------------------------ preservation

  /** Receipts only accumulate, and keep their bytes; evidence stays. */
  ghost predicate Extends(d: Directory, e: Directory) {
    && (forall r | r in d.receipts :: r in e.receipts && e.receipts[r] == d.receipts[r])
    && (d.evidence.Some? ==> e.evidence == d.evidence)
    && (d.exists_ ==> e.exists_)
  }

  lemma BackedStays(d: Directory, e: Directory, r: Receipt)
    requires Extends(d, e) && Backed(d, r)
    ensures Backed(e, r)
  {
    match r
    case BuildReceipt(_, _, _, _) =>
    case ScanReceipt(inputs, _, _, _) => BuiltStays(d, e, inputs.build, inputs.artifactSha, inputs.manifest);
    case PushReceipt(push, _) =>
      var b, sc :| Recorded(d, b) && Recorded(d, sc) && Attests(d.evidence, push, b, sc);
      assert Recorded(e, b) && Recorded(e, sc) && Attests(e.evidence, push, b, sc);
    case FinalReceipt(final, _) =>
      var p :| Recorded(d, p) && p == PushReceipt(final.push, final.digest);
      var sc :| Recorded(d, sc) && IsReportOf(sc, final);
      assert Recorded(e, p) && Recorded(e, sc);
  }

  lemma BuiltStays(d: Directory, e: Directory, build: BuildInputs, sha: Sha, manifest: Digest)
    requires Extends(d, e) && BuiltAs(d, build, sha, manifest)
    ensures BuiltAs(e, build, sha, manifest)
  {
    var b :| Recorded(d, b) && BuildOf(b, build, sha, manifest);
    assert Recorded(e, b);
  }

  lemma UploadsStay(s: State, t: State)
    requires UploadsOk(s) && Extends(s.dir, t.dir) && t.pushed == s.pushed
    ensures UploadsOk(t)
  {
    forall k | 0 <= k < |t.pushed| ensures UploadBacked(t.dir, t.pushed[k].1) {
      assert UploadBacked(s.dir, s.pushed[k].1);
      var b, sc :| Recorded(s.dir, b) && Recorded(s.dir, sc) && Covers(b, sc, s.pushed[k].1);
      assert Recorded(t.dir, b) && Recorded(t.dir, sc);
    }
  }

  /** Adding one backed receipt keeps the directory in order. */
  lemma AddReceipt(d: Directory, r: Receipt, whole: bool)
    requires DirectoryOk(d) && d.exists_ && r !in d.receipts
    requires Backed(d, r)
    requires r.PushReceipt? ==> !FileExists(d, PushStage)
    ensures DirectoryOk(d.(receipts := d.receipts[r := whole])) && Extends(d, d.(receipts := d.receipts[r := whole]))
  {
    var e := d.(receipts := d.receipts[r := whole]);
    forall q | q in e.receipts ensures Backed(e, q) {
      BackedStays(d, e, q);
    }
    if r.PushReceipt? {
      forall q | q in d.receipts ensures !q.PushReceipt? {
        assert Of(q, PushStage) == q.PushReceipt?;
      }
    }
  }

  lemma StepExtends(s: State, a: Action)
    requires Enabled(s, a)
    ensures Extends(s.dir, Step(s, a).dir)
  {
  }

  /** A step that adds no receipt keeps the directory in order. */
  lemma SameReceiptsOk(d: Directory, e: Directory)
    requires DirectoryOk(d) && Extends(d, e) && e.receipts == d.receipts
    requires e.evidence.Some? ==> e.exists_
    ensures DirectoryOk(e)
  {
    forall r | r in e.receipts ensures Backed(e, r) {
      BackedStays(d, e, r);
    }
  }

  lemma WriteBuildKeepsInv(s: State, a: Action)
    requires Inv(s) && Enabled(s, a) && a.Write? && s.runner.RecordingBuild?
    ensures Inv(Step(s, a))
  {
    var RecordingBuild(ctx, manifest) := s.runner;
    var t := Step(s, a);
    StepExtends(s, a);
    UploadsStay(s, t);
    if s.dir.artifact.Some? {
      var b := BuildReceipt(ctx.build, Sha(s.dir.artifact.value), manifest, ctx.createdAt);
      if b !in s.dir.receipts {
        AddReceipt(s.dir, b, !a.torn);
      }
    }
  }

  lemma FinishScanKeepsInv(s: State, a: Action)
    requires Inv(s) && Enabled(s, a) && a.FinishScan?
    ensures Inv(Step(s, a))
  {
    var RecordingScan(ctx, b, inputs) := s.runner;
    var t := Step(s, a);
    StepExtends(s, a);
    UploadsStay(s, t);
    if s.dir.sbom.Some? && s.dir.scan.Some? {
      var sc := ScanReceipt(inputs, Sha(s.dir.sbom.value), Sha(s.dir.scan.value), a.now);
      assert BuildOf(b, inputs.build, inputs.artifactSha, inputs.manifest);
      if sc !in s.dir.receipts {
        AddReceipt(s.dir, sc, !a.torn);
      }
    }
  }

  lemma WritePushKeepsInv(s: State, a: Action)
    requires Inv(s) && Enabled(s, a) && a.Write? && s.runner.RecordingPush?
    ensures Inv(Step(s, a))
  {
    var RecordingPush(ctx, b, sc) := s.runner;
    var t := Step(s, a);
    StepExtends(s, a);
    UploadsStay(s, t);
    var p := PushReceipt(PushInputsOf(ctx, b), b.manifest);
    assert Attests(s.dir.evidence, p.push, b, sc);
    assert Of(p, PushStage);
    AddReceipt(s.dir, p, !a.torn);
  }

  lemma WriteFinalKeepsInv(s: State, a: Action)
    requires Inv(s) && Enabled(s, a) && a.Write? && s.runner.RecordingFinal?
    ensures Inv(Step(s, a))
  {
    var RecordingFinal(ctx, b, sc, p, released) := s.runner;
    var t := Step(s, a);
    StepExtends(s, a);
    UploadsStay(s, t);
    var f := FinalReceipt(FinalInputsOf(ctx, b, sc, p), released);
    assert PushedAs(s.dir, f.final.push, f.final.digest);
    assert IsReportOf(sc, f.final);
    if f !in s.dir.receipts {
      AddReceipt(s.dir, f, !a.torn);
    }
  }

  lemma UploadKeepsInv(s: State, a: Action)
    requires Inv(s) && Enabled(s, a) && a.Upload?
    ensures Inv(Step(s, a))
  {
    var t := Step(s, a);
    assert Covers(s.runner.b, s.runner.sc, s.runner.copy);
    forall k | 0 <= k < |t.pushed| ensures UploadBacked(t.dir, t.pushed[k].1) {
      if k < |s.pushed| { assert t.pushed[k] == s.pushed[k]; }
    }
  }

  /** The runner's standing depends only on receipts, evidence and the directory itself. */
  lemma RunnerFrame(d: Directory, e: Directory, runner: Runner)
    requires RunnerOk(d, runner)
    requires e.receipts == d.receipts && e.evidence == d.evidence && e.exists_ == d.exists_
    ensures RunnerOk(e, runner)
  {
  }

  lemma LookPushKeepsRunner(s: State, a: Action)
    requires Inv(s) && Enabled(s, a) && a.LookPush?
    ensures RunnerOk(Step(s, a).dir, Step(s, a).runner)
  {
    if a.found.One? {
      assert a.found.receipt in Candidates(s.dir, PushStage);
      assert Backed(s.dir, a.found.receipt);
    }
  }

  lemma LookScanKeepsRunner(s: State, a: Action)
    requires Inv(s) && Enabled(s, a) && a.LookScan?
    ensures RunnerOk(Step(s, a).dir, Step(s, a).runner)
  {
    if a.found.One? {
      assert a.found.receipt in Candidates(s.dir, ScanStage);
    }
  }

  lemma PrepareKeepsRunner(s: State, a: Action)
    requires Inv(s) && Enabled(s, a) && a.Prepare?
    ensures RunnerOk(Step(s, a).dir, Step(s, a).runner)
  {
    if a.found.One? {
      assert a.found.receipt in Candidates(s.dir, BuildStage);
    }
  }

  predicate Looks(a: Action) {
    a.LookPush? || a.LookScan? || a.Prepare?
  }

  lemma LookStepKeepsRunner(s: State, a: Action)
    requires Inv(s) && Enabled(s, a) && Looks(a)
    ensures RunnerOk(Step(s, a).dir, Step(s, a).runner)
  {
    if a.LookPush? {
      LookPushKeepsRunner(s, a);
    } else if a.LookScan? {
      LookScanKeepsRunner(s, a);
    } else {
      PrepareKeepsRunner(s, a);
    }
  }

  lemma EarlyStepKeepsRunner(s: State, a: Action)
    requires Inv(s) && Enabled(s, a)
    requires a.Start? || a.RunBuild? || a.ReadManifest? || a.ReadHash? || a.WriteSbom? || a.WriteScan? || a.Stop?
    ensures RunnerOk(Step(s, a).dir, Step(s, a).runner)
  {
  }

  lemma FreezeKeepsRunner(s: State, a: Action)
    requires Inv(s) && Enabled(s, a) && a.Freeze?
    ensures RunnerOk(Step(s, a).dir, Step(s, a).runner)
  {
    assert Step(s, a).dir.receipts == s.dir.receipts;
  }

  lemma LookFinalKeepsRunner(s: State, a: Action)
    requires Inv(s) && Enabled(s, a) && a.LookFinal?
    ensures RunnerOk(Step(s, a).dir, Step(s, a).runner)
  {
  }

  lemma WriteFinalsKeepsRunner(s: State, a: Action)
    requires Inv(s) && Enabled(s, a) && a.WriteFinals?
    ensures RunnerOk(Step(s, a).dir, Step(s, a).runner)
  {
    RunnerFrame(s.dir, Step(s, a).dir, s.runner);
  }

  lemma CopyKeepsRunner(s: State, a: Action)
    requires Inv(s) && Enabled(s, a) && a.Copy?
    ensures RunnerOk(Step(s, a).dir, Step(s, a).runner)
  {
  }

  lemma ReplaceKeepsRunner(s: State, a: Action)
    requires Inv(s) && a.Replace?
    ensures RunnerOk(Step(s, a).dir, Step(s, a).runner)
  {
    RunnerFrame(s.dir, Step(s, a).dir, s.runner);
  }

  /** Steps that touch no receipt file and no upload. */
  predicate Quiet(a: Action) {
    !a.Write? && !a.FinishScan? && !a.Upload?
  }

  lemma QuietStepShape(s: State, a: Action)
    requires Enabled(s, a) && Quiet(a)
    ensures Step(s, a).dir.receipts == s.dir.receipts && Step(s, a).pushed == s.pushed
    ensures Step(s, a).dir.evidence == s.dir.evidence || a.Freeze?
    ensures s.dir.exists_ ==> Step(s, a).dir.exists_
  {
  }

  lemma QuietStepKeepsRunner(s: State, a: Action)
    requires Inv(s) && Enabled(s, a) && Quiet(a)
    ensures RunnerOk(Step(s, a).dir, Step(s, a).runner)
  {
    if Looks(a) {
      LookStepKeepsRunner(s, a);
    } else if a.Freeze? {
      FreezeKeepsRunner(s, a);
    } else if a.Replace? {
      ReplaceKeepsRunner(s, a);
    } else if a.Copy? {
      CopyKeepsRunner(s, a);
    } else if a.LookFinal? {
      LookFinalKeepsRunner(s, a);
    } else if a.WriteFinals? {
      WriteFinalsKeepsRunner(s, a);
    } else {
      EarlyStepKeepsRunner(s, a);
    }
  }

  lemma QuietStepKeepsInv(s: State, a: Action)
    requires Inv(s) && Enabled(s, a) && Quiet(a)
    ensures Inv(Step(s, a))
  {
    var t := Step(s, a);
    QuietStepKeepsRunner(s, a);
    QuietStepShape(s, a);
    StepExtends(s, a);
    UploadsStay(s, t);
    SameReceiptsOk(s.dir, t.dir);
  }

  lemma WriteKeepsInv(s: State, a: Action)
    requires Inv(s) && Enabled(s, a) && a.Write?
    ensures Inv(Step(s, a))
  {
    if s.runner.RecordingBuild? {
      WriteBuildKeepsInv(s, a);
    } else if s.runner.RecordingPush? {
      WritePushKeepsInv(s, a);
    } else {
      WriteFinalKeepsInv(s, a);
    }
  }

  lemma StepKeepsInv(s: State, a: Action)
    requires Inv(s) && Enabled(s, a)
    ensures Inv(Step(s, a))
  {
    if a.Write? {
      WriteKeepsInv(s, a);
    } else if a.FinishScan? {
      FinishScanKeepsInv(s, a);
    } else if a.Upload? {
      UploadKeepsInv(s, a);
    } else {
      QuietStepKeepsInv(s, a);
    }
  }

  lemma {:induction false} RunKeepsInv(s: State, run: seq<Action>)
    requires Inv(s) && CanRun(s, run)
    ensures Inv(Run(s, run))
    decreases |run|
  {
    if run != [] {
      StepKeepsInv(s, run[0]);
      RunKeepsInv(Step(s, run[0]), run[1..]);
    }
  }
}
