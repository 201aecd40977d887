/** What the registry got, and where: the address of every upload against the evidence and
    the receipts that speak of it. */
module ImagePipelineUploads {
  import opened Prelude
  import opened ImagePipeline
  import opened ImagePipelineProofs

  /** An upload of this artifact to this address. */
  predicate IsUpload(upload: (string, Blob), push: PushInputs) {
    && upload.0 == push.imageUri
    && Sha(upload.1) == push.artifactSha && upload.1.manifest == Some(push.manifest)
  }

  ghost predicate UploadedAs(pushed: seq<(string, Blob)>, push: PushInputs) {
    exists k | 0 <= k < |pushed| :: IsUpload(pushed[k], push)
  }

  /** Uploads go where the frozen evidence says, and every push receipt, and every push
      about to be recorded, has its upload. */
  ghost predicate Delivered(s: State) {
    && (s.pushed != [] ==> s.dir.evidence.Some? && s.dir.evidence.value.Whole?)
    && (forall k | 0 <= k < |s.pushed| ::
          s.dir.evidence.Some? && s.dir.evidence.value.Whole?
          && s.pushed[k].0 == s.dir.evidence.value.evidence.imageUri)
    && (forall p | p in s.dir.receipts :: p.PushReceipt? ==> UploadedAs(s.pushed, p.push))
    && (s.runner.RecordingPush? && s.runner.b.BuildReceipt? ==>
          UploadedAs(s.pushed, PushInputsOf(s.runner.ctx, s.runner.b)))
  }

  lemma UploadDelivers(s: State, a: Action)
    requires Inv(s) && Delivered(s) && Enabled(s, a) && a.Upload?
    ensures Delivered(Step(s, a))
  {
    var t := Step(s, a);
    var Pushing(ctx, b, sc, copy) := s.runner;
    assert forall k | 0 <= k < |s.pushed| :: t.pushed[k] == s.pushed[k];
    assert IsUpload(t.pushed[|s.pushed|], PushInputsOf(ctx, b));
    assert forall p | p in t.dir.receipts :: Of(p, PushStage) <==> p.PushReceipt?;
  }

  /** Nothing but an upload changes the log or gets a push recorded. */
  lemma OtherStepsKeepUploads(s: State, a: Action)
    requires Enabled(s, a) && !a.Upload?
    ensures Step(s, a).pushed == s.pushed
    ensures Step(s, a).runner.RecordingPush? ==> Step(s, a).runner == s.runner
  {
  }

  /** A push receipt is new only when the push being recorded is written. */
  lemma NewPushReceipt(s: State, a: Action, p: Receipt)
    requires Inv(s) && Enabled(s, a) && p in Step(s, a).dir.receipts && p.PushReceipt? && p !in s.dir.receipts
    ensures s.runner.RecordingPush? && s.runner.b.BuildReceipt? && p.push == PushInputsOf(s.runner.ctx, s.runner.b)
  {
    if Quiet(a) {
      QuietStepShape(s, a);
    }
  }

  lemma StepKeepsDelivered(s: State, a: Action)
    requires Inv(s) && Delivered(s) && Enabled(s, a)
    ensures Delivered(Step(s, a))
  {
    if a.Upload? {
      UploadDelivers(s, a);
    } else {
      OtherStepsKeepUploads(s, a);
      StepExtends(s, a);
      var t := Step(s, a);
      forall p | p in t.dir.receipts && p.PushReceipt? ensures UploadedAs(t.pushed, p.push) {
        if p !in s.dir.receipts {
          NewPushReceipt(s, a, p);
        }
      }
    }
  }

  lemma {:induction false} RunKeepsDelivered(s: State, run: seq<Action>)
    requires Inv(s) && Delivered(s) && CanRun(s, run)
    ensures Delivered(Run(s, run))
    decreases |run|
  {
    if run != [] {
      StepKeepsInv(s, run[0]);
      StepKeepsDelivered(s, run[0]);
      RunKeepsDelivered(Step(s, run[0]), run[1..]);
    }
  }

  /** Over every history: once anything was uploaded the evidence is whole, and every
      upload, recorded or not, went to the one address it names; and every push receipt
      has an upload of its artifact, with its digest, to its address. */
  lemma UploadsGoWhereTheEvidenceSays(run: seq<Action>)
    requires CanRun(INITIAL, run)
    ensures
      var s := Run(INITIAL, run);
      && (s.pushed != [] ==> s.dir.evidence.Some? && s.dir.evidence.value.Whole?)
      && (forall k | 0 <= k < |s.pushed| :: s.pushed[k].0 == s.dir.evidence.value.evidence.imageUri)
      && (forall p | p in s.dir.receipts && p.PushReceipt? ::
            exists k | 0 <= k < |s.pushed| ::
              && s.pushed[k].0 == p.push.imageUri && Sha(s.pushed[k].1) == p.push.artifactSha
              && s.pushed[k].1.manifest == Some(p.digest))
  {
    RunKeepsInv(INITIAL, run);
    RunKeepsDelivered(INITIAL, run);
    var s := Run(INITIAL, run);
    forall p | p in s.dir.receipts && p.PushReceipt?
      ensures exists k | 0 <= k < |s.pushed| ::
                && s.pushed[k].0 == p.push.imageUri && Sha(s.pushed[k].1) == p.push.artifactSha
                && s.pushed[k].1.manifest == Some(p.digest)
    {
      assert Backed(s.dir, p);
      var k :| 0 <= k < |s.pushed| && IsUpload(s.pushed[k], p.push);
    }
  }
}
