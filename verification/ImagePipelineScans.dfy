/** Whether what was pushed is what was scanned. A scan receipt names the artifact hash
    that was checked before the inventory was made; nothing checks it again until the
    push. The machine logs which artifact each inventory was really made of. */
module ImagePipelineScans {
  import opened Prelude
  import opened ImagePipeline
  import opened ImagePipelineProofs
  import opened ImagePipelineHistories

  // ------------------------------------------------------------ honest scans

  /** Every inventory was made of the artifact its scan inputs name. */
  ghost predicate HonestScans(s: State) {
    forall k | 0 <= k < |s.scans| :: Sha(s.scans[k].1) == s.scans[k].0.artifactSha
  }

  /** From the hash check to the inventory. */
  predicate InWindow(runner: Runner) {
    runner.HashMatched? || runner.Verified? || runner.Scanning?
  }

  /** Something else than the artifact that was checked is at its path. */
  predicate Disturbed(s: State) {
    && InWindow(s.runner) && s.runner.b.BuildReceipt? && s.dir.artifact.Some?
    && Sha(s.dir.artifact.value) != s.runner.b.artifactSha
  }

  predicate DisturbedRead(s: State, a: Action) {
    a.WriteSbom? && Disturbed(s)
  }

  ghost predicate NoDisturbedRead(s: State, run: seq<Action>)
    requires CanRun(s, run)
    decreases |run|
  {
    run == [] || (!DisturbedRead(s, run[0]) && NoDisturbedRead(Step(s, run[0]), run[1..]))
  }

  lemma OnlyInventoriesAreLogged(s: State, a: Action)
    requires Enabled(s, a) && !a.WriteSbom?
    ensures Step(s, a).scans == s.scans
  {
  }

  lemma InventoryHonestExactly(s: State, output: Blob)
    requires Inv(s) && s.runner.Scanning?
    ensures HonestScans(Step(s, WriteSbom(output))) <==> HonestScans(s) && !Disturbed(s)
  {
    var t := Step(s, WriteSbom(output));
    assert forall k | 0 <= k < |s.scans| :: t.scans[k] == s.scans[k];
    if s.dir.artifact.Some? {
      assert t.scans[|s.scans|] == (s.runner.inputs, s.dir.artifact.value);
    }
  }

  lemma {:induction false} RunHonestExactly(s: State, run: seq<Action>)
    requires Inv(s) && CanRun(s, run)
    ensures HonestScans(Run(s, run)) <==> HonestScans(s) && NoDisturbedRead(s, run)
    decreases |run|
  {
    if run != [] {
      StepKeepsInv(s, run[0]);
      if run[0].WriteSbom? {
        InventoryHonestExactly(s, run[0].output);
      } else {
        OnlyInventoriesAreLogged(s, run[0]);
      }
      RunHonestExactly(Step(s, run[0]), run[1..]);
    }
  }

  /** Over every history, all inventories are of the artifact their scan names if and only
      if none was made while something else was at the artifact path. */
  lemma ScansHonestExactly(run: seq<Action>)
    requires CanRun(INITIAL, run)
    ensures HonestScans(Run(INITIAL, run)) <==> NoDisturbedRead(INITIAL, run)
  {
    RunHonestExactly(INITIAL, run);
  }

  /** A replacement of the artifact between its check and its inventory. */
  predicate Swaps(s: State, a: Action) {
    a.Replace? && InWindow(s.runner) && a.artifact != s.dir.artifact
  }

  ghost predicate NoSwap(s: State, run: seq<Action>)
    requires CanRun(s, run)
    decreases |run|
  {
    run == [] || (!Swaps(s, run[0]) && NoSwap(Step(s, run[0]), run[1..]))
  }

  /** Nothing but such a replacement disturbs a scan. */
  lemma SwapsDisturb(s: State, a: Action)
    requires Enabled(s, a) && !Disturbed(s) && !Swaps(s, a)
    ensures !Disturbed(Step(s, a))
  {
  }

  lemma {:induction false} NoSwapNoDisturbedRead(s: State, run: seq<Action>)
    requires CanRun(s, run) && !Disturbed(s) && NoSwap(s, run)
    ensures NoDisturbedRead(s, run)
    decreases |run|
  {
    if run != [] {
      SwapsDisturb(s, run[0]);
      NoSwapNoDisturbedRead(Step(s, run[0]), run[1..]);
    }
  }

  // ---------------------------------------------------------- scanned uploads

  ghost predicate HasScan(scans: seq<(ScanInputs, Blob)>, inputs: ScanInputs) {
    exists k | 0 <= k < |scans| :: scans[k].0 == inputs
  }

  /** Every scan receipt, and every scan under way past its inventory, has one. */
  ghost predicate Logged(s: State) {
    && (forall sc | sc in s.dir.receipts :: sc.ScanReceipt? ==> HasScan(s.scans, sc.scan))
    && (s.runner.Inventoried? || s.runner.RecordingScan? ==> HasScan(s.scans, s.runner.inputs))
  }

  lemma InventoryKeepsLogged(s: State, output: Blob)
    requires Logged(s) && s.runner.Scanning?
    ensures Logged(Step(s, WriteSbom(output)))
  {
    var t := Step(s, WriteSbom(output));
    if s.dir.artifact.Some? {
      assert t.scans[|s.scans|].0 == s.runner.inputs;
      forall sc | sc in s.dir.receipts && sc.ScanReceipt? ensures HasScan(t.scans, sc.scan) {
        var k :| 0 <= k < |s.scans| && s.scans[k].0 == sc.scan;
        assert t.scans[k] == s.scans[k];
      }
    }
  }

  lemma StepKeepsLogged(s: State, a: Action)
    requires Logged(s) && Enabled(s, a)
    ensures Logged(Step(s, a))
  {
    if a.WriteSbom? {
      InventoryKeepsLogged(s, a.output);
    } else if a.FinishScan? {
      ReceiptKeepsLogged(s, a);
    } else {
      OnlyInventoriesAreLogged(s, a);
      ScanReceiptsStay(s, a);
    }
  }

  lemma ReceiptKeepsLogged(s: State, a: Action)
    requires Logged(s) && Enabled(s, a) && a.FinishScan?
    ensures Logged(Step(s, a))
  {
  }

  /** Nothing else records a scan or gets past an inventory. */
  lemma ScanReceiptsStay(s: State, a: Action)
    requires Enabled(s, a) && !a.WriteSbom? && !a.FinishScan?
    ensures forall r | r in Step(s, a).dir.receipts :: r.ScanReceipt? ==> r in s.dir.receipts
    ensures
      var t := Step(s, a);
      t.runner.Inventoried? || t.runner.RecordingScan? ==>
        (s.runner.Inventoried? || s.runner.RecordingScan?) && t.runner.inputs == s.runner.inputs
  {
  }

  lemma {:induction false} RunKeepsLogged(s: State, run: seq<Action>)
    requires Logged(s) && CanRun(s, run)
    ensures Logged(Run(s, run))
    decreases |run|
  {
    if run != [] {
      StepKeepsLogged(s, run[0]);
      RunKeepsLogged(Step(s, run[0]), run[1..]);
    }
  }

  ghost predicate WasScanned(s: State, blob: Blob) {
    exists k | 0 <= k < |s.scans| :: s.scans[k].1 == blob
  }

  /** With honest scans every uploaded artifact, byte for byte, had its inventory made. */
  lemma UploadsWereScanned(run: seq<Action>)
    requires CanRun(INITIAL, run) && NoDisturbedRead(INITIAL, run)
    ensures
      var s := Run(INITIAL, run);
      forall k | 0 <= k < |s.pushed| :: WasScanned(s, s.pushed[k].1)
  {
    RunKeepsInv(INITIAL, run);
    RunKeepsLogged(INITIAL, run);
    ScansHonestExactly(run);
    var s := Run(INITIAL, run);
    forall k | 0 <= k < |s.pushed| ensures WasScanned(s, s.pushed[k].1) {
      assert UploadBacked(s.dir, s.pushed[k].1);
      var b, sc :| Recorded(s.dir, b) && Recorded(s.dir, sc) && Covers(b, sc, s.pushed[k].1);
      var j :| 0 <= j < |s.scans| && s.scans[j].0 == sc.scan;
      assert Sha(s.scans[j].1) == Sha(s.pushed[k].1);
    }
  }

  /** In particular if nobody replaces the artifact between its check and its inventory. */
  lemma NoSwapUploadsWereScanned(run: seq<Action>)
    requires CanRun(INITIAL, run) && NoSwap(INITIAL, run)
    ensures
      var s := Run(INITIAL, run);
      forall k | 0 <= k < |s.pushed| :: WasScanned(s, s.pushed[k].1)
  {
    NoSwapNoDisturbedRead(INITIAL, run);
    UploadsWereScanned(run);
  }

  /** How it fails, for every push: the artifact is exchanged for any other while the
      inventory is made and put back before the push. It is pushed, and was never scanned. */
  lemma UnscannedPushHappens(j: Job, other: Blob)
    requires Good(j) && other != j.image
    ensures exists run ::
      && CanRun(INITIAL, run)
      && var s := Run(INITIAL, run);
      && Pushed(j) in s.dir.receipts && s.pushed == [(ImageUri(First(j)), j.image)] && !WasScanned(s, j.image)
  {
    var run, t := BuildAndLook(j);
    run, t := Then(run, t, Replace(Some(other), None, None));
    run, t := ScanWhatIsThere(j, run, t, other);
    run, t := Then(run, t, Replace(Some(j.image), t.dir.sbom, t.dir.scan));
    run, t := FreezeAndQuarantine(j, run, t);
    run, t := CopyAndPush(j, run, t);
    assert !WasScanned(t, j.image);
  }
}
