/** Histories that work out: what an undisturbed push does from start to finish, for every
    job, and what its resume does. They show that the pipeline delivers, and witness the
    failures the theorems leave room for. */
module ImagePipelineHistories {
  import opened Prelude
  import opened ImagePipeline

  ghost predicate Leads(run: seq<Action>, t: State) {
    CanRun(INITIAL, run) && Run(INITIAL, run) == t
  }

  lemma {:induction false} RunThenStep(s: State, run: seq<Action>, a: Action)
    requires CanRun(s, run) && Enabled(Run(s, run), a)
    ensures CanRun(s, run + [a]) && Run(s, run + [a]) == Step(Run(s, run), a)
    decreases |run|
  {
    if run == [] {
      assert run + [a] == [a];
      assert CanRun(Step(s, a), [a][1..]);
    } else {
      RunThenStep(Step(s, run[0]), run[1..], a);
      assert (run + [a])[1..] == run[1..] + [a];
    }
  }

  lemma Then(run: seq<Action>, t: State, a: Action) returns (longer: seq<Action>, u: State)
    requires Leads(run, t) && Enabled(t, a)
    ensures u == Step(t, a) && Leads(longer, u)
  {
    RunThenStep(INITIAL, run, a);
    longer, u := run + [a], Step(t, a);
  }

  /** A push: from where, at what time, and what its tools come up with. */
  datatype Job = Job(
    profile: string, sourceRef: string, build: BuildInputs, second: nat, now: int,
    image: Blob, manifest: Digest, database: string, sbom: Blob, report: Blob, done: int)

  predicate Good(j: Job) {
    j.image.manifest == Some(j.manifest) && j.now <= j.done
  }

  function First(j: Job): Context {
    Context(Push, false, j.profile, j.sourceRef, j.build, j.second, j.now)
  }

  function Again(j: Job, second: nat, now: int): Context {
    First(j).(resume := true, second := second, createdAt := now)
  }

  function Prepared(j: Job, second: nat, now: int, found: Found): Action {
    Prepare(j.profile, j.sourceRef, j.build, second, now, found)
  }

  function Built(j: Job): Receipt {
    BuildReceipt(j.build, Sha(j.image), j.manifest, j.now)
  }

  function ScanOfJob(j: Job): ScanInputs {
    ScanInputs(j.build, Sha(j.image), j.manifest, j.now, j.database)
  }

  function Scanned(j: Job): Receipt {
    ScanReceipt(ScanOfJob(j), Sha(j.sbom), Sha(j.report), j.done)
  }

  function Pushed(j: Job): Receipt {
    PushReceipt(PushInputs(j.build, ImageUri(First(j)), Sha(j.image), j.manifest), j.manifest)
  }

  function Finalized(j: Job, released: bool): Receipt {
    FinalReceipt(FinalInputs(Pushed(j).push, j.manifest, Sha(j.sbom), Sha(j.report)), released)
  }

  function Evidenced(j: Job): EvidenceFile {
    Whole(Evidence(j.profile, j.sourceRef, ImageUri(First(j)), j.build, j.now, j.done))
  }

  // ------------------------------------------------------------ the first push

  lemma BuildOnce(j: Job) returns (run: seq<Action>, t: State)
    requires Good(j)
    ensures Leads(run, t) && t.runner == HaveBuild(First(j), Built(j))
    ensures t.dir == Directory(true, Some(j.image), None, None, None, map[Built(j) := true], false)
    ensures t.builds == 1 && t.pushed == [] && t.scans == []
  {
    assert Leads([], INITIAL);
    run, t := Then([], INITIAL, Start(Push, false));
    assert Candidates(t.dir, BuildStage) == {};
    run, t := Then(run, t, Prepared(j, j.second, j.now, Nothing));
    run, t := Then(run, t, RunBuild(j.image));
    run, t := Then(run, t, ReadManifest);
    run, t := Then(run, t, Write(false));
  }

  lemma BuildAndLook(j: Job) returns (run: seq<Action>, t: State)
    requires Good(j)
    ensures Leads(run, t) && t.runner == Scanning(First(j), Built(j), ScanOfJob(j))
    ensures t.dir == Directory(true, Some(j.image), None, None, None, map[Built(j) := true], false)
    ensures t.builds == 1 && t.pushed == [] && t.scans == []
  {
    run, t := BuildOnce(j);
    run, t := Then(run, t, ReadHash);
    run, t := Then(run, t, ReadManifest);
    assert Candidates(t.dir, ScanStage) == {};
    run, t := Then(run, t, LookScan(j.database, Nothing));
  }

  /** The scan, of whatever is at the artifact path when it starts. */
  lemma ScanWhatIsThere(j: Job, run0: seq<Action>, t0: State, blob: Blob) returns (run: seq<Action>, t: State)
    requires Leads(run0, t0) && t0.runner == Scanning(First(j), Built(j), ScanOfJob(j))
    requires t0.dir == Directory(true, Some(blob), None, None, None, map[Built(j) := true], false)
    ensures Leads(run, t) && t.runner == HaveScan(First(j), Built(j), Scanned(j))
    ensures t.dir == t0.dir.(
      sbom := Some(j.sbom), scan := Some(j.report), receipts := map[Built(j) := true, Scanned(j) := true])
    ensures t.builds == t0.builds && t.pushed == t0.pushed && t.scans == t0.scans + [(ScanOfJob(j), blob)]
  {
    run, t := Then(run0, t0, WriteSbom(j.sbom));
    run, t := Then(run, t, WriteScan(j.report));
    run, t := Then(run, t, FinishScan(false, j.done));
  }

  lemma BuildAndScan(j: Job) returns (run: seq<Action>, t: State)
    requires Good(j)
    ensures Leads(run, t) && t.runner == HaveScan(First(j), Built(j), Scanned(j))
    ensures t.dir == Directory(
      true, Some(j.image), Some(j.sbom), Some(j.report), None, map[Built(j) := true, Scanned(j) := true], false)
    ensures t.builds == 1 && t.pushed == [] && t.scans == [(ScanOfJob(j), j.image)]
  {
    run, t := BuildAndLook(j);
    run, t := ScanWhatIsThere(j, run, t, j.image);
  }

  lemma FreezeEvidence(j: Job, run0: seq<Action>, t0: State) returns (run: seq<Action>, t: State)
    requires Good(j) && Leads(run0, t0) && t0.runner == HaveScan(First(j), Built(j), Scanned(j))
    requires t0.dir.evidence.None?
    ensures Leads(run, t)
    ensures t == t0.(
      dir := t0.dir.(evidence := Some(Evidenced(j))), runner := CheckingPush(First(j), Built(j), Scanned(j)))
  {
    run, t := Then(run0, t0, Freeze(false));
  }

  /** From a recorded scan to the private copy of the artifact. */
  lemma FreezeAndQuarantine(j: Job, run0: seq<Action>, t0: State) returns (run: seq<Action>, t: State)
    requires Good(j) && Leads(run0, t0) && t0.runner == HaveScan(First(j), Built(j), Scanned(j))
    requires t0.dir.receipts == map[Built(j) := true, Scanned(j) := true]
    requires t0.dir.evidence.None? && !t0.dir.finals
    ensures Leads(run, t)
    ensures t == t0.(
      dir := t0.dir.(evidence := Some(Evidenced(j))), runner := Quarantining(First(j), Built(j), Scanned(j)))
  {
    run, t := FreezeEvidence(j, run0, t0);
    assert Candidates(t.dir, PushStage) == {};
    run, t := Then(run, t, LookPush(Nothing));
  }

  lemma CopyAndUpload(j: Job, run0: seq<Action>, t0: State) returns (run: seq<Action>, t: State)
    requires Good(j) && Leads(run0, t0) && t0.runner == Quarantining(First(j), Built(j), Scanned(j))
    requires t0.dir.artifact == Some(j.image)
    ensures Leads(run, t)
    ensures t == t0.(
      runner := RecordingPush(First(j), Built(j), Scanned(j)), pushed := t0.pushed + [(ImageUri(First(j)), j.image)])
  {
    run, t := Then(run0, t0, Copy);
    run, t := Then(run, t, Upload(j.manifest));
  }

  /** From the copy to the push receipt. */
  lemma CopyAndPush(j: Job, run0: seq<Action>, t0: State) returns (run: seq<Action>, t: State)
    requires Good(j) && Leads(run0, t0) && t0.runner == Quarantining(First(j), Built(j), Scanned(j))
    requires t0.dir.receipts == map[Built(j) := true, Scanned(j) := true] && t0.dir.artifact == Some(j.image)
    ensures Leads(run, t) && t.runner == HavePush(First(j), Built(j), Scanned(j), Pushed(j), false)
    ensures t.dir == t0.dir.(receipts := map[Built(j) := true, Scanned(j) := true, Pushed(j) := true])
    ensures t.builds == t0.builds && t.scans == t0.scans && t.pushed == t0.pushed + [(ImageUri(First(j)), j.image)]
  {
    run, t := CopyAndUpload(j, run0, t0);
    run, t := Then(run, t, Write(false));
  }

  lemma PushOnce(j: Job) returns (run: seq<Action>, t: State)
    requires Good(j)
    ensures Leads(run, t) && t.runner == HavePush(First(j), Built(j), Scanned(j), Pushed(j), false)
    ensures t.dir == Directory(true, Some(j.image), Some(j.sbom), Some(j.report), Some(Evidenced(j)),
                               map[Built(j) := true, Scanned(j) := true, Pushed(j) := true], false)
    ensures t.builds == 1 && t.scans == [(ScanOfJob(j), j.image)] && t.pushed == [(ImageUri(First(j)), j.image)]
  {
    run, t := BuildAndScan(j);
    run, t := FreezeAndQuarantine(j, run, t);
    run, t := CopyAndPush(j, run, t);
  }

  /** The directory a finished push leaves behind. */
  function FinishedDirectory(j: Job, released: bool): Directory {
    Directory(true, Some(j.image), Some(j.sbom), Some(j.report), Some(Evidenced(j)),
              map[Built(j) := true, Scanned(j) := true, Pushed(j) := true, Finalized(j, released) := true], released)
  }

  /** An undisturbed push does its whole job: one build, one scan of what was built, one
      upload of it to its address, and all four receipts beside the evidence. */
  lemma PushDelivers(j: Job, released: bool, registry: Digest) returns (run: seq<Action>, t: State)
    requires Good(j)
    ensures Leads(run, t) && t.runner.Off? && t.dir == FinishedDirectory(j, released)
    ensures t.builds == 1 && t.scans == [(ScanOfJob(j), j.image)] && t.pushed == [(ImageUri(First(j)), j.image)]
  {
    run, t := PushOnce(j);
    assert Candidates(t.dir, FinalStage) == {};
    run, t := Then(run, t, LookFinal(Nothing, registry));
    run, t := Then(run, t, WriteFinals(released));
    run, t := Then(run, t, Write(false));
  }

  // ----------------------------------------------------------------- its resume

  /** A resumed push whose build and scan receipts are still good, up to the evidence. */
  lemma ResumeFindsBoth(j: Job, run0: seq<Action>, t0: State, second: nat, now: int)
      returns (run: seq<Action>, t: State)
    requires Good(j) && Leads(run0, t0) && t0.runner.Off? && t0.dir.exists_ && t0.dir.evidence.Some?
    requires t0.dir.artifact == Some(j.image) && t0.dir.sbom == Some(j.sbom) && t0.dir.scan == Some(j.report)
    requires Candidates(t0.dir, BuildStage) == {Built(j)} && Candidates(t0.dir, ScanStage) == {Scanned(j)}
    ensures Leads(run, t) && t == t0.(runner := HaveScan(Again(j, second, now), Built(j), Scanned(j)))
  {
    run, t := ResumeFindsBuild(j, run0, t0, second, now);
    run, t := Then(run, t, ReadHash);
    run, t := Then(run, t, ReadManifest);
    run, t := Then(run, t, LookScan(j.database, One(Scanned(j))));
  }

  lemma ResumeFindsBuild(j: Job, run0: seq<Action>, t0: State, second: nat, now: int)
      returns (run: seq<Action>, t: State)
    requires Leads(run0, t0) && t0.runner.Off? && t0.dir.exists_ && t0.dir.evidence.Some?
    requires Candidates(t0.dir, BuildStage) == {Built(j)}
    ensures Leads(run, t) && t == t0.(runner := HaveBuild(Again(j, second, now), Built(j)))
  {
    run, t := Then(run0, t0, Start(Push, true));
    assert t.dir == t0.dir;
    run, t := Then(run, t, Prepared(j, second, now, One(Built(j))));
  }
}
