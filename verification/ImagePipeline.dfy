/** The resumable image pipeline: what `build` and `push` invocations do to one
    output directory. The directory survives every invocation; an invocation may
    stop anywhere, a file being written may be left torn, and the artifact and scan
    files may be replaced or removed by others between any two steps.

    Hashes are collision-free: the hash of some bytes stands for those bytes, and a
    receipt file named by the hash of its payload is named by that payload. */
module ImagePipeline {
  import opened Prelude
  import Decimal

  type Digest = string

  /** A file. `manifest` is the OCI manifest digest its bytes determine, if they
      are an OCI archive at all. */
  datatype Blob = Blob(bytes: string, manifest: Option<Digest>)

  datatype Sha = Sha(of: Blob)

  /** Everything a build is bound to: the commit; the operator configuration, by its
      hash, of which the image repository is spelled out; source archive, Dockerfile,
      lock file and builder identity. */
  datatype BuildInputs = BuildInputs(commit: string, repository: string, bindings: string)

  datatype ScanInputs = ScanInputs(
    build: BuildInputs, artifactSha: Sha, manifest: Digest, buildCreatedAt: int, database: string)

  datatype PushInputs = PushInputs(build: BuildInputs, imageUri: string, artifactSha: Sha, manifest: Digest)

  datatype FinalInputs = FinalInputs(push: PushInputs, digest: Digest, sbomSha: Sha, scanSha: Sha)

  datatype Receipt =
    | BuildReceipt(build: BuildInputs, artifactSha: Sha, manifest: Digest, createdAt: int)
    | ScanReceipt(scan: ScanInputs, sbomSha: Sha, scanSha: Sha, completedAt: int)
    | PushReceipt(push: PushInputs, digest: Digest)
    | FinalReceipt(final: FinalInputs, released: bool)

  datatype Evidence = Evidence(
    profile: string, sourceRef: string, imageUri: string, build: BuildInputs, createdAt: int, completedAt: int)

  datatype EvidenceFile = Torn | Whole(evidence: Evidence)

  /** receipts maps each receipt file, named by its payload, to whether its bytes
      are that whole payload. finals: a final evidence output exists. */
  datatype Directory = Directory(
    exists_: bool, artifact: Option<Blob>, sbom: Option<Blob>, scan: Option<Blob>,
    evidence: Option<EvidenceFile>, receipts: map<Receipt, bool>, finals: bool)

  // ---------------------------------------------------------------- receipts

  datatype Stage = BuildStage | ScanStage | PushStage | FinalStage

  predicate Of(r: Receipt, stage: Stage) {
    match stage
    case BuildStage => r.BuildReceipt?
    case ScanStage => r.ScanReceipt?
    case PushStage => r.PushReceipt?
    case FinalStage => r.FinalReceipt?
  }

  /** validate_receipt_outputs: the files a receipt speaks of still hash to what it
      says. A final receipt must name a release manifest, which only a release tag has. */
  predicate OutputsValid(dir: Directory, r: Receipt) {
    match r
    case BuildReceipt(_, sha, manifest, _) =>
      dir.artifact.Some? && Sha(dir.artifact.value) == sha && dir.artifact.value.manifest == Some(manifest)
    case ScanReceipt(inputs, sbomSha, scanSha, completedAt) =>
      && inputs.buildCreatedAt <= completedAt
      && dir.sbom.Some? && Sha(dir.sbom.value) == sbomSha
      && dir.scan.Some? && Sha(dir.scan.value) == scanSha
    case PushReceipt(_, _) => true
    case FinalReceipt(_, released) => released
  }

  predicate Candidate(dir: Directory, stage: Stage, r: Receipt) {
    r in dir.receipts && dir.receipts[r] && Of(r, stage) && OutputsValid(dir, r)
  }

  function Candidates(dir: Directory, stage: Stage): set<Receipt> {
    set r | r in dir.receipts && Candidate(dir, stage, r)
  }

  /** A receipt file of the stage is there, whole or torn, valid or stale. */
  predicate FileExists(dir: Directory, stage: Stage) {
    exists r | r in dir.receipts :: Of(r, stage)
  }

  /** What looking for the stage's receipt finds. */
  datatype Found = Nothing | One(receipt: Receipt) | Ambiguous

  predicate Finds(dir: Directory, stage: Stage, found: Found) {
    match found
    case Nothing => Candidates(dir, stage) == {}
    case One(r) => Candidates(dir, stage) == {r}
    case Ambiguous => |Candidates(dir, stage)| > 1
  }

  // -------------------------------------------------------------- invocation

  datatype Command = Build | Push

  datatype Context = Context(
    command: Command, resume: bool, profile: string, sourceRef: string,
    build: BuildInputs, second: nat, createdAt: int)

  datatype Runner =
    | Off
    | Preparing(command: Command, resume: bool)
    | Building(ctx: Context)
    | Hashing(ctx: Context)
    | RecordingBuild(ctx: Context, manifest: Digest)
    | HaveBuild(ctx: Context, b: Receipt)
    | HashMatched(ctx: Context, b: Receipt)
    | Verified(ctx: Context, b: Receipt)
    | Scanning(ctx: Context, b: Receipt, inputs: ScanInputs)
    | Inventoried(ctx: Context, b: Receipt, inputs: ScanInputs)
    | RecordingScan(ctx: Context, b: Receipt, inputs: ScanInputs)
    | HaveScan(ctx: Context, b: Receipt, sc: Receipt)
    | CheckingPush(ctx: Context, b: Receipt, sc: Receipt)
    | Quarantining(ctx: Context, b: Receipt, sc: Receipt)
    | Pushing(ctx: Context, b: Receipt, sc: Receipt, copy: Blob)
    | RecordingPush(ctx: Context, b: Receipt, sc: Receipt)
    | HavePush(ctx: Context, b: Receipt, sc: Receipt, p: Receipt, reused: bool)
    | Finalizing(ctx: Context, b: Receipt, sc: Receipt, p: Receipt)
    | RecordingFinal(ctx: Context, b: Receipt, sc: Receipt, p: Receipt, released: bool)

  /** pushed logs every upload to the registry, scans every artifact an inventory was
      made of, with the inputs of that scan; builds counts container builds. */
  datatype State = State(
    dir: Directory, runner: Runner, pushed: seq<(string, Blob)>, scans: seq<(ScanInputs, Blob)>, builds: nat)

  datatype Action =
    | Start(command: Command, resume: bool)
    | Prepare(profile: string, sourceRef: string, build: BuildInputs, second: nat, now: int, found: Found)
    | RunBuild(output: Blob)
    | ReadManifest
    | ReadHash
    | Write(torn: bool)
    | LookScan(database: string, found: Found)
    | WriteSbom(output: Blob)
    | WriteScan(output: Blob)
    | FinishScan(torn: bool, now: int)
    | Freeze(torn: bool)
    | LookPush(found: Found)
    | Copy
    | Upload(reported: Digest)
    | LookFinal(found: Found, registry: Digest)
    | WriteFinals(released: bool)
    | Stop
    | Replace(artifact: Option<Blob>, sbom: Option<Blob>, scan: Option<Blob>)

  // ------------------------------------------------------------ image address

  predicate Digit(c: char) {
    '0' <= c <= '9'
  }

  /** Where the number at i ends: 0 alone, or digits that do not start with 0. */
  function NumberEnd(t: string, i: nat): (end: nat)
    ensures i <= end
  {
    if i < |t| && t[i] == '0' then i + 1 else DigitsEnd(t, i)
  }

  function DigitsEnd(t: string, i: nat): (end: nat)
    ensures i <= end
    decreases |t| - i
  {
    if i < |t| && Digit(t[i]) then DigitsEnd(t, i + 1) else i
  }

  predicate SuffixChar(c: char) {
    Digit(c) || 'A' <= c <= 'Z' || 'a' <= c <= 'z' || c == '.' || c == '-'
  }

  /** v1.2.3, with or without a suffix after '.' or '-'. */
  predicate Version(t: string) {
    && t != "" && t[0] == 'v'
    && var major := NumberEnd(t, 1);
    && 1 < major < |t| && t[major] == '.'
    && var minor := NumberEnd(t, major + 1);
    && major + 1 < minor < |t| && t[minor] == '.'
    && var patch := NumberEnd(t, minor + 1);
    && minor + 1 < patch <= |t|
    && (patch < |t| ==>
          && (t[patch] == '.' || t[patch] == '-') && patch + 1 < |t|
          && forall i | patch < i < |t| :: SuffixChar(t[i]))
  }

  const TAG_PREFIX := "refs/tags/"

  /** release_tag. */
  function ReleaseTag(sourceRef: string): Option<string> {
    var name := if TAG_PREFIX <= sourceRef then sourceRef[|TAG_PREFIX|..] else sourceRef;
    if Version(name) then Some(name) else None
  }

  /** image_coordinates: a release tag names the image by itself; any other source is
      named by its short commit and the second it was built in. */
  function ImageUri(ctx: Context): string {
    var tag, commit := ReleaseTag(ctx.sourceRef), ctx.build.commit;
    ctx.build.repository + ":" + (if ctx.profile == "evaluation" then "eval-" else "")
      + if tag.Some? then tag.value else (if |commit| > 7 then commit[..7] else commit) + "-" + Decimal.Text(ctx.second)
  }

  // -------------------------------------------------------------------- steps

  function Refuse(s: State): State {
    s.(runner := Off)
  }

  /** write_stage_receipt through write_immutable_file: an existing file is accepted
      only if it already holds these bytes; a torn write ends the invocation. */
  function WriteReceipt(s: State, r: Receipt, torn: bool, next: Runner): State {
    if r in s.dir.receipts then
      if s.dir.receipts[r] then s.(runner := next) else Refuse(s)
    else
      s.(dir := s.dir.(receipts := s.dir.receipts[r := !torn]), runner := if torn then Off else next)
  }

  function ExpectedEvidence(ctx: Context, b: Receipt, sc: Receipt): Evidence
    requires b.BuildReceipt? && sc.ScanReceipt?
  {
    Evidence(ctx.profile, ctx.sourceRef, ImageUri(ctx), ctx.build, b.createdAt, sc.completedAt)
  }

  function PushInputsOf(ctx: Context, b: Receipt): PushInputs
    requires b.BuildReceipt?
  {
    PushInputs(ctx.build, ImageUri(ctx), b.artifactSha, b.manifest)
  }

  function FinalInputsOf(ctx: Context, b: Receipt, sc: Receipt, p: Receipt): FinalInputs
    requires b.BuildReceipt? && sc.ScanReceipt? && p.PushReceipt?
  {
    FinalInputs(PushInputsOf(ctx, b), p.digest, sc.sbomSha, sc.scanSha)
  }

  function OnStart(s: State, command: Command, resume: bool): State {
    if s.dir.exists_ && !resume then s
    else if resume && s.dir.evidence.None? && s.dir.receipts != map[] then s
    else if resume && command == Build && (FileExists(s.dir, PushStage) || FileExists(s.dir, FinalStage)) then s
    else s.(dir := s.dir.(exists_ := true), runner := Preparing(command, resume))
  }

  function OnPrepare(s: State, ctx: Context, found: Found): State {
    if ctx.resume && found.Ambiguous? then Refuse(s)
    else if ctx.resume && found.One? && found.receipt.BuildReceipt? && found.receipt.build == ctx.build then
      s.(runner := HaveBuild(ctx, found.receipt))
    else if s.dir.artifact.Some? then Refuse(s)
    else s.(runner := Building(ctx))
  }

  function OnReadHash(s: State): State
    requires s.runner.HaveBuild? && s.runner.b.BuildReceipt?
  {
    if s.dir.artifact.Some? && Sha(s.dir.artifact.value) == s.runner.b.artifactSha then
      s.(runner := HashMatched(s.runner.ctx, s.runner.b))
    else
      Refuse(s)
  }

  function OnReadManifest(s: State): State
    requires s.runner.Hashing? || (s.runner.HashMatched? && s.runner.b.BuildReceipt?)
  {
    if s.dir.artifact.None? || s.dir.artifact.value.manifest.None? then Refuse(s)
    else if s.runner.Hashing? then s.(runner := RecordingBuild(s.runner.ctx, s.dir.artifact.value.manifest.value))
    else if s.dir.artifact.value.manifest.value == s.runner.b.manifest then
      s.(runner := Verified(s.runner.ctx, s.runner.b))
    else Refuse(s)
  }

  function OnLookScan(s: State, database: string, found: Found): State
    requires s.runner.Verified? && s.runner.b.BuildReceipt?
  {
    var Verified(ctx, b) := s.runner;
    var inputs := ScanInputs(ctx.build, b.artifactSha, b.manifest, b.createdAt, database);
    if ctx.resume && found.Ambiguous? then Refuse(s)
    else if ctx.resume && found.One? && found.receipt.ScanReceipt? && found.receipt.scan == inputs then
      s.(runner := HaveScan(ctx, b, found.receipt))
    else if s.dir.sbom.Some? || s.dir.scan.Some? then Refuse(s)
    else s.(runner := Scanning(ctx, b, inputs))
  }

  /** The inventory is made of whatever is at the artifact path by then; the hash was
      checked earlier and is not checked again before the scan is recorded. */
  function OnWriteSbom(s: State, output: Blob): State
    requires s.runner.Scanning?
  {
    var Scanning(ctx, b, inputs) := s.runner;
    if s.dir.artifact.None? then Refuse(s)
    else
      s.(dir := s.dir.(sbom := Some(output)), scans := s.scans + [(inputs, s.dir.artifact.value)],
         runner := Inventoried(ctx, b, inputs))
  }

  function OnWriteScan(s: State, output: Blob): State
    requires s.runner.Inventoried?
  {
    var Inventoried(ctx, b, inputs) := s.runner;
    if s.dir.scan.Some? && s.dir.scan.value != output then Refuse(s)
    else s.(dir := s.dir.(scan := Some(output)), runner := RecordingScan(ctx, b, inputs))
  }

  function OnFinishScan(s: State, torn: bool, now: int): State
    requires s.runner.RecordingScan?
  {
    var RecordingScan(ctx, b, inputs) := s.runner;
    if s.dir.sbom.None? || s.dir.scan.None? then Refuse(s)
    else
      var sc := ScanReceipt(inputs, Sha(s.dir.sbom.value), Sha(s.dir.scan.value), now);
      WriteReceipt(s, sc, torn, HaveScan(ctx, b, sc))
  }

  /** build-evidence.json is written once and afterwards must match exactly. */
  function OnFreeze(s: State, torn: bool): State
    requires s.runner.HaveScan? && s.runner.b.BuildReceipt? && s.runner.sc.ScanReceipt?
  {
    var HaveScan(ctx, b, sc) := s.runner;
    var expected := ExpectedEvidence(ctx, b, sc);
    var next := if ctx.command == Build then Off else CheckingPush(ctx, b, sc);
    if expected.completedAt < expected.createdAt then Refuse(s)
    else if s.dir.evidence.Some? then
      if ctx.resume && s.dir.evidence.value == Whole(expected) then s.(runner := next) else Refuse(s)
    else
      s.(dir := s.dir.(evidence := Some(if torn then Torn else Whole(expected))), runner := if torn then Off else next)
  }

  function OnLookPush(s: State, found: Found): State
    requires s.runner.CheckingPush? && s.runner.b.BuildReceipt?
  {
    var CheckingPush(ctx, b, sc) := s.runner;
    var exact := ctx.resume && found.One? && found.receipt.PushReceipt? && found.receipt.push == PushInputsOf(ctx, b);
    if s.dir.finals && !FileExists(s.dir, FinalStage) then Refuse(s)
    else if ctx.resume && found.Ambiguous? then Refuse(s)
    else if (FileExists(s.dir, PushStage) || FileExists(s.dir, FinalStage)) && !exact then Refuse(s)
    else if exact then s.(runner := HavePush(ctx, b, sc, found.receipt, true))
    else s.(runner := Quarantining(ctx, b, sc))
  }

  /** The upload works from a private copy, checked against both receipt hashes. */
  function OnCopy(s: State): State
    requires s.runner.Quarantining? && s.runner.b.BuildReceipt?
  {
    var Quarantining(ctx, b, sc) := s.runner;
    if && s.dir.artifact.Some?
       && Sha(s.dir.artifact.value) == b.artifactSha
       && s.dir.artifact.value.manifest == Some(b.manifest)
    then s.(runner := Pushing(ctx, b, sc, s.dir.artifact.value))
    else Refuse(s)
  }

  function OnUpload(s: State, reported: Digest): State
    requires s.runner.Pushing? && s.runner.b.BuildReceipt?
  {
    var Pushing(ctx, b, sc, copy) := s.runner;
    var sent := s.(pushed := s.pushed + [(ImageUri(ctx), copy)]);
    if reported == b.manifest then sent.(runner := RecordingPush(ctx, b, sc)) else Refuse(sent)
  }

  function OnLookFinal(s: State, found: Found, registry: Digest): State
    requires s.runner.HavePush? && s.runner.b.BuildReceipt? && s.runner.sc.ScanReceipt? && s.runner.p.PushReceipt?
  {
    var HavePush(ctx, b, sc, p, reused) := s.runner;
    var exact := ctx.resume && found.One? && found.receipt.FinalReceipt?
      && found.receipt.final == FinalInputsOf(ctx, b, sc, p);
    if ctx.resume && found.Ambiguous? then Refuse(s)
    else if FileExists(s.dir, FinalStage) && !exact then Refuse(s)
    else if reused && registry != p.digest then Refuse(s)
    else if exact then s.(runner := Off)
    else s.(runner := Finalizing(ctx, b, sc, p))
  }

  predicate Enabled(s: State, a: Action) {
    match a
    case Start(_, _) => s.runner.Off?
    case Prepare(_, _, _, _, _, found) => s.runner.Preparing? && Finds(s.dir, BuildStage, found)
    case RunBuild(_) => s.runner.Building?
    case ReadManifest => s.runner.Hashing? || (s.runner.HashMatched? && s.runner.b.BuildReceipt?)
    case ReadHash => s.runner.HaveBuild? && s.runner.b.BuildReceipt?
    case Write(_) =>
      || s.runner.RecordingBuild?
      || (s.runner.RecordingPush? && s.runner.b.BuildReceipt?)
      || (s.runner.RecordingFinal? && s.runner.b.BuildReceipt? && s.runner.sc.ScanReceipt? && s.runner.p.PushReceipt?)
    case LookScan(_, found) => s.runner.Verified? && s.runner.b.BuildReceipt? && Finds(s.dir, ScanStage, found)
    case WriteSbom(_) => s.runner.Scanning?
    case WriteScan(_) => s.runner.Inventoried?
    case FinishScan(_, _) => s.runner.RecordingScan?
    case Freeze(_) => s.runner.HaveScan? && s.runner.b.BuildReceipt? && s.runner.sc.ScanReceipt?
    case LookPush(found) => s.runner.CheckingPush? && s.runner.b.BuildReceipt? && Finds(s.dir, PushStage, found)
    case Copy => s.runner.Quarantining? && s.runner.b.BuildReceipt?
    case Upload(_) => s.runner.Pushing? && s.runner.b.BuildReceipt?
    case LookFinal(found, _) =>
      && s.runner.HavePush? && s.runner.b.BuildReceipt? && s.runner.sc.ScanReceipt? && s.runner.p.PushReceipt?
      && Finds(s.dir, FinalStage, found)
    case WriteFinals(_) => s.runner.Finalizing?
    case Stop => true
    case Replace(_, _, _) => true
  }

  function OnWrite(s: State, torn: bool): State
    requires Enabled(s, Write(torn))
  {
    match s.runner
    case RecordingBuild(ctx, manifest) =>
      if s.dir.artifact.None? then Refuse(s)
      else
        var b := BuildReceipt(ctx.build, Sha(s.dir.artifact.value), manifest, ctx.createdAt);
        WriteReceipt(s, b, torn, HaveBuild(ctx, b))
    case RecordingPush(ctx, b, sc) =>
      var p := PushReceipt(PushInputsOf(ctx, b), b.manifest);
      WriteReceipt(s, p, torn, HavePush(ctx, b, sc, p, false))
    case RecordingFinal(ctx, b, sc, p, released) =>
      WriteReceipt(s, FinalReceipt(FinalInputsOf(ctx, b, sc, p), released), torn, Off)
  }

  function Step(s: State, a: Action): State
    requires Enabled(s, a)
  {
    match a
    case Start(command, resume) => OnStart(s, command, resume)
    case Prepare(profile, sourceRef, build, second, now, found) =>
      OnPrepare(s, Context(s.runner.command, s.runner.resume, profile, sourceRef, build, second, now), found)
    case RunBuild(output) =>
      s.(dir := s.dir.(artifact := Some(output)), runner := Hashing(s.runner.ctx), builds := s.builds + 1)
    case ReadManifest => OnReadManifest(s)
    case ReadHash => OnReadHash(s)
    case Write(torn) => OnWrite(s, torn)
    case LookScan(database, found) => OnLookScan(s, database, found)
    case WriteSbom(output) => OnWriteSbom(s, output)
    case WriteScan(output) => OnWriteScan(s, output)
    case FinishScan(torn, now) => OnFinishScan(s, torn, now)
    case Freeze(torn) => OnFreeze(s, torn)
    case LookPush(found) => OnLookPush(s, found)
    case Copy => OnCopy(s)
    case Upload(reported) => OnUpload(s, reported)
    case LookFinal(found, registry) => OnLookFinal(s, found, registry)
    case WriteFinals(released) =>
      if released && s.dir.finals then Refuse(s)
      else s.(dir := s.dir.(finals := s.dir.finals || released),
              runner := RecordingFinal(s.runner.ctx, s.runner.b, s.runner.sc, s.runner.p, released))
    case Stop => s.(runner := Off)
    case Replace(artifact, sbom, scan) => s.(dir := s.dir.(artifact := artifact, sbom := sbom, scan := scan))
  }

  const INITIAL := State(Directory(false, None, None, None, None, map[], false), Off, [], [], 0)

  predicate CanRun(s: State, run: seq<Action>)
    decreases |run|
  {
    run == [] || (Enabled(s, run[0]) && CanRun(Step(s, run[0]), run[1..]))
  }

  function Run(s: State, run: seq<Action>): State
    requires CanRun(s, run)
    decreases |run|
  {
    if run == [] then s else Run(Step(s, run[0]), run[1..])
  }
}
