/**
 Blu-ray and DVD remux executions share one record type and one file; each has
 its own validator and staging, and both use the same import transitions.
 */
module DiscMachine {
  import opened Common
  import opened RepairRecords

  // -------------------------------------------------------------- record

  datatype State =
    | Prepared | StagedState | PublishedState | RemuxFailed
    | ImportPrepared | ImportRequested | Imported | ImportFailed | OtherState(name: string)

  datatype WireSource = WireSource(path: seq<string>, digest: FileDigest, sizeBytes: int)

  /** A staging request; `main` is the playlist or the navigation file, and only a DVD has a title number. */
  datatype StageRequest = StageRequest(
    executionId: ExecutionId, caseId: string, capabilityId: string, rootId: string, requestId: string,
    main: WireSource, sources: seq<WireSource>, titleNumber: int, durationMs: int, chapters: int,
    tracks: seq<Track>)

  datatype Execution = Execution(
    version: Version, executionId: ExecutionId, auth: AuthorizedRemux, dvd: Option<AuthorizedDvd>, state: State,
    preparedAt: Time, updatedAt: Time, stage: Option<StageRequest>, dvdStage: Option<StageRequest>,
    artifact: Option<Artifact>, published: Option<Published>, failure: Option<Failure>,
    import_: Option<Import>, confirmation: Option<Confirmation>)

  const NO_FILE := SourceFile("", Fingerprint(0, 0, 0, 0))
  const NO_REMUX := AuthorizedRemux("", "", NO_FILE, [], 0, 0, 0, [], 0)

  function CaseId(r: Execution): string { if r.dvd.Some? then r.dvd.value.caseId else r.auth.caseId }

  // ---------------------------------------------------------- source sizes

  function SumSizes(files: seq<SourceFile>): int {
    if files == [] then 0 else SumSizes(files[..|files| - 1]) + files[|files| - 1].fingerprint.sizeBytes
  }

  predicate SoundFiles(files: seq<SourceFile>) {
    forall file <- files :: file.fileId != "" && file.fingerprint.sizeBytes > 0
  }

  predicate RemuxComplete(a: AuthorizedRemux) {
    && Sha256Id(a.caseId) && a.capabilityId != "" && a.playlist.fileId != "" && a.playlist.fingerprint.sizeBytes > 0
    && a.clips != [] && a.sourceBytes > 0 && a.durationMs > 0 && a.chapters >= 0 && a.tracks != []
  }

  /** The declared total is the sum of the clips' positive sizes. */
  predicate RemuxShape(a: AuthorizedRemux) {
    RemuxComplete(a) && SoundFiles(a.clips) && SumSizes(a.clips) == a.sourceBytes
  }

  predicate DvdComplete(a: AuthorizedDvd) {
    && Sha256Id(a.caseId) && a.capabilityId != "" && a.navigation.fileId != ""
    && a.navigation.fingerprint.sizeBytes > 0 && |a.sources| >= 3 && a.sourceBytes > 0 && a.titleNumber > 0
    && a.durationMs > 0 && a.chapters > 0 && a.tracks != []
  }

  predicate DvdShape(a: AuthorizedDvd) {
    && DvdComplete(a) && SoundFiles(a.sources) && SumSizes(a.sources) == a.sourceBytes
    && exists file <- a.sources :: file.fileId == a.navigation.fileId
  }

  lemma {:induction false} SumGrows(files: seq<SourceFile>, i: nat)
    requires SoundFiles(files) && i <= |files|
    ensures 0 <= SumSizes(files[..i]) <= SumSizes(files)
    decreases |files|
  {
    if i < |files| {
      var front := files[..|files| - 1];
      assert forall file <- front :: file in files;
      assert files[|files| - 1] in files;
      SumGrows(front, i);
      assert front[..i] == files[..i];
    } else {
      assert files[..i] == files;
      if files != [] {
        assert forall file <- files[..|files| - 1] :: file in files;
        assert files[|files| - 1] in files;
        SumGrows(files[..|files| - 1], |files| - 1);
        assert files[..|files| - 1][..|files| - 1] == files[..|files| - 1];
      }
    }
  }

  /**
   The size loop: it subtracts before it adds, so the running total never
   leaves the 64-bit range whatever sizes it is given, and it accepts exactly the
   file lists whose positive sizes add up to the declared total.
   */
  method CheckSources(files: seq<SourceFile>, total: int, wanted: string) returns (ok: bool, found: bool)
    requires 0 < total <= INT64_MAX
    requires forall file <- files :: -INT64_MAX - 1 <= file.fingerprint.sizeBytes <= INT64_MAX
    ensures ok <==> SoundFiles(files) && SumSizes(files) == total
    ensures ok ==> (found <==> exists file <- files :: file.fileId == wanted)
  {
    var sourceBytes := 0;
    found := false;
    for i := 0 to |files|
      invariant 0 <= sourceBytes <= total
      invariant SoundFiles(files[..i]) && sourceBytes == SumSizes(files[..i])
      invariant found <==> exists file <- files[..i] :: file.fileId == wanted
    {
      var size := files[i].fingerprint.sizeBytes;
      assert files[..i + 1] == files[..i] + [files[i]];
      assert files[i] in files;
      if files[i].fileId == "" || size <= 0 || size > total - sourceBytes {
        if SoundFiles(files) { SumGrows(files, i + 1); }
        return false, found;
      }
      found := found || files[i].fileId == wanted;
      sourceBytes := sourceBytes + size;
    }
    assert files[..|files|] == files;
    ok := sourceBytes == total;
  }

  method CheckRemuxShape(a: AuthorizedRemux) returns (ok: bool)
    requires a.sourceBytes <= INT64_MAX
    requires forall file <- a.clips :: -INT64_MAX - 1 <= file.fingerprint.sizeBytes <= INT64_MAX
    ensures ok <==> RemuxShape(a)
  {
    if !RemuxComplete(a) { return false; }
    var found;
    ok, found := CheckSources(a.clips, a.sourceBytes, "");
  }

  method CheckDvdShape(a: AuthorizedDvd) returns (ok: bool)
    requires a.sourceBytes <= INT64_MAX
    requires forall file <- a.sources :: -INT64_MAX - 1 <= file.fingerprint.sizeBytes <= INT64_MAX
    ensures ok <==> DvdShape(a)
  {
    if !DvdComplete(a) { return false; }
    var found;
    ok, found := CheckSources(a.sources, a.sourceBytes, a.navigation.fileId);
    ok := ok && found;
  }

  // ----------------------------------------------------------- contracts

  predicate EncodableSource(s: WireSource) {
    PathComponents(s.path) && ValidDigest(s.digest) && 1 <= s.sizeBytes <= INT64_MAX
  }

  predicate EncodableTrack(t: Track) {
    && (t.kind == "video" || t.kind == "audio" || t.kind == "subtitles")
    && 1 <= |t.codec| <= 128 && |t.language| <= 32
  }

  predicate EncodableRequest(r: StageRequest) {
    && ValidExecutionId(r.executionId) && Sha256Id(r.caseId) && OpaqueId(r.capabilityId)
    && OpaqueId(r.rootId) && OpaqueId(r.requestId)
    && EncodableSource(r.main) && |r.sources| <= 1024 && (forall source <- r.sources :: EncodableSource(source))
    && 1 <= r.durationMs <= 604800000 && r.chapters <= 4096
    && 1 <= |r.tracks| <= 32 && forall track <- r.tracks :: EncodableTrack(track)
  }

  predicate EncodableBluray(r: StageRequest) { EncodableRequest(r) && r.sources != [] && r.chapters >= 0 }

  predicate EncodableDvd(r: StageRequest) {
    EncodableRequest(r) && |r.sources| >= 3 && r.chapters >= 1 && 1 <= r.titleNumber <= 128
  }

  /** Each disc operation has a schema of its own. */
  predicate EncodableFailure(op: Operation, f: FailureBody) {
    f.operation == op && ReasonOf(op, f.reason) && OpaqueId(f.requestId)
  }

  predicate EncodableStageReply(op: Operation, r: Reply<Staged>) {
    WellSplit(r) && (if r.kind.Succeeded? then EncodableStaged(r.success.value) else EncodableFailure(op, r.failure.value))
  }

  predicate EncodablePublishReply(op: Operation, r: Reply<PublishedBody>) {
    WellSplit(r) && (if r.kind.Succeeded? then EncodablePublished(r.success.value) else EncodableFailure(op, r.failure.value))
  }

  predicate SameSources(wire: seq<WireSource>, files: seq<SourceFile>) {
    && |wire| == |files|
    && forall i :: 0 <= i < |files| ==>
         wire[i].digest == Strict(files[i].fingerprint) && wire[i].sizeBytes == files[i].fingerprint.sizeBytes
  }

  predicate BlurayMatches(r: Execution, q: StageRequest) {
    && q.executionId == r.executionId && q.caseId == r.auth.caseId && q.capabilityId == r.auth.capabilityId
    && q.durationMs == r.auth.durationMs && q.chapters == r.auth.chapters
    && q.main.digest == Strict(r.auth.playlist.fingerprint) && q.main.sizeBytes == r.auth.playlist.fingerprint.sizeBytes
    && SameSources(q.sources, r.auth.clips) && q.tracks == r.auth.tracks
  }

  predicate DvdMatches(r: Execution, q: StageRequest) {
    && r.dvd.Some?
    && var a := r.dvd.value;
       && q.executionId == r.executionId && q.caseId == a.caseId && q.capabilityId == a.capabilityId
       && q.titleNumber == a.titleNumber && q.durationMs == a.durationMs && q.chapters == a.chapters
       && q.main.digest == Strict(a.navigation.fingerprint) && q.main.sizeBytes == a.navigation.fingerprint.sizeBytes
       && SameSources(q.sources, a.sources) && q.tracks == a.tracks
  }

  /** The published file name is a digest of the artifact id; the id itself stands for it. */
  function PublishedName(artifactId: string): string { "radarr-repair-" + artifactId + ".mkv" }

  /** The destination drops `depth` components of the main file's path and adds the published name. */
  predicate PathMatches(main: seq<string>, depth: nat, artifactId: string, path: seq<string>) {
    && depth + 1 <= |main| && |path| == |main| - depth
    && path[..|path| - 1] == main[..|main| - depth - 1]
    && path[|path| - 1] == PublishedName(artifactId)
  }

  const BLURAY_DEPTH := 2
  const DVD_DEPTH := 1

  predicate WithinTolerance(actual: int, expected: int, tolerance: int) {
    -tolerance <= actual - expected <= tolerance
  }

  predicate OutputAccepted(e: Evidence, durationMs: int, chapters: int, tolerance: int) {
    && "matroska" in e.formatNames && e.durationMs.Some? && e.chapters == chapters
    && WithinTolerance(e.durationMs.value, durationMs, tolerance) && e.streamsMatch
  }

  // ------------------------------------------------------------ validator

  predicate ValidTimes(r: Execution) {
    r.preparedAt != ZERO_TIME && r.updatedAt != ZERO_TIME && r.preparedAt <= r.updatedAt
  }

  predicate NoResults(r: Execution) {
    && r.artifact.None? && r.published.None? && r.failure.None? && r.import_.None? && r.confirmation.None?
  }

  predicate ValidImportState(r: Execution) {
    && r.import_.Some? && ValidImport(r.import_.value, r.preparedAt, r.updatedAt)
    && (r.state.ImportPrepared? ==> r.import_.value.commandId.None?)
    && (r.state.ImportRequested? || r.state.ImportFailed? ==> r.import_.value.commandId.Some?)
    && if r.state.Imported? then r.confirmation.Some? && ValidConfirmation(r.confirmation.value)
       else r.confirmation.None?
  }

  predicate ValidBlurayStage(r: Execution) {
    r.stage.Some? && BlurayMatches(r, r.stage.value) && EncodableBluray(r.stage.value)
  }

  predicate BlurayPublished(r: Execution)
    requires r.stage.Some? && r.artifact.Some?
  {
    && r.published.Some? && r.published.value.rootId == r.stage.value.rootId
    && PathMatches(r.stage.value.main.path, BLURAY_DEPTH, r.artifact.value.id, r.published.value.path)
  }

  predicate ValidBluray(r: Execution) {
    && r.version == BlurayV1 && r.dvd.None? && r.dvdStage.None?
    && RemuxShape(r.auth) && r.executionId == RemuxId(r.auth) && ValidTimes(r)
    && match r.state
       case Prepared => r.stage.None? && NoResults(r)
       case StagedState =>
         && ValidBlurayStage(r) && ValidArtifact(r.artifact) && r.failure.None? && r.published.None?
         && r.import_.None? && r.confirmation.None?
       case PublishedState =>
         && ValidBlurayStage(r) && ValidArtifact(r.artifact) && r.failure.None? && BlurayPublished(r)
         && r.import_.None? && r.confirmation.None?
       case RemuxFailed =>
         && r.failure.Some? && r.failure.value.reason != NoReason && r.published.None?
         && r.import_.None? && r.confirmation.None? && ValidBlurayStage(r)
         && (match r.failure.value.operation
             case StageBluray => r.artifact.None?
             case PublishBluray => ValidArtifact(r.artifact)
             case _ => false)
       case ImportPrepared | ImportRequested | Imported | ImportFailed =>
         && ValidBlurayStage(r) && ValidArtifact(r.artifact) && r.failure.None? && BlurayPublished(r)
         && ValidImportState(r)
       case OtherState(_) => false
  }

  predicate ValidDvdStage(r: Execution) {
    r.dvdStage.Some? && DvdMatches(r, r.dvdStage.value) && EncodableDvd(r.dvdStage.value)
  }

  predicate DvdPublished(r: Execution)
    requires r.dvdStage.Some? && r.artifact.Some?
  {
    && r.published.Some? && r.published.value.rootId == r.dvdStage.value.rootId
    && PathMatches(r.dvdStage.value.main.path, DVD_DEPTH, r.artifact.value.id, r.published.value.path)
  }

  predicate ValidDvd(r: Execution) {
    && r.version == DvdV1 && r.dvd.Some? && r.stage.None? && r.auth == NO_REMUX
    && DvdShape(r.dvd.value) && r.executionId == DvdId(r.dvd.value) && ValidTimes(r)
    && match r.state
       case Prepared => r.dvdStage.None? && NoResults(r)
       case RemuxFailed =>
         && ValidDvdStage(r) && r.failure.Some? && r.failure.value.reason != NoReason && r.published.None?
         && r.import_.None? && r.confirmation.None?
         && (match r.failure.value.operation
             case StageDvd => r.artifact.None?
             case PublishDvd => ValidArtifact(r.artifact)
             case _ => false)
       case StagedState =>
         && ValidDvdStage(r) && r.failure.None? && ValidArtifact(r.artifact)
         && r.published.None? && r.import_.None? && r.confirmation.None?
       case PublishedState =>
         && ValidDvdStage(r) && r.failure.None? && ValidArtifact(r.artifact) && DvdPublished(r)
         && r.import_.None? && r.confirmation.None?
       case ImportPrepared | ImportRequested | Imported | ImportFailed =>
         && ValidDvdStage(r) && r.failure.None? && ValidArtifact(r.artifact) && DvdPublished(r)
         && ValidImportState(r)
       case OtherState(_) => false
  }

  predicate Valid(r: Execution) { if r.version == DvdV1 then ValidDvd(r) else ValidBluray(r) }

  // ---------------------------------------------------------- transitions

  datatype Event =
    | PrepareBluray(auth: AuthorizedRemux)
    | PrepareDvd(dvdAuth: AuthorizedDvd)
    | StageBlurayRemux(request: StageRequest, reply: Reply<Staged>)
    | StageDvdRemux(dvdRequest: StageRequest, dvdReply: Reply<Staged>)
    | PublishBlurayRemux(published: Reply<PublishedBody>)
    | PublishDvdRemux(dvdPublished: Reply<PublishedBody>)
    | PrepareImport(command: Command, historyBefore: int)
    | MarkRequested(commandId: int)
    | MarkImported(imported: Confirmation)
    | MarkImportFailed

  predicate IsPrepare(e: Event) { e.PrepareBluray? || e.PrepareDvd? }

  datatype Env = Env(
    bluray: Option<AuthorizedRemux>, dvd: Option<AuthorizedDvd>, template: Option<ImportTemplate>)

  function StagedRecord(r: Execution, s: Staged): Execution {
    r.(state := StagedState, artifact := Some(Artifact(s.artifactId, s.fingerprint, s.sizeBytes)))
  }

  function FailedRecord(r: Execution, op: Operation, reason: Reason): Execution {
    r.(state := RemuxFailed, failure := Some(Failure(op, reason)))
  }

  predicate Correlated(q: StageRequest, reply: Reply<Staged>) {
    RequestIdOf(reply, (s: Staged) => s.requestId) == q.requestId
  }

  function StageBlurayStep(r: Execution, q: StageRequest, reply: Reply<Staged>): Outcome<Execution>
    requires EncodableStageReply(StageBluray, reply)
  {
    if !r.state.Prepared? || !BlurayMatches(r, q) || !Correlated(q, reply) then Rejected(Mismatch)
    else
      var r' := r.(stage := Some(q));
      if reply.failure.Some? then Changed(FailedRecord(r', StageBluray, reply.failure.value.reason))
      else if !OutputAccepted(reply.success.value.evidence, r.auth.durationMs, r.auth.chapters, 5000)
      then Rejected(Mismatch)
      else Changed(StagedRecord(r', reply.success.value))
  }

  function StageDvdStep(r: Execution, q: StageRequest, reply: Reply<Staged>): Outcome<Execution>
    requires EncodableStageReply(StageDvd, reply)
  {
    if r.version != DvdV1 || !r.state.Prepared? || !DvdMatches(r, q) || !Correlated(q, reply) then Rejected(Mismatch)
    else
      var r' := r.(dvdStage := Some(q));
      if reply.failure.Some? then Changed(FailedRecord(r', StageDvd, reply.failure.value.reason))
      else if r.dvd.value.chapters <= 0
              || !OutputAccepted(reply.success.value.evidence, r.dvd.value.durationMs, r.dvd.value.chapters, 15000)
      then Rejected(Mismatch)
      else Changed(StagedRecord(r', reply.success.value))
  }

  /** The shared part of publishing: the artifact, root and path must be the staged ones. */
  function PublishStep(r: Execution, q: Option<StageRequest>, depth: nat, op: Operation, reply: Reply<PublishedBody>)
    : Outcome<Execution>
    requires EncodablePublishReply(op, reply)
  {
    if !r.state.StagedState? || r.artifact.None? || q.None? then Rejected(WrongState)
    else if reply.failure.Some? then Changed(FailedRecord(r, op, reply.failure.value.reason))
    else
      var s := reply.success.value;
      if s.artifactId != r.artifact.value.id || s.fingerprint != r.artifact.value.fingerprint
         || s.rootId != q.value.rootId || !PathMatches(q.value.main.path, depth, r.artifact.value.id, s.path)
      then Rejected(Mismatch)
      else Changed(r.(state := PublishedState, published := Some(Published(s.rootId, s.path))))
  }

  function BeginImport(r: Execution, command: Command, historyBefore: int, at: Time): Outcome<Execution> {
    if r.import_.Some? then
      if r.import_.value.command == command && r.import_.value.historyBefore == historyBefore
      then Unchanged else Rejected(Conflict)
    else if !r.state.PublishedState? then Rejected(WrongState)
    else Changed(r.(state := ImportPrepared, import_ := Some(Import(command, historyBefore, at, None))))
  }

  function RequestImport(r: Execution, commandId: int): Outcome<Execution>
    requires r.state.ImportPrepared? ==> r.import_.Some?
  {
    match r.state
    case ImportPrepared =>
      Changed(r.(state := ImportRequested, import_ := Some(r.import_.value.(commandId := Some(commandId)))))
    case ImportRequested =>
      if r.import_.Some? && r.import_.value.commandId == Some(commandId) then Unchanged else Rejected(Conflict)
    case _ => Rejected(WrongState)
  }

  function ConfirmImport(r: Execution, c: Confirmation): Outcome<Execution> {
    if r.import_.None? || !ConfirmsFile(c, r.import_.value.command.file)
       || c.historyId <= r.import_.value.historyBefore
    then Rejected(Mismatch)
    else
      match r.state
      case ImportPrepared | ImportRequested => Changed(r.(state := Imported, confirmation := Some(c)))
      case Imported => if r.confirmation == Some(c) then Unchanged else Rejected(Conflict)
      case _ => Rejected(WrongState)
  }

  function FailImport(r: Execution): Outcome<Execution> {
    match r.state
    case ImportRequested => Changed(r.(state := ImportFailed))
    case ImportFailed => Unchanged
    case _ => Rejected(WrongState)
  }

  /** What is checked about the input before the file is opened. */
  predicate GoodInput(env: Env, e: Event) {
    match e
    case PrepareBluray(_) | PrepareDvd(_) => true
    case StageBlurayRemux(q, reply) => EncodableBluray(q) && EncodableStageReply(StageBluray, reply)
    case StageDvdRemux(q, reply) => EncodableDvd(q) && EncodableStageReply(StageDvd, reply)
    case PublishBlurayRemux(reply) => EncodablePublishReply(PublishBluray, reply)
    case PublishDvdRemux(reply) => EncodablePublishReply(PublishDvd, reply)
    case PrepareImport(command, historyBefore) => ValidImportRequest(env.template, command, historyBefore)
    case MarkRequested(commandId) => commandId > 0
    case MarkImported(c) => ValidConfirmation(c)
    case MarkImportFailed => true
  }

  function Update(r: Execution, env: Env, e: Event, at: Time): Outcome<Execution>
    requires Valid(r) && !IsPrepare(e) && GoodInput(env, e)
  {
    match e
    case StageBlurayRemux(q, reply) => StageBlurayStep(r, q, reply)
    case StageDvdRemux(q, reply) => StageDvdStep(r, q, reply)
    case PublishBlurayRemux(reply) => PublishStep(r, r.stage, BLURAY_DEPTH, PublishBluray, reply)
    case PublishDvdRemux(reply) =>
      if r.version != DvdV1 then Rejected(WrongState) else PublishStep(r, r.dvdStage, DVD_DEPTH, PublishDvd, reply)
    case PrepareImport(command, historyBefore) => BeginImport(r, command, historyBefore, at)
    case MarkRequested(commandId) => RequestImport(r, commandId)
    case MarkImported(c) => ConfirmImport(r, c)
    case MarkImportFailed => FailImport(r)
  }

  // ----------------------------------------------------------- store call

  function Store(r: Execution): Effect<Execution> { if Valid(r) then Written(r) else Refused(InvalidRecord) }

  function FreshBluray(auth: AuthorizedRemux, at: Time): Execution {
    Execution(BlurayV1, RemuxId(auth), auth, None, Prepared, at, at, None, None, None, None, None, None, None)
  }

  function FreshDvd(auth: AuthorizedDvd, at: Time): Execution {
    Execution(DvdV1, DvdId(auth), NO_REMUX, Some(auth), Prepared, at, at, None, None, None, None, None, None, None)
  }

  function PrepareBlurayCall(file: Option<Execution>, env: Env, auth: AuthorizedRemux, at: Time): Effect<Execution> {
    if at == ZERO_TIME then Refused(TimeRequired)
    else if !RemuxShape(auth) then Refused(BadInput)
    else if env.bluray != Some(auth) then Refused(NotAuthorized)
    else if file.None? then Store(FreshBluray(auth, at))
    else if !Valid(file.value) then Refused(Unreadable)
    else if file.value.executionId != RemuxId(auth) || file.value.auth != auth then Refused(Conflict)
    else Kept
  }

  function PrepareDvdCall(file: Option<Execution>, env: Env, auth: AuthorizedDvd, at: Time): Effect<Execution> {
    if at == ZERO_TIME then Refused(TimeRequired)
    else if !DvdShape(auth) then Refused(BadInput)
    else if env.dvd != Some(auth) then Refused(NotAuthorized)
    else if file.None? then Store(FreshDvd(auth, at))
    else if !Valid(file.value) then Refused(Unreadable)
    else if file.value.version != DvdV1 || file.value.executionId != DvdId(auth) || file.value.dvd != Some(auth)
    then Refused(Conflict)
    else Kept
  }

  function UpdateCall(file: Option<Execution>, caseId: string, env: Env, e: Event, at: Time): Effect<Execution>
    requires !IsPrepare(e)
  {
    if !GoodInput(env, e) then Refused(BadInput)
    else if at == ZERO_TIME then Refused(TimeRequired)
    else if !Sha256Id(caseId) then Refused(InvalidCase)
    else if file.None? then Refused(NotPrepared)
    else if !Valid(file.value) then Refused(Unreadable)
    else if CaseId(file.value) != caseId then Refused(NotPrepared)
    else if at < file.value.updatedAt then Refused(TimeBackwards)
    else
      match Update(file.value, env, e, at)
      case Rejected(error) => Refused(error)
      case Unchanged => Kept
      case Changed(next) => Store(next.(updatedAt := at))
  }

  function Deliver(file: Option<Execution>, caseId: string, env: Env, e: Event, at: Time): Effect<Execution> {
    match e
    case PrepareBluray(auth) => PrepareBlurayCall(file, env, auth, at)
    case PrepareDvd(auth) => PrepareDvdCall(file, env, auth, at)
    case _ => UpdateCall(file, caseId, env, e, at)
  }
}
