/**
 The join execution record: its validator, its guarded transitions and the
 store call that reads, checks, updates and writes it.
 */
module JoinMachine {
  import opened Common
  import opened RepairRecords

  // -------------------------------------------------------------- record

  datatype State =
    | Prepared | ArtifactReady | DiscardPending | PublishedState | Discarded | JoinFailed
    | ImportPrepared | ImportRequested | Imported | ImportFailed | OtherState(name: string)

  datatype Rejection =
    | InvalidStageRequest | RequestNotAuthorized | InvalidStageResponse | ResponseNotCorrelated | StageFailed
    | SizeMismatch | DurationUnavailable | DurationOutside | ContainerMismatch | LayoutMismatch

  datatype Execution = Execution(
    version: Version, executionId: ExecutionId, auth: AuthorizedJoin, state: State,
    preparedAt: Time, updatedAt: Time, stage: Option<seq<Rejection>>, artifact: Option<Artifact>,
    published: Option<Published>, failure: Option<Failure>, import_: Option<Import>,
    confirmation: Option<Confirmation>)

  // ----------------------------------------------------------- contracts

  datatype StagePart = StagePart(fileId: string, digest: FileDigest, path: seq<string>)

  datatype StageRequest = StageRequest(
    executionId: ExecutionId, caseId: string, capabilityId: string, rootId: string, requestId: string,
    sourceBytes: int, durationMs: int, toleranceMs: int, streamCount: int, container: Container,
    parts: seq<StagePart>)

  predicate Encodable(r: StageRequest) {
    && ValidExecutionId(r.executionId) && Sha256Id(r.caseId) && OpaqueId(r.capabilityId)
    && OpaqueId(r.rootId) && OpaqueId(r.requestId)
    && 1 <= r.sourceBytes <= INT64_MAX && 1 <= r.durationMs <= INT64_MAX && 0 <= r.toleranceMs <= INT64_MAX
    && 1 <= r.streamCount <= 8192 && !r.container.OtherContainer?
    && 2 <= |r.parts| <= 128
    && forall part <- r.parts :: OpaqueId(part.fileId) && ValidDigest(part.digest) && PathComponents(part.path)
  }

  /** An authorisation has the right shape when a stage request for it, with placeholder ids and paths, is encodable. */
  predicate Shape(a: AuthorizedJoin) {
    && Sha256Id(a.caseId) && OpaqueId(a.capabilityId)
    && 1 <= a.sourceBytes <= INT64_MAX && 1 <= a.durationMs <= INT64_MAX && 0 <= a.toleranceMs <= INT64_MAX
    && 1 <= |a.streams| <= 8192 && !a.container.OtherContainer?
    && 2 <= |a.parts| <= 128
    && forall part <- a.parts :: OpaqueId(part.fileId)
  }

  predicate EncodableStage(r: Reply<Staged>) {
    WellSplit(r) && (if r.kind.Succeeded? then EncodableStaged(r.success.value) else EncodableJoinFailure(r.failure.value))
  }

  predicate EncodablePublish(r: Reply<PublishedBody>) {
    WellSplit(r) && (if r.kind.Succeeded? then EncodablePublished(r.success.value) else EncodableJoinFailure(r.failure.value))
  }

  predicate EncodableDiscard(r: Reply<DiscardedBody>) {
    WellSplit(r) && (if r.kind.Succeeded? then EncodableDiscarded(r.success.value) else EncodableJoinFailure(r.failure.value))
  }

  // --------------------------------------------------------- verification

  predicate RequestMatches(r: StageRequest, a: AuthorizedJoin) {
    && r.caseId == a.caseId && r.capabilityId == a.capabilityId && r.sourceBytes == a.sourceBytes
    && r.durationMs == a.durationMs && r.toleranceMs == a.toleranceMs && r.streamCount == |a.streams|
    && r.container == a.container && |r.parts| == |a.parts|
    && forall i :: 0 <= i < |r.parts| ==>
         r.parts[i].fileId == a.parts[i].fileId && r.parts[i].digest == Strict(a.parts[i].fingerprint)
  }

  function When(condition: bool, r: Rejection): seq<Rejection> { if condition then [r] else [] }

  function FormatName(c: Container): string {
    match c case Avi => "avi" case Mkv => "matroska" case Mp4 => "mp4" case OtherContainer(_) => ""
  }

  function OutputRejections(a: AuthorizedJoin, e: Evidence, sizeBytes: int): seq<Rejection> {
    When(e.sizeBytes.None? || e.sizeBytes.value <= 0 || e.sizeBytes.value != sizeBytes, SizeMismatch)
    + (if e.durationConflict || e.durationMs.None? then [DurationUnavailable]
       else When(!(-a.toleranceMs <= e.durationMs.value - a.durationMs <= a.toleranceMs), DurationOutside))
    + When(a.container.OtherContainer? || FormatName(a.container) !in e.formatNames, ContainerMismatch)
    + When(!e.streamsMatch, LayoutMismatch)
  }

  function Verify(a: AuthorizedJoin, request: StageRequest, reply: Reply<Staged>): seq<Rejection> {
    if !Encodable(request) then [InvalidStageRequest]
    else if !EncodableStage(reply) then [InvalidStageResponse]
    else
      When(!RequestMatches(request, a), RequestNotAuthorized)
      + When(RequestIdOf(reply, (s: Staged) => s.requestId) != request.requestId, ResponseNotCorrelated)
      + (if reply.kind.FailedKind? then [StageFailed]
         else OutputRejections(a, reply.success.value.evidence, reply.success.value.sizeBytes))
  }

  // ------------------------------------------------------------ validator

  predicate ValidDestination(a: Artifact, p: Published) {
    EncodablePublished(PublishedBody(a.id, a.fingerprint, p.rootId, p.path, "request:stored"))
  }

  predicate HasArtifact(r: Execution, rejected: bool, published: bool)
    requires r.stage.Some?
  {
    && ValidArtifact(r.artifact)
    && (r.stage.value != []) == rejected
    && if published then r.published.Some? && ValidDestination(r.artifact.value, r.published.value)
       else r.published.None?
  }

  predicate BeforeImport(r: Execution, rejected: bool, published: bool)
    requires r.stage.Some?
  {
    HasArtifact(r, rejected, published) && r.import_.None? && r.confirmation.None?
  }

  predicate HasImport(r: Execution, commandRequired: bool, confirmationRequired: bool)
    requires r.stage.Some?
  {
    && HasArtifact(r, false, true)
    && r.import_.Some? && ValidImport(r.import_.value, r.preparedAt, r.updatedAt)
    && (commandRequired ==> r.import_.value.commandId.Some?)
    && (r.state.ImportPrepared? ==> r.import_.value.commandId.None?)
    && if confirmationRequired then
         && r.confirmation.Some? && ValidConfirmation(r.confirmation.value)
         && ConfirmsFile(r.confirmation.value, r.import_.value.command.file)
         && r.confirmation.value.historyId > r.import_.value.historyBefore
       else r.confirmation.None?
  }

  predicate ValidFailure(f: Failure) {
    (f.operation.StageJoin? || f.operation.Publish? || f.operation.Discard?) && ReasonOf(f.operation, f.reason)
  }

  predicate ValidResult(r: Execution)
    requires r.stage.Some?
  {
    && (r.state.JoinFailed? <==> r.failure.Some?)
    && (r.failure.Some? ==> ValidFailure(r.failure.value))
    && match r.state
       case ArtifactReady => BeforeImport(r, false, false)
       case DiscardPending | Discarded => BeforeImport(r, true, false)
       case PublishedState => BeforeImport(r, false, true)
       case ImportPrepared => HasImport(r, false, false)
       case ImportRequested | ImportFailed => HasImport(r, true, false)
       case Imported => HasImport(r, false, true)
       case JoinFailed =>
         (match r.failure.value.operation
          case StageJoin => r.artifact.None? && r.published.None? && r.stage.value != []
                            && r.import_.None? && r.confirmation.None?
          case Publish => BeforeImport(r, false, false)
          case Discard => BeforeImport(r, true, false)
          case _ => true)
       case _ => false
  }

  predicate Valid(r: Execution) {
    && r.version == JoinV2 && Sha256Id(r.auth.caseId) && Shape(r.auth)
    && (r.executionId == JoinId(r.auth) || r.executionId == LegacyJoinId(r.auth))
    && r.preparedAt != ZERO_TIME && r.updatedAt != ZERO_TIME && r.preparedAt <= r.updatedAt
    && if r.state.Prepared? then
         && r.stage.None? && r.artifact.None? && r.published.None? && r.failure.None?
         && r.import_.None? && r.confirmation.None?
       else r.stage.Some? && ValidResult(r)
  }

  /** A discarded join from before the current identity is rechecked by a later preparation. */
  predicate NeedsRecheck(r: Execution) { r.state.Discarded? && r.executionId != JoinId(r.auth) }

  // ---------------------------------------------------------- transitions

  datatype Event =
    | Prepare(auth: AuthorizedJoin)
    | Stage(staged: AuthorizedJoin, request: StageRequest, stageReply: Reply<Staged>)
    | RecordPublish(publishReply: Reply<PublishedBody>)
    | RecordDiscard(discardReply: Reply<DiscardedBody>)
    | PrepareImport(command: Command, historyBefore: int)
    | MarkRequested(commandId: int)
    | MarkImported(imported: Confirmation)
    | MarkImportFailed

  /** What the stored case and the effective plan currently allow. */
  datatype Env = Env(authorized: Option<AuthorizedJoin>, template: Option<ImportTemplate>)

  datatype StageOutcome = StageOutcome(
    state: State, rejections: seq<Rejection>, artifact: Option<Artifact>, failure: Option<Failure>)

  function OutcomeOf(reply: Reply<Staged>, rejections: seq<Rejection>): StageOutcome
    requires WellSplit(reply)
  {
    if reply.kind.FailedKind? then
      StageOutcome(JoinFailed, rejections, None, Some(Failure(StageJoin, reply.failure.value.reason)))
    else
      var s := reply.success.value;
      StageOutcome(if rejections == [] then ArtifactReady else DiscardPending, rejections,
                   Some(Artifact(s.artifactId, s.fingerprint, s.sizeBytes)), None)
  }

  function RecordStage(r: Execution, e: Event): Outcome<Execution>
    requires e.Stage? && EncodableStage(e.stageReply)
  {
    var rejections := Verify(e.staged, e.request, e.stageReply);
    var outcome := OutcomeOf(e.stageReply, rejections);
    if r.auth != e.staged || e.request.executionId != r.executionId then Rejected(Mismatch)
    else if r.stage.Some? then
      if r.stage.value == rejections && r.artifact == outcome.artifact
         && (!outcome.state.JoinFailed? || r.failure == outcome.failure)
      then Unchanged else Rejected(Conflict)
    else if !r.state.Prepared? then Rejected(WrongState)
    else Changed(r.(state := outcome.state, stage := Some(rejections), artifact := outcome.artifact,
                    failure := outcome.failure))
  }

  predicate PublishesArtifact(a: Artifact, p: PublishedBody) {
    p.artifactId == a.id && p.fingerprint == a.fingerprint
  }

  predicate RepeatedFailure(r: Execution, op: Operation, failure: Option<FailureBody>) {
    && r.state.JoinFailed? && r.failure.Some? && r.failure.value.operation == op
    && failure.Some? && r.failure.value.reason == failure.value.reason
  }

  function PublishJoin(r: Execution, reply: Reply<PublishedBody>): Outcome<Execution>
    requires EncodablePublish(reply)
  {
    if r.state.PublishedState? then
      if && reply.kind.Succeeded? && r.artifact.Some? && r.published.Some?
         && PublishesArtifact(r.artifact.value, reply.success.value)
         && r.published.value == Published(reply.success.value.rootId, reply.success.value.path)
      then Unchanged else Rejected(Conflict)
    else if RepeatedFailure(r, Publish, reply.failure) then Unchanged
    else if !r.state.ArtifactReady? || r.artifact.None? then Rejected(WrongState)
    else if reply.kind.FailedKind? then
      Changed(r.(state := JoinFailed, failure := Some(Failure(Publish, reply.failure.value.reason))))
    else if !PublishesArtifact(r.artifact.value, reply.success.value) then Rejected(Mismatch)
    else Changed(r.(state := PublishedState,
                    published := Some(Published(reply.success.value.rootId, reply.success.value.path))))
  }

  predicate DiscardsArtifact(a: Artifact, d: DiscardedBody) {
    d.artifactId == a.id && d.fingerprint == a.fingerprint
  }

  function DiscardJoin(r: Execution, reply: Reply<DiscardedBody>): Outcome<Execution>
    requires EncodableDiscard(reply)
    requires r.state.Discarded? ==> r.artifact.Some?
  {
    if r.state.Discarded? then
      if reply.kind.Succeeded? && DiscardsArtifact(r.artifact.value, reply.success.value)
      then Unchanged else Rejected(Conflict)
    else if RepeatedFailure(r, Discard, reply.failure) then Unchanged
    else if !r.state.DiscardPending? || r.artifact.None? then Rejected(WrongState)
    else if reply.kind.FailedKind? then
      Changed(r.(state := JoinFailed, failure := Some(Failure(Discard, reply.failure.value.reason))))
    else if !DiscardsArtifact(r.artifact.value, reply.success.value) then Rejected(Mismatch)
    else Changed(r.(state := Discarded))
  }

  function BeginImport(r: Execution, command: Command, historyBefore: int, at: Time): Outcome<Execution> {
    if r.import_.Some? then
      if r.import_.value.command == command then Unchanged else Rejected(Conflict)
    else if !r.state.PublishedState? then Rejected(WrongState)
    else Changed(r.(state := ImportPrepared, import_ := Some(Import(command, historyBefore, at, None))))
  }

  function RequestImport(r: Execution, commandId: int): Outcome<Execution> {
    match r.state
    case ImportPrepared =>
      if r.import_.None? then Rejected(WrongState)
      else Changed(r.(state := ImportRequested, import_ := Some(r.import_.value.(commandId := Some(commandId)))))
    case ImportRequested =>
      if r.import_.Some? && r.import_.value.commandId == Some(commandId) then Unchanged else Rejected(Conflict)
    case _ => Rejected(WrongState)
  }

  function ConfirmImport(r: Execution, c: Confirmation): Outcome<Execution> {
    if r.import_.None? || !ConfirmsFile(c, r.import_.value.command.file) then Rejected(Mismatch)
    else
      match r.state
      case ImportPrepared | ImportRequested =>
        if c.historyId <= r.import_.value.historyBefore then Rejected(Mismatch)
        else Changed(r.(state := Imported, confirmation := Some(c)))
      case Imported => if r.confirmation == Some(c) then Unchanged else Rejected(Conflict)
      case _ => Rejected(WrongState)
  }

  function FailImport(r: Execution): Outcome<Execution> {
    match r.state
    case ImportRequested => Changed(r.(state := ImportFailed))
    case ImportFailed => Unchanged
    case _ => Rejected(WrongState)
  }

  /** What is checked about the input before the file is opened. */
  function InputError(env: Env, e: Event): Option<StoreError> {
    match e
    case Prepare(_) => None
    case Stage(auth, request, reply) =>
      if !Encodable(request) || !EncodableStage(reply) then Some(BadInput)
      else
        var rejections := Verify(auth, request, reply);
        if RequestNotAuthorized in rejections || ResponseNotCorrelated in rejections then Some(Mismatch) else None
    case RecordPublish(reply) => if EncodablePublish(reply) then None else Some(BadInput)
    case RecordDiscard(reply) => if EncodableDiscard(reply) then None else Some(BadInput)
    case PrepareImport(command, historyBefore) =>
      if ValidImportRequest(env.template, command, historyBefore) then None else Some(BadInput)
    case MarkRequested(commandId) => if commandId > 0 then None else Some(BadInput)
    case MarkImported(c) => if ValidConfirmation(c) then None else Some(BadInput)
    case MarkImportFailed => None
  }

  /** The transition an update event makes on a record that was read. */
  function Update(r: Execution, env: Env, e: Event, at: Time): Outcome<Execution>
    requires Valid(r) && !e.Prepare? && InputError(env, e).None?
  {
    match e
    case Stage(_, _, _) => RecordStage(r, e)
    case RecordPublish(reply) => PublishJoin(r, reply)
    case RecordDiscard(reply) => DiscardJoin(r, reply)
    case PrepareImport(command, historyBefore) => BeginImport(r, command, historyBefore, at)
    case MarkRequested(commandId) => RequestImport(r, commandId)
    case MarkImported(c) => ConfirmImport(r, c)
    case MarkImportFailed => FailImport(r)
  }

  // ----------------------------------------------------------- store call

  /** Reading copies the record; an empty language list comes back as a nil slice. */
  function ReadBack(r: Execution): (r': Execution)
    ensures Valid(r) ==> Valid(r')
  {
    assert ItemsOf<Language>(Items([])) == ItemsOf<Language>(NilSlice);
    if r.import_.Some? && r.import_.value.command.file.languages == Items([])
    then r.(import_ := Some(r.import_.value.(command :=
              r.import_.value.command.(file := r.import_.value.command.file.(languages := NilSlice)))))
    else r
  }

  function Store(r: Execution): Effect<Execution> { if Valid(r) then Written(r) else Refused(InvalidRecord) }

  function Fresh(auth: AuthorizedJoin, at: Time): Execution {
    Execution(JoinV2, JoinId(auth), auth, Prepared, at, at, None, None, None, None, None, None)
  }

  function PrepareCall(file: Option<Execution>, env: Env, auth: AuthorizedJoin, at: Time): Effect<Execution> {
    if at == ZERO_TIME then Refused(TimeRequired)
    else if !Sha256Id(auth.caseId) then Refused(InvalidCase)
    else if env.authorized != Some(auth) then Refused(NotAuthorized)
    else if file.Some? && !Valid(file.value) then Refused(Unreadable)
    else if file.Some? && file.value.auth != auth then Refused(Conflict)
    else if file.Some? && !NeedsRecheck(file.value) then Kept
    else Store(Fresh(auth, at))
  }

  function UpdateCall(file: Option<Execution>, caseId: string, env: Env, e: Event, at: Time): Effect<Execution>
    requires !e.Prepare?
  {
    var input := InputError(env, e);
    if input.Some? then Refused(input.value)
    else if at == ZERO_TIME then Refused(TimeRequired)
    else if !Sha256Id(caseId) then Refused(InvalidCase)
    else if file.None? then Refused(NotPrepared)
    else if !Valid(file.value) then Refused(Unreadable)
    else
      var previous := ReadBack(file.value);
      if previous.auth.caseId != caseId then Refused(WrongCase)
      else if at < previous.updatedAt then Refused(TimeBackwards)
      else
        match Update(previous, env, e, at)
        case Rejected(error) => Refused(error)
        case Unchanged => Kept
        case Changed(next) => Store(next.(updatedAt := at))
  }

  /** One store call on the case's file. */
  function Deliver(file: Option<Execution>, caseId: string, env: Env, e: Event, at: Time): Effect<Execution> {
    if e.Prepare? then PrepareCall(file, env, e.auth, at) else UpdateCall(file, caseId, env, e, at)
  }
}
