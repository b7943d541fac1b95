/**
 The values that repair-execution records are made of, and the wire contracts
 they are checked against. A SHA-256 text is an injective term over what was
 hashed; a text that is no such digest keeps its own constructor.
 */
module RepairRecords {
  import opened Common

  // ---------------------------------------------------------------- text

  type Time = int
  const ZERO_TIME: Time := 0
  const INT64_MAX := 9223372036854775807

  predicate Between(low: char, c: char, high: char) { low <= c <= high }

  predicate OpaqueId(s: string) {
    && 1 <= |s| <= 128 && Between('a', s[0], 'z')
    && forall c <- s :: Between('a', c, 'z') || Between('0', c, '9') || c == '_' || c == ':' || c == '-'
  }

  /** Case ids and artifact fingerprints: `sha256:` and 64 lower-case hex digits. */
  predicate Sha256Id(s: string) {
    && |s| == 71 && s[..7] == "sha256:"
    && forall i :: 7 <= i < 71 ==> Between('0', s[i], '9') || Between('a', s[i], 'f')
  }

  predicate PathComponent(s: string) {
    && 1 <= |s| <= 255 && s != "." && s != ".."
    && forall c <- s :: c != '/' && c != '\\' && c >= ' ' && c != (0x7f as char)
  }

  predicate PathComponents(path: seq<string>) {
    1 <= |path| <= 32 && forall component <- path :: PathComponent(component)
  }

  predicate Space(c: char) {
    c == ' ' || Between('\t', c, '\r') || c == (0x85 as char) || c == (0xa0 as char) || c == (0x1680 as char)
    || Between(0x2000 as char, c, 0x200a as char) || Between(0x2028 as char, c, 0x2029 as char)
    || c == (0x202f as char) || c == (0x205f as char) || c == (0x3000 as char)
  }

  predicate Trimmed(s: string) { s != "" ==> !Space(s[0]) && !Space(s[|s| - 1]) }

  predicate CompleteText(s: string) { s != "" && Trimmed(s) }

  predicate NoNul(s: string) { forall c <- s :: c != (0 as char) }

  /** An absolute path other than the root that path cleaning leaves alone. */
  predicate CleanAbsolute(p: string) {
    && |p| > 1 && p[0] == '/'
    && forall i :: 0 <= i < |p| && p[i] == '/' ==> i + 1 < |p| && p[i + 1] != '/' && !DotAt(p, i + 1)
  }

  predicate EndsAt(p: string, i: nat) { i == |p| || (i < |p| && p[i] == '/') }

  predicate DotAt(p: string, i: nat) {
    i < |p| && p[i] == '.' && (EndsAt(p, i + 1) || (i + 1 < |p| && p[i + 1] == '.' && EndsAt(p, i + 2)))
  }

  // ------------------------------------------------------ authorisations

  datatype Fingerprint = Fingerprint(device: nat, inode: nat, sizeBytes: int, mtimeNs: int)

  datatype FileDigest = Strict(of: Fingerprint) | OtherDigest(text: string)

  predicate ValidDigest(d: FileDigest) { d.OtherDigest? ==> Sha256Id(d.text) }

  datatype SourceFile = SourceFile(fileId: string, fingerprint: Fingerprint)
  datatype Track = Track(kind: string, codec: string, language: string)
  datatype Container = Avi | Mkv | Mp4 | OtherContainer(name: string)

  datatype AuthorizedJoin = AuthorizedJoin(
    caseId: string, capabilityId: string, parts: seq<SourceFile>, sourceBytes: int,
    durationMs: int, toleranceMs: int, container: Container, streams: seq<string>)

  datatype AuthorizedRemux = AuthorizedRemux(
    caseId: string, capabilityId: string, playlist: SourceFile, clips: seq<SourceFile>, sourceBytes: int,
    durationMs: int, chapters: int, tracks: seq<Track>, toleranceMs: int)

  datatype AuthorizedDvd = AuthorizedDvd(
    caseId: string, capabilityId: string, navigation: SourceFile, sources: seq<SourceFile>, titleNumber: int,
    durationMs: int, chapters: int, tracks: seq<Track>, sourceBytes: int, toleranceMs: int)

  datatype AuthorizedManual = AuthorizedManual(
    caseId: string, capabilityId: string, fileId: string, fingerprint: Fingerprint, file: CommandFile)

  /** `execution:` and the digest of a domain and an authorisation. */
  datatype ExecutionId =
    | JoinId(join: AuthorizedJoin)
    | LegacyJoinId(legacy: AuthorizedJoin)
    | RemuxId(remux: AuthorizedRemux)
    | DvdId(dvd: AuthorizedDvd)
    | OtherId(text: string)

  predicate ValidExecutionId(id: ExecutionId) { id.OtherId? ==> OpaqueId(id.text) }

  datatype Version = JoinV2 | BlurayV1 | DvdV1 | ManualV1 | OtherVersion(text: string)

  // ------------------------------------------------------- import requests

  /** A Go slice: nil and empty are different values to a deep comparison. */
  datatype Slice<+T> = NilSlice | Items(items: seq<T>)

  function ItemsOf<T>(s: Slice<T>): seq<T> { if s.NilSlice? then [] else s.items }

  datatype Revision = Revision(version: int, real_: int, isRepack: bool)
  datatype Quality = Quality(
    id: int, name: string, source: string, resolution: int, modifier: string, revision: Option<Revision>)
  datatype Language = Language(id: int, name: string)

  datatype CommandFile = CommandFile(
    path: string, folderName: string, quality: Quality, languages: Slice<Language>,
    releaseGroup: string, indexerFlags: int, downloadId: string, movieId: int)

  datatype Command = Command(copies: bool, file: CommandFile)

  predicate Complete(c: Command) {
    && c.copies && CleanAbsolute(c.file.path) && Trimmed(c.file.path) && NoNul(c.file.path)
    && Trimmed(c.file.folderName)
    && CompleteText(c.file.quality.name)
    && (forall language <- ItemsOf(c.file.languages) :: CompleteText(language.name))
    && Trimmed(c.file.releaseGroup)
    && CompleteText(c.file.downloadId)
    && c.file.movieId > 0
  }

  /** What the stored case says about importing a file of its own. */
  datatype ImportTemplate = ImportTemplate(
    quality: Quality, languages: seq<Language>, downloadId: string, movieId: int)

  function Expected(t: ImportTemplate, path: string): Command {
    Command(true, CommandFile(path, "", t.quality, Items(t.languages), "", 0, t.downloadId, t.movieId))
  }

  datatype Import = Import(command: Command, historyBefore: int, preparedAt: Time, commandId: Option<int>)

  predicate ValidImport(i: Import, executionPreparedAt: Time, updatedAt: Time) {
    && Complete(i.command) && i.historyBefore >= 0 && i.preparedAt != ZERO_TIME
    && executionPreparedAt <= i.preparedAt <= updatedAt
    && (i.commandId.Some? ==> i.commandId.value > 0)
  }

  predicate ValidImportRequest(template: Option<ImportTemplate>, command: Command, historyBefore: int) {
    && Complete(command) && historyBefore >= 0
    && template.Some? && command == Expected(template.value, command.file.path)
  }

  datatype Confirmation = Confirmation(
    historyId: int, movieFileId: int, movieId: int, downloadId: string, occurredAt: Time,
    droppedPath: string, importedPath: string)

  predicate ValidPath(p: string) { NoNul(p) && CleanAbsolute(p) }

  predicate ValidConfirmation(c: Confirmation) {
    && c.historyId > 0 && c.movieFileId > 0 && c.movieId > 0
    && CompleteText(c.downloadId) && NoNul(c.downloadId)
    && c.occurredAt != ZERO_TIME
    && ValidPath(c.droppedPath) && ValidPath(c.importedPath)
  }

  /** The confirmation names the command's movie, download and path. */
  predicate ConfirmsFile(c: Confirmation, file: CommandFile) {
    c.movieId == file.movieId && c.downloadId == file.downloadId && c.droppedPath == file.path
  }

  // ----------------------------------------------------- worker contracts

  datatype Operation =
    | StageJoin | Publish | Discard
    | StageBluray | PublishBluray | StageDvd | PublishDvd
    | OtherOperation(name: string)

  datatype Reason =
    | NoReason
    | UnknownRoot | InvalidPath | FileUnavailable | NotRegularFile | FingerprintMismatch | SourceSizeMismatch
    | InsufficientSpace | ExecutionConflict | JoinError | Timeout | ProbeError | InvalidOutput | InternalError
    | ArtifactNotFound | ArtifactFingerprintMismatch | ArtifactNotStaged | DestinationExists | PublishError
    | ArtifactPublished | DiscardError | IdentificationError | RemuxError | InvalidRequest
    | OtherReason(text: string)

  /** The failure reasons each operation's schema lists. */
  predicate ReasonOf(op: Operation, r: Reason) {
    match op
    case StageJoin =>
      r.UnknownRoot? || r.InvalidPath? || r.FileUnavailable? || r.NotRegularFile? || r.FingerprintMismatch?
      || r.SourceSizeMismatch? || r.InsufficientSpace? || r.ExecutionConflict? || r.JoinError? || r.Timeout?
      || r.ProbeError? || r.InvalidOutput? || r.InternalError?
    case Publish =>
      r.ArtifactNotFound? || r.ArtifactFingerprintMismatch? || r.ArtifactNotStaged? || r.DestinationExists?
      || r.PublishError? || r.InternalError?
    case Discard =>
      r.ArtifactNotFound? || r.ArtifactFingerprintMismatch? || r.ArtifactPublished? || r.DiscardError? || r.InternalError?
    case StageBluray | StageDvd =>
      r.UnknownRoot? || r.InvalidPath? || r.FileUnavailable? || r.FingerprintMismatch? || r.InsufficientSpace?
      || r.IdentificationError? || r.RemuxError? || r.ProbeError? || r.InvalidOutput? || r.Timeout?
      || r.ExecutionConflict? || r.InternalError?
    case PublishBluray | PublishDvd =>
      r.ArtifactNotFound? || r.FingerprintMismatch? || r.DestinationExists? || r.InvalidRequest? || r.Timeout?
      || r.InternalError?
    case OtherOperation(_) => false
  }

  datatype Kind = Succeeded | FailedKind | OtherKind

  datatype FailureBody = FailureBody(operation: Operation, reason: Reason, requestId: string)

  /** A worker's answer: kind and bodies are independent fields until encoding checks them. */
  datatype Reply<S> = Reply(kind: Kind, success: Option<S>, failure: Option<FailureBody>)

  predicate WellSplit<S>(r: Reply<S>) {
    match r.kind
    case Succeeded => r.success.Some? && r.failure.None?
    case FailedKind => r.failure.Some? && r.success.None?
    case OtherKind => false
  }

  /**
   The join operations share one response schema, so a failure is encodable
   when it fits any of them, whichever operation the caller means.
   */
  predicate EncodableJoinFailure(f: FailureBody) {
    && OpaqueId(f.requestId)
    && (((f.operation.StageJoin? || f.operation.Publish? || f.operation.Discard?) && ReasonOf(f.operation, f.reason))
        || (f.operation == OtherOperation("inspect_join_v1") && f.reason.InternalError?))
  }

  /** What was measured on a produced file. */
  datatype Evidence = Evidence(
    sizeBytes: Option<int>, durationMs: Option<int>, durationConflict: bool, formatNames: seq<string>,
    chapters: int, streamsMatch: bool)

  datatype Staged = Staged(
    artifactId: string, fingerprint: string, sizeBytes: int, evidence: Evidence, requestId: string)

  predicate EncodableStaged(s: Staged) {
    OpaqueId(s.artifactId) && Sha256Id(s.fingerprint) && 1 <= s.sizeBytes <= INT64_MAX && OpaqueId(s.requestId)
  }

  datatype PublishedBody = PublishedBody(
    artifactId: string, fingerprint: string, rootId: string, path: seq<string>, requestId: string)

  predicate EncodablePublished(p: PublishedBody) {
    && OpaqueId(p.artifactId) && Sha256Id(p.fingerprint) && OpaqueId(p.rootId) && PathComponents(p.path)
    && OpaqueId(p.requestId)
  }

  datatype DiscardedBody = DiscardedBody(artifactId: string, fingerprint: string, requestId: string)

  predicate EncodableDiscarded(d: DiscardedBody) {
    OpaqueId(d.artifactId) && Sha256Id(d.fingerprint) && OpaqueId(d.requestId)
  }

  function RequestIdOf<S>(r: Reply<S>, ofSuccess: S -> string): string {
    if r.kind.Succeeded? && r.success.Some? then ofSuccess(r.success.value)
    else if r.kind.FailedKind? && r.failure.Some? then r.failure.value.requestId
    else ""
  }

  datatype Artifact = Artifact(id: string, fingerprint: string, sizeBytes: int)
  datatype Published = Published(rootId: string, path: seq<string>)
  datatype Failure = Failure(operation: Operation, reason: Reason)

  predicate ValidArtifact(a: Option<Artifact>) {
    a.Some? && a.value.id != "" && a.value.fingerprint != "" && a.value.sizeBytes > 0
  }

  // -------------------------------------------------------- stored writes

  datatype StoreError =
    | TimeRequired | InvalidCase | NotAuthorized | BadInput | Unreadable | NotPrepared | WrongCase
    | TimeBackwards | Mismatch | Conflict | WrongState
    | InvalidRecord  // the validating write refused the new record

  /** What a transition decided, before the time stamp and the validating write. */
  datatype Outcome<+R> = Rejected(error: StoreError) | Unchanged | Changed(record: R)

  /** What one store call did to the case's file. */
  datatype Effect<+R> = Refused(error: StoreError) | Kept | Written(record: R)

  function After<R>(file: Option<R>, effect: Effect<R>): Option<R> {
    if effect.Written? then Some(effect.record) else file
  }
}
