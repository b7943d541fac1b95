/**
 What disc calls are for: where each piece of evidence in a record comes from,
 and that a remux that meets no failure is staged, published and imported.
 */
module DiscEffects {
  import opened Common
  import opened RepairRecords
  import opened DiscMachine
  import opened DiscRuns

  /** A write carries its call's time; a preparation writes the fresh record of what the plan allows. */
  lemma WriteStamps(file: Option<Execution>, caseId: string, env: Env, e: Event, at: Time)
    ensures var d := Deliver(file, caseId, env, e, at);
            d.Written? ==>
              && d.record.updatedAt == at
              && (e.PrepareBluray? ==>
                    && env.bluray == Some(e.auth)
                    && d.record == Execution(BlurayV1, RemuxId(e.auth), e.auth, None, Prepared, at, at,
                                             None, None, None, None, None, None, None))
              && (e.PrepareDvd? ==>
                    && env.dvd == Some(e.dvdAuth)
                    && d.record == Execution(DvdV1, DvdId(e.dvdAuth), NO_REMUX, Some(e.dvdAuth), Prepared, at, at,
                                             None, None, None, None, None, None, None))
              && (!IsPrepare(e) ==> file.Some? && file.value.updatedAt <= at && CaseId(file.value) == caseId)
  {
    hide Update, GoodInput, Valid;
  }

  // -------------------------------------------------------------- origins

  /** The pieces of evidence a record can hold. */
  datatype Piece =
    | Preparation | BlurayRequest | DvdRequest | Output | Destination | Refusal
    | ImportRequest | CommandNumber | Proof | FailureNote

  predicate Has(r: Execution, p: Piece) {
    match p
    case Preparation => true
    case BlurayRequest => r.stage.Some?
    case DvdRequest => r.dvdStage.Some?
    case Output => r.artifact.Some?
    case Destination => r.published.Some?
    case Refusal => r.failure.Some?
    case ImportRequest => r.import_.Some?
    case CommandNumber => r.import_.Some? && r.import_.value.commandId.Some?
    case Proof => r.confirmation.Some? && r.import_.Some?
    case FailureNote => r.state.ImportFailed?
  }

  /** The answer, a success or a failure, is to this request. */
  predicate Answers(reply: Reply<Staged>, q: StageRequest) {
    && WellSplit(reply)
    && (if reply.kind.Succeeded? then reply.success.value.requestId else reply.failure.value.requestId) == q.requestId
  }

  /** The command copies the file as the stored case describes it. */
  predicate FollowsTemplate(c: Command, t: ImportTemplate) {
    && c.copies && c.file.quality == t.quality && c.file.languages == Items(t.languages)
    && c.file.downloadId == t.downloadId && c.file.movieId == t.movieId
    && c.file.folderName == "" && c.file.releaseGroup == "" && c.file.indexerFlags == 0
  }

  /** The call says what the record holds. */
  ghost predicate Says(call: Call, r: Execution, p: Piece)
    requires Has(r, p)
  {
    match p
    case Preparation =>
      && r.preparedAt == call.at
      && (if r.dvd.Some? then
            call.event == PrepareDvd(r.dvd.value) && call.env.dvd == r.dvd && r.executionId == DvdId(r.dvd.value)
          else
            call.event == PrepareBluray(r.auth) && call.env.bluray == Some(r.auth) && r.executionId == RemuxId(r.auth))
    case BlurayRequest =>
      call.event.StageBlurayRemux? && r.stage == Some(call.event.request) && Answers(call.event.reply, call.event.request)
    case DvdRequest =>
      call.event.StageDvdRemux? && r.dvdStage == Some(call.event.dvdRequest) && Answers(call.event.dvdReply, call.event.dvdRequest)
    case Output => VerifiedBy(call, r)
    case Destination => PublishedBy(call, r)
    case Refusal =>
      (match call.event
       case StageBlurayRemux(_, reply) =>
         reply.failure.Some? && r.failure == Some(Failure(StageBluray, reply.failure.value.reason))
       case StageDvdRemux(_, reply) =>
         reply.failure.Some? && r.failure == Some(Failure(StageDvd, reply.failure.value.reason))
       case PublishBlurayRemux(reply) =>
         reply.failure.Some? && r.failure == Some(Failure(PublishBluray, reply.failure.value.reason))
       case PublishDvdRemux(reply) =>
         reply.failure.Some? && r.failure == Some(Failure(PublishDvd, reply.failure.value.reason))
       case _ => false)
    case ImportRequest =>
      && call.event == PrepareImport(r.import_.value.command, r.import_.value.historyBefore)
      && r.import_.value.preparedAt == call.at
      && call.env.template.Some? && FollowsTemplate(r.import_.value.command, call.env.template.value)
    case CommandNumber => call.event == MarkRequested(r.import_.value.commandId.value)
    case Proof =>
      && call.event == MarkImported(r.confirmation.value)
      && call.event.imported.historyId > r.import_.value.historyBefore
      && r.confirmation.value.movieId == r.import_.value.command.file.movieId
      && r.confirmation.value.downloadId == r.import_.value.command.file.downloadId
      && r.confirmation.value.droppedPath == r.import_.value.command.file.path
    case FailureNote => call.event.MarkImportFailed?
  }

  /** What a record holds only after something else. */
  function Needs(p: Piece): Option<Piece> {
    match p
    case Preparation => None
    case BlurayRequest | DvdRequest | Output | Refusal => Some(Preparation)
    case Destination => Some(Output)
    case ImportRequest => Some(Destination)
    case CommandNumber => Some(ImportRequest)
    case Proof => Some(ImportRequest)
    case FailureNote => Some(CommandNumber)
  }

  /** A step brings a piece from its own call, and then finds what the piece comes after, or leaves it. */
  lemma UpdateBrings(r: Execution, call: Call, p: Piece)
    requires Valid(r) && !IsPrepare(call.event) && GoodInput(call.env, call.event)
    requires p != Output && p != Destination
    ensures var u := Update(r, call.env, call.event, call.at);
            u.Changed? ==>
              && !r.state.ImportFailed?
              && (Has(u.record, p) && !Has(r, p) ==> Says(call, u.record, p) && Needs(p).Some? && Has(r, Needs(p).value))
  {
    hide RemuxShape, DvdShape, BlurayMatches, DvdMatches, EncodableBluray, EncodableDvd, PathMatches, OutputAccepted,
         ValidImport, ValidConfirmation, Complete, EncodableStaged, EncodablePublished;
  }

  lemma SaysStays(call: Call, r: Execution, r': Execution, p: Piece)
    requires Has(r, p) && Says(call, r, p) && SameIdentity(r, r') && WriteOnce(r, r')
    requires p.FailureNote? ==> r' == r
    ensures Has(r', p) && Says(call, r', p)
  {
    if p == Output { VerifiedStays(call, r, r'); }
    if p == Destination { PublishedStays(call, r, r'); }
    hide VerifiedBy, PublishedBy;
  }

  lemma SaysUnstamped(call: Call, r: Execution, p: Piece)
    requires p != Output && p != Destination
    ensures Has(r.(updatedAt := call.at), p) <==> Has(r, p)
    ensures Has(r, p) ==> (Says(call, r.(updatedAt := call.at), p) <==> Says(call, r, p))
  {
  }

  lemma CallBrings(before: Option<Execution>, caseId: string, call: Call, p: Piece)
    ensures var d := Deliver(before, caseId, call.env, call.event, call.at);
            d.Written? && Has(d.record, p) ==>
              || (before.Some? && Has(before.value, p) && !p.FailureNote?)
              || (Says(call, d.record, p) && (p != Preparation ==> before.Some? && Has(before.value, Needs(p).value)))
  {
    var d := Deliver(before, caseId, call.env, call.event, call.at);
    if d.Written? {
      CallWrites(before, caseId, call.env, call.event, call.at);
      WriteStamps(before, caseId, call.env, call.event, call.at);
      if !IsPrepare(call.event) {
        CallVerifies(before, caseId, call);
        CallPublishes(before, caseId, call);
        if p != Output && p != Destination {
          UpdateBrings(before.value, call, p);
          SaysUnstamped(call, Update(before.value, call.env, call.event, call.at).record, p);
        }
      }
    }
    hide Update, Valid, GoodInput, VerifiedBy, PublishedBy, WriteOnce, Confirmed;
  }

  /** The i-th call wrote and said what the record holds. */
  ghost predicate Origin(caseId: string, calls: seq<Call>, i: nat, r: Execution, p: Piece) {
    && i < |calls| && Has(r, p) && Says(calls[i], r, p)
    && Deliver(RunFile(None, caseId, calls[..i]), caseId, calls[i].env, calls[i].event, calls[i].at).Written?
  }

  /** What the last call of a run leaves as it was, or brings. */
  lemma LastCall(caseId: string, calls: seq<Call>, p: Piece)
    requires calls != []
    ensures var n := |calls| - 1;
            var before, after := RunFile(None, caseId, calls[..n]), RunFile(None, caseId, calls);
            after.Some? && Has(after.value, p) ==>
              && (before.Some? ==> SameIdentity(before.value, after.value) && WriteOnce(before.value, after.value))
              && (|| (before.Some? && Has(before.value, p) && (p.FailureNote? ==> after == before))
                  || (Origin(caseId, calls, n, after.value, p)
                      && (p != Preparation ==> before.Some? && Has(before.value, Needs(p).value))))
  {
    var n := |calls| - 1;
    var before, c := RunFile(None, caseId, calls[..n]), calls[n];
    CallBrings(before, caseId, c, p);
    CallWrites(before, caseId, c.env, c.event, c.at);
    hide Deliver, Says, Valid, Confirmed, Has, Needs;
  }

  lemma OriginStays(caseId: string, calls: seq<Call>, i: nat, r: Execution, r': Execution, p: Piece)
    requires calls != [] && i < |calls| - 1 && Origin(caseId, calls[..|calls| - 1], i, r, p)
    requires SameIdentity(r, r') && WriteOnce(r, r') && (p.FailureNote? ==> r' == r)
    ensures Origin(caseId, calls, i, r', p)
  {
    assert calls[..|calls| - 1][..i] == calls[..i] && calls[..|calls| - 1][i] == calls[i];
    assert Has(r, p) && Says(calls[i], r, p);
    assert Deliver(RunFile(None, caseId, calls[..i]), caseId, calls[i].env, calls[i].event, calls[i].at).Written?;
    hide Deliver, Says, WriteOnce, SameIdentity, RunFile, Has;
    SaysStays(calls[i], r, r', p);
  }

  /**
   Every piece of evidence in a disc record was said by a call that wrote it: the
   authorisation is the one prepared, the artifact was verified, the destination
   published, the command, history baseline and preparation time are those asked
   for, the command number and the confirmation those reported, and the
   confirmation is newer than the baseline asked for.
   */
  lemma {:induction false} EvidenceWasSaid(caseId: string, calls: seq<Call>, p: Piece)
    ensures var file := RunFile(None, caseId, calls);
            file.Some? && Has(file.value, p) ==> exists i :: 0 <= i < |calls| && Origin(caseId, calls, i, file.value, p)
  {
    if calls != [] {
      var n := |calls| - 1;
      var before, after := RunFile(None, caseId, calls[..n]), RunFile(None, caseId, calls);
      EvidenceWasSaid(caseId, calls[..n], p);
      LastCall(caseId, calls, p);
      hide RunFile, Origin, Has, SameIdentity, WriteOnce;
      if after.Some? && Has(after.value, p) && !Origin(caseId, calls, n, after.value, p) {
        var i :| 0 <= i < n && Origin(caseId, calls[..n], i, before.value, p);
        OriginStays(caseId, calls, i, before.value, after.value, p);
      }
    }
  }

  lemma PairStays(caseId: string, calls: seq<Call>, i: nat, j: nat, r: Execution, r': Execution, q: Piece, p: Piece)
    requires calls != [] && i < j < |calls| - 1
    requires Origin(caseId, calls[..|calls| - 1], i, r, q) && Origin(caseId, calls[..|calls| - 1], j, r, p)
    requires SameIdentity(r, r') && WriteOnce(r, r') && !q.FailureNote? && (p.FailureNote? ==> r' == r)
    ensures Origin(caseId, calls, i, r', q) && Origin(caseId, calls, j, r', p)
  {
    OriginStays(caseId, calls, i, r, r', q);
    OriginStays(caseId, calls, j, r, r', p);
    hide Origin, SameIdentity, WriteOnce;
  }

  /** The calls that said it came in order, from the preparation to the confirmation. */
  lemma {:induction false} EvidenceInOrder(caseId: string, calls: seq<Call>, p: Piece)
    requires Needs(p).Some?
    ensures var file := RunFile(None, caseId, calls);
            file.Some? && Has(file.value, p) ==>
              exists i, j :: 0 <= i < j < |calls| && Origin(caseId, calls, i, file.value, Needs(p).value)
                             && Origin(caseId, calls, j, file.value, p)
  {
    if calls != [] {
      var n := |calls| - 1;
      var before, after, q := RunFile(None, caseId, calls[..n]), RunFile(None, caseId, calls), Needs(p).value;
      EvidenceInOrder(caseId, calls[..n], p);
      EvidenceWasSaid(caseId, calls[..n], q);
      LastCall(caseId, calls, p);
      assert !q.FailureNote? && p != Preparation;
      hide RunFile, Origin, Has, Needs, SameIdentity, WriteOnce;
      if after.Some? && Has(after.value, p) {
        if before.Some? && Has(before.value, p) && (p.FailureNote? ==> after == before) {
          var i, j :| 0 <= i < j < n && Origin(caseId, calls[..n], i, before.value, q)
                      && Origin(caseId, calls[..n], j, before.value, p);
          PairStays(caseId, calls, i, j, before.value, after.value, q, p);
        } else {
          var i :| 0 <= i < n && Origin(caseId, calls[..n], i, before.value, q);
          OriginStays(caseId, calls, i, before.value, after.value, q);
        }
      }
    }
  }

  // --------------------------------------------------- what was verified

  predicate SameFile(wire: WireSource, file: SourceFile) {
    wire.digest == Strict(file.fingerprint) && wire.sizeBytes == file.fingerprint.sizeBytes
  }

  predicate SameFiles(wire: seq<WireSource>, files: seq<SourceFile>) {
    |wire| == |files| && forall i :: 0 <= i < |files| ==> SameFile(wire[i], files[i])
  }

  /** The output is Matroska with the authorised chapters and streams and a duration within the tolerance. */
  predicate RightOutput(e: Evidence, durationMs: int, chapters: int, tolerance: int) {
    && "matroska" in e.formatNames && e.chapters == chapters && e.streamsMatch
    && e.durationMs.Some? && durationMs - tolerance <= e.durationMs.value <= durationMs + tolerance
  }

  /** The call staged this artifact from the authorised files, and its output is right: within 5 s, or 15 s for a DVD. */
  ghost predicate StagedRight(call: Call, r: Execution) {
    match call.event
    case StageBlurayRemux(q, reply) =>
      && r.stage == Some(q) && q.executionId == r.executionId && q.caseId == r.auth.caseId
      && q.capabilityId == r.auth.capabilityId && q.durationMs == r.auth.durationMs && q.chapters == r.auth.chapters
      && SameFile(q.main, r.auth.playlist) && SameFiles(q.sources, r.auth.clips) && q.tracks == r.auth.tracks
      && reply.success.Some? && reply.success.value.requestId == q.requestId
      && RightOutput(reply.success.value.evidence, r.auth.durationMs, r.auth.chapters, 5000)
      && r.artifact == Some(ArtifactOf(reply.success.value))
    case StageDvdRemux(q, reply) =>
      && r.dvd.Some? && r.dvdStage == Some(q) && q.executionId == r.executionId && q.caseId == r.dvd.value.caseId
      && q.capabilityId == r.dvd.value.capabilityId && q.titleNumber == r.dvd.value.titleNumber
      && q.durationMs == r.dvd.value.durationMs && q.chapters == r.dvd.value.chapters
      && SameFile(q.main, r.dvd.value.navigation) && SameFiles(q.sources, r.dvd.value.sources) && q.tracks == r.dvd.value.tracks
      && reply.success.Some? && reply.success.value.requestId == q.requestId
      && RightOutput(reply.success.value.evidence, r.dvd.value.durationMs, r.dvd.value.chapters, 15000)
      && r.artifact == Some(ArtifactOf(reply.success.value))
    case _ => false
  }

  lemma VerifiedIsRight(call: Call, r: Execution)
    requires VerifiedBy(call, r)
    ensures StagedRight(call, r)
  {
  }

  /** Whatever a disc record carries, publishes or imports is a right output for the authorised files. */
  lemma ArtifactIsRight(caseId: string, calls: seq<Call>)
    ensures var file := RunFile(None, caseId, calls);
            file.Some? && file.value.artifact.Some? ==> exists i :: 0 <= i < |calls| && StagedRight(calls[i], file.value)
  {
    ArtifactsWereVerified(caseId, calls);
    var file := RunFile(None, caseId, calls);
    hide RunFile, StagedRight, VerifiedBy;
    if file.Some? && file.value.artifact.Some? {
      var i :| 0 <= i < |calls| && VerifiedBy(calls[i], file.value);
      VerifiedIsRight(calls[i], file.value);
    }
  }

  /** The published file lies where the staged main file does, two or one levels up, under the artifact's name. */
  lemma PublishedBesideSource(caseId: string, calls: seq<Call>)
    ensures var file := RunFile(None, caseId, calls);
            file.Some? && file.value.published.Some? ==>
              && file.value.artifact.Some?
              && var q := if file.value.dvd.Some? then file.value.dvdStage else file.value.stage;
                 var up := if file.value.dvd.Some? then 1 else 2;
                 && q.Some? && q.value.rootId == file.value.published.value.rootId && |q.value.main.path| > up
                 && file.value.published.value.path
                    == q.value.main.path[..|q.value.main.path| - up - 1] + ["radarr-repair-" + file.value.artifact.value.id + ".mkv"]
  {
    ReachableImportsAreConfirmed(caseId, calls);
    var file := RunFile(None, caseId, calls);
    hide RunFile, RemuxShape, DvdShape, EncodableRequest, ValidConfirmation, ValidImport, SameSources;
    if file.Some? && file.value.published.Some? {
      var path := file.value.published.value.path;
      assert path == path[..|path| - 1] + [path[|path| - 1]];
    }
  }

  /** The state says exactly which evidence there is. */
  predicate StateFits(r: Execution) {
    var requested := if r.dvd.Some? then r.dvdStage.Some? && r.stage.None? else r.stage.Some? && r.dvdStage.None?;
    && (r.failure.Some? <==> r.state.RemuxFailed?) && (r.confirmation.Some? <==> r.state.Imported?)
    && r.preparedAt <= r.updatedAt
    && (r.import_.Some? ==> r.preparedAt <= r.import_.value.preparedAt <= r.updatedAt)
    && match r.state
       case Prepared => r.stage.None? && r.dvdStage.None? && r.artifact.None? && r.published.None? && r.import_.None?
       case StagedState => requested && r.artifact.Some? && r.published.None? && r.import_.None?
       case PublishedState => requested && r.artifact.Some? && r.published.Some? && r.import_.None?
       case RemuxFailed =>
         && requested && r.published.None? && r.import_.None?
         && (match r.failure.value.operation
             case StageBluray => r.dvd.None? && r.artifact.None?
             case StageDvd => r.dvd.Some? && r.artifact.None?
             case PublishBluray => r.dvd.None? && r.artifact.Some?
             case PublishDvd => r.dvd.Some? && r.artifact.Some?
             case _ => false)
       case ImportPrepared =>
         requested && r.artifact.Some? && r.published.Some? && r.import_.Some? && r.import_.value.commandId.None?
       case ImportRequested | ImportFailed =>
         requested && r.artifact.Some? && r.published.Some? && r.import_.Some? && r.import_.value.commandId.Some?
       case Imported => requested && r.artifact.Some? && r.published.Some? && r.import_.Some?
       case OtherState(_) => false
  }

  /** Positive sizes that add up to the total. */
  predicate SizesAddUp(files: seq<SourceFile>, total: int) {
    (forall i :: 0 <= i < |files| ==> files[i].fingerprint.sizeBytes > 0) && SumSizes(files) == total
  }

  /** What a stored record must be to be acted on: one kind of disc, its identity, its times and its evidence fit. */
  predicate Sound(r: Execution) {
    && r.preparedAt != ZERO_TIME && r.updatedAt != ZERO_TIME && StateFits(r)
    && (if r.dvd.Some? then
          && r.version == DvdV1 && r.executionId == DvdId(r.dvd.value) && r.auth == NO_REMUX
          && |r.dvd.value.sources| >= 3 && SizesAddUp(r.dvd.value.sources, r.dvd.value.sourceBytes)
          && exists file <- r.dvd.value.sources :: file.fileId == r.dvd.value.navigation.fileId
        else
          && r.version == BlurayV1 && r.executionId == RemuxId(r.auth)
          && r.auth.clips != [] && SizesAddUp(r.auth.clips, r.auth.sourceBytes))
  }

  lemma ValidIsSound(r: Execution)
    requires Valid(r)
    ensures Sound(r)
  {
    ValidStateFits(r);
    hide StateFits, SumSizes, ValidBlurayStage, ValidDvdStage, ValidImportState, BlurayPublished, DvdPublished, ValidArtifact;
  }

  lemma ValidStateFits(r: Execution)
    requires Valid(r)
    ensures StateFits(r)
  {
    hide RemuxShape, DvdShape, EncodableRequest, ValidConfirmation, Complete, SameSources, PathMatches;
  }

  /** Whatever wrote it, a record that does not fit is neither changed nor acknowledged by any call. */
  lemma UnsoundIsRefused(r: Execution, caseId: string, env: Env, e: Event, at: Time)
    requires !Sound(r)
    ensures Deliver(Some(r), caseId, env, e, at).Refused?
  {
    if Valid(r) { ValidIsSound(r); }
    hide Update, GoodInput, Sound, Valid, RemuxShape, DvdShape;
  }

  lemma ReachedStateFits(caseId: string, calls: seq<Call>)
    ensures var file := RunFile(None, caseId, calls); file.Some? ==> StateFits(file.value)
  {
    ReachableImportsAreConfirmed(caseId, calls);
    var file := RunFile(None, caseId, calls);
    if file.Some? { ValidStateFits(file.value); }
    hide RunFile, Valid, StateFits;
  }

  // ----------------------------------------------------------- completion

  /** The call is delivered in time, to its own case. */
  predicate Timely(r: Execution, caseId: string, at: Time) {
    CaseId(r) == caseId && r.updatedAt <= at && at != ZERO_TIME
  }

  /** A guarded step on accepted input is written. */
  lemma StepIsWritten(r: Execution, caseId: string, env: Env, e: Event, at: Time)
    requires Valid(r) && Timely(r, caseId, at) && !IsPrepare(e) && GoodInput(env, e)
    requires Update(r, env, e, at).Changed?
    ensures Deliver(Some(r), caseId, env, e, at) == Written(Update(r, env, e, at).record.(updatedAt := at))
    ensures Valid(Update(r, env, e, at).record.(updatedAt := at))
  {
    UpdateAgreesWithValidator(r, env, e, at);
    CaseIdIsDigest(r);
    hide Update, GoodInput, Valid;
  }

  lemma CaseIdIsDigest(r: Execution)
    requires Valid(r)
    ensures Sha256Id(CaseId(r))
  {
    hide ValidBlurayStage, ValidDvdStage, SoundFiles, SumSizes;
  }

  /** The published file is the staged artifact, under the requested root, at a path made from the main file's. */
  predicate PublishedAs(p: PublishedBody, a: Artifact, q: StageRequest, depth: nat) {
    && p.artifactId == a.id && p.fingerprint == a.fingerprint && p.rootId == q.rootId
    && PathMatches(q.main.path, depth, a.id, p.path)
  }

  function ArtifactOf(s: Staged): Artifact { Artifact(s.artifactId, s.fingerprint, s.sizeBytes) }

  /** A matching stage of a prepared Blu-ray is recorded: its failure, or its artifact when the output is accepted. */
  lemma BlurayStageIsWritten(r: Execution, caseId: string, env: Env, q: StageRequest, reply: Reply<Staged>, at: Time)
    requires Valid(r) && r.state.Prepared? && Timely(r, caseId, at)
    requires EncodableBluray(q) && BlurayMatches(r, q) && Correlated(q, reply) && EncodableStageReply(StageBluray, reply)
    ensures var d := Deliver(Some(r), caseId, env, StageBlurayRemux(q, reply), at);
            if reply.kind.FailedKind? then
              d == Written(r.(state := RemuxFailed, updatedAt := at, stage := Some(q),
                              failure := Some(Failure(StageBluray, reply.failure.value.reason))))
            else if OutputAccepted(reply.success.value.evidence, r.auth.durationMs, r.auth.chapters, 5000) then
              d == Written(r.(state := StagedState, updatedAt := at, stage := Some(q), artifact := Some(ArtifactOf(reply.success.value))))
            else d == Refused(Mismatch)
  {
    var e := StageBlurayRemux(q, reply);
    if Update(r, env, e, at).Changed? { StepIsWritten(r, caseId, env, e, at); }
    CaseIdIsDigest(r);
    hide Valid, RemuxShape, EncodableBluray, BlurayMatches, OutputAccepted;
  }

  lemma DvdStageIsWritten(r: Execution, caseId: string, env: Env, q: StageRequest, reply: Reply<Staged>, at: Time)
    requires Valid(r) && r.version == DvdV1 && r.state.Prepared? && Timely(r, caseId, at)
    requires EncodableDvd(q) && DvdMatches(r, q) && Correlated(q, reply) && EncodableStageReply(StageDvd, reply)
    ensures var d := Deliver(Some(r), caseId, env, StageDvdRemux(q, reply), at);
            if reply.kind.FailedKind? then
              d == Written(r.(state := RemuxFailed, updatedAt := at, dvdStage := Some(q),
                              failure := Some(Failure(StageDvd, reply.failure.value.reason))))
            else if OutputAccepted(reply.success.value.evidence, r.dvd.value.durationMs, r.dvd.value.chapters, 15000) then
              d == Written(r.(state := StagedState, updatedAt := at, dvdStage := Some(q), artifact := Some(ArtifactOf(reply.success.value))))
            else d == Refused(Mismatch)
  {
    var e := StageDvdRemux(q, reply);
    assert r.dvd.value.chapters > 0;
    if Update(r, env, e, at).Changed? { StepIsWritten(r, caseId, env, e, at); }
    CaseIdIsDigest(r);
    hide Valid, DvdShape, EncodableDvd, DvdMatches, OutputAccepted;
  }

  /** A staged disc's publication, or its failure, is recorded. */
  lemma PublishIsWritten(r: Execution, caseId: string, env: Env, reply: Reply<PublishedBody>, at: Time)
    requires Valid(r) && r.state.StagedState? && Timely(r, caseId, at)
    requires var bluray := r.version != DvdV1;
             && EncodablePublishReply(if bluray then PublishBluray else PublishDvd, reply)
             && (reply.kind.Succeeded? ==>
                   PublishedAs(reply.success.value, r.artifact.value, if bluray then r.stage.value else r.dvdStage.value,
                               if bluray then BLURAY_DEPTH else DVD_DEPTH))
    ensures var op := if r.version != DvdV1 then PublishBluray else PublishDvd;
            Deliver(Some(r), caseId, env, if r.version != DvdV1 then PublishBlurayRemux(reply) else PublishDvdRemux(reply), at)
            == Written(
              if reply.kind.Succeeded? then
                r.(state := PublishedState, updatedAt := at,
                   published := Some(Published(reply.success.value.rootId, reply.success.value.path)))
              else r.(state := RemuxFailed, updatedAt := at, failure := Some(Failure(op, reply.failure.value.reason))))
  {
    StepIsWritten(r, caseId, env, if r.version != DvdV1 then PublishBlurayRemux(reply) else PublishDvdRemux(reply), at);
    hide Deliver, PathMatches, RemuxShape, DvdShape, EncodableRequest;
  }

  /** A Blu-ray remux authorised by the plan, staged with an accepted output and published, is on record. */
  lemma BlurayIsPublished(auth: AuthorizedRemux, q: StageRequest, staged: Reply<Staged>, published: Reply<PublishedBody>,
                          env: Env, at: Time, at': Time, at'': Time)
    requires RemuxShape(auth) && env.bluray == Some(auth) && at != ZERO_TIME && at' != ZERO_TIME && at'' != ZERO_TIME
    requires at <= at' <= at''
    requires EncodableBluray(q) && BlurayMatches(FreshBluray(auth, at), q) && Correlated(q, staged)
    requires EncodableStageReply(StageBluray, staged) && staged.kind.Succeeded?
    requires OutputAccepted(staged.success.value.evidence, auth.durationMs, auth.chapters, 5000)
    requires EncodablePublishReply(PublishBluray, published) && published.kind.Succeeded?
    requires PublishedAs(published.success.value, ArtifactOf(staged.success.value), q, BLURAY_DEPTH)
    ensures RunFile(None, auth.caseId, [Call(env, PrepareBluray(auth), at), Call(env, StageBlurayRemux(q, staged), at'),
                                        Call(env, PublishBlurayRemux(published), at'')])
         == Some(Execution(BlurayV1, RemuxId(auth), auth, None, PublishedState, at, at'', Some(q), None,
                           Some(ArtifactOf(staged.success.value)),
                           Some(Published(published.success.value.rootId, published.success.value.path)), None, None, None))
  {
    var r1 := FreshBluray(auth, at);
    assert Deliver(None, auth.caseId, env, PrepareBluray(auth), at) == Written(r1) && Valid(r1);
    BlurayStageIsWritten(r1, auth.caseId, env, q, staged, at');
    CallWrites(Some(r1), auth.caseId, env, StageBlurayRemux(q, staged), at');
    var r2 := Deliver(Some(r1), auth.caseId, env, StageBlurayRemux(q, staged), at').record;
    PublishIsWritten(r2, auth.caseId, env, published, at'');
    hide Deliver, Valid, RemuxShape, EncodableBluray, BlurayMatches, OutputAccepted, PathMatches;
    ThreeCalls(auth.caseId, Call(env, PrepareBluray(auth), at), Call(env, StageBlurayRemux(q, staged), at'),
               Call(env, PublishBlurayRemux(published), at''));
  }

  lemma ThreeCalls(caseId: string, a: Call, b: Call, c: Call)
    ensures var one := After(None, Deliver(None, caseId, a.env, a.event, a.at));
            var two := After(one, Deliver(one, caseId, b.env, b.event, b.at));
            RunFile(None, caseId, [a, b, c]) == After(two, Deliver(two, caseId, c.env, c.event, c.at))
  {
    hide Deliver;
    assert [a, b, c][..2] == [a, b] && [a, b][..1] == [a] && [a][..0] == [];
    assert RunFile(None, caseId, []) == None;
    var one := After(None, Deliver(None, caseId, a.env, a.event, a.at));
    assert RunFile(None, caseId, [a]) == one;
    assert RunFile(None, caseId, [a, b]) == After(one, Deliver(one, caseId, b.env, b.event, b.at));
  }

  lemma DvdIsPublished(auth: AuthorizedDvd, q: StageRequest, staged: Reply<Staged>, published: Reply<PublishedBody>,
                       env: Env, at: Time, at': Time, at'': Time)
    requires DvdShape(auth) && env.dvd == Some(auth) && at != ZERO_TIME && at' != ZERO_TIME && at'' != ZERO_TIME
    requires at <= at' <= at''
    requires EncodableDvd(q) && DvdMatches(FreshDvd(auth, at), q) && Correlated(q, staged)
    requires EncodableStageReply(StageDvd, staged) && staged.kind.Succeeded?
    requires OutputAccepted(staged.success.value.evidence, auth.durationMs, auth.chapters, 15000)
    requires EncodablePublishReply(PublishDvd, published) && published.kind.Succeeded?
    requires PublishedAs(published.success.value, ArtifactOf(staged.success.value), q, DVD_DEPTH)
    ensures RunFile(None, auth.caseId, [Call(env, PrepareDvd(auth), at), Call(env, StageDvdRemux(q, staged), at'),
                                        Call(env, PublishDvdRemux(published), at'')])
         == Some(Execution(DvdV1, DvdId(auth), NO_REMUX, Some(auth), PublishedState, at, at'', None, Some(q),
                           Some(ArtifactOf(staged.success.value)),
                           Some(Published(published.success.value.rootId, published.success.value.path)), None, None, None))
  {
    var r1 := FreshDvd(auth, at);
    assert Deliver(None, auth.caseId, env, PrepareDvd(auth), at) == Written(r1) && Valid(r1);
    DvdStageIsWritten(r1, auth.caseId, env, q, staged, at');
    CallWrites(Some(r1), auth.caseId, env, StageDvdRemux(q, staged), at');
    var r2 := Deliver(Some(r1), auth.caseId, env, StageDvdRemux(q, staged), at').record;
    PublishIsWritten(r2, auth.caseId, env, published, at'');
    hide Deliver, Valid, DvdShape, EncodableDvd, DvdMatches, OutputAccepted, PathMatches;
    ThreeCalls(auth.caseId, Call(env, PrepareDvd(auth), at), Call(env, StageDvdRemux(q, staged), at'),
               Call(env, PublishDvdRemux(published), at''));
  }

  /** A published disc's import is prepared, requested and confirmed, each with what was asked for. */
  lemma ImportIsWritten(r: Execution, caseId: string, env: Env, command: Command, historyBefore: int, at: Time)
    requires Valid(r) && r.state.PublishedState? && Timely(r, caseId, at)
    requires ValidImportRequest(env.template, command, historyBefore)
    ensures Deliver(Some(r), caseId, env, PrepareImport(command, historyBefore), at) == Written(
              r.(state := ImportPrepared, updatedAt := at, import_ := Some(Import(command, historyBefore, at, None))))
  {
    assert r.import_.None?;
    StepIsWritten(r, caseId, env, PrepareImport(command, historyBefore), at);
    hide Deliver, Valid, ValidImportRequest;
  }

  lemma RequestIsWritten(r: Execution, caseId: string, env: Env, commandId: int, at: Time)
    requires Valid(r) && r.state.ImportPrepared? && Timely(r, caseId, at) && commandId > 0
    ensures Deliver(Some(r), caseId, env, MarkRequested(commandId), at) == Written(
              r.(state := ImportRequested, updatedAt := at, import_ := Some(r.import_.value.(commandId := Some(commandId)))))
  {
    StepIsWritten(r, caseId, env, MarkRequested(commandId), at);
    hide Deliver, Valid;
  }

  lemma ConfirmationIsWritten(r: Execution, caseId: string, env: Env, c: Confirmation, at: Time)
    requires Valid(r) && (r.state.ImportPrepared? || r.state.ImportRequested?) && Timely(r, caseId, at)
    requires ValidConfirmation(c) && ConfirmsFile(c, r.import_.value.command.file) && c.historyId > r.import_.value.historyBefore
    ensures Deliver(Some(r), caseId, env, MarkImported(c), at)
         == Written(r.(state := Imported, updatedAt := at, confirmation := Some(c)))
  {
    StepIsWritten(r, caseId, env, MarkImported(c), at);
    hide Deliver, Valid, ValidConfirmation, ConfirmsFile;
  }

  lemma FailureIsWritten(r: Execution, caseId: string, env: Env, at: Time)
    requires Valid(r) && r.state.ImportRequested? && Timely(r, caseId, at)
    ensures Deliver(Some(r), caseId, env, MarkImportFailed, at) == Written(r.(state := ImportFailed, updatedAt := at))
  {
    StepIsWritten(r, caseId, env, MarkImportFailed, at);
    hide Deliver, Valid;
  }

  /** What a repeated call finds: the record already says what the call says. A repeated stage or publication is no such call. */
  predicate OnRecord(r: Execution, e: Event) {
    match e
    case PrepareBluray(auth) => r.executionId == RemuxId(auth) && r.auth == auth
    case PrepareDvd(auth) => r.version == DvdV1 && r.executionId == DvdId(auth) && r.dvd == Some(auth)
    case PrepareImport(command, historyBefore) =>
      r.import_.Some? && r.import_.value.command == command && r.import_.value.historyBefore == historyBefore
    case MarkRequested(commandId) => r.state.ImportRequested? && r.import_.Some? && r.import_.value.commandId == Some(commandId)
    case MarkImported(c) => r.state.Imported? && r.confirmation == Some(c)
    case MarkImportFailed => r.state.ImportFailed?
    case _ => false
  }

  /** An update of a rightly confirmed record is acknowledged without a write exactly when the record already says the same. */
  lemma AcknowledgedIff(r: Execution, caseId: string, env: Env, e: Event, at: Time)
    requires Valid(r) && Confirmed(r) && Timely(r, caseId, at) && !IsPrepare(e) && GoodInput(env, e)
    ensures Deliver(Some(r), caseId, env, e, at) == Kept <==> OnRecord(r, e)
  {
    CaseIdIsDigest(r);
    UnchangedIff(r, env, e, at);
    hide Valid, GoodInput, Update, OnRecord, Confirmed;
  }

  lemma UnchangedIff(r: Execution, env: Env, e: Event, at: Time)
    requires Valid(r) && Confirmed(r) && !IsPrepare(e) && GoodInput(env, e)
    ensures Update(r, env, e, at) == Unchanged <==> OnRecord(r, e)
  {
    hide Valid, GoodInput, BlurayMatches, DvdMatches, PathMatches, OutputAccepted, ConfirmsFile;
  }

  /** Preparing again: the same authorisation is kept and any other refused. */
  lemma PreparedAgain(r: Execution, caseId: string, env: Env, e: Event, at: Time)
    requires Valid(r) && at != ZERO_TIME
    requires (e.PrepareBluray? && RemuxShape(e.auth) && env.bluray == Some(e.auth))
             || (e.PrepareDvd? && DvdShape(e.dvdAuth) && env.dvd == Some(e.dvdAuth))
    ensures Deliver(Some(r), caseId, env, e, at) == if OnRecord(r, e) then Kept else Refused(Conflict)
  {
    hide Valid, RemuxShape, DvdShape;
  }
}
