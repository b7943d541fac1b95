/**
 What join calls are for: where each piece of evidence in a record comes from,
 when it was written, and that a join that meets no failure reaches its import.
 */
module JoinEffects {
  import opened Common
  import opened RepairRecords
  import opened JoinMachine
  import opened JoinRuns

  // ---------------------------------------------------------------- times

  /** A write carries its call's time, never moves time back, and is made under the record's own case id. */
  lemma WriteStamps(file: Option<Execution>, caseId: string, env: Env, e: Event, at: Time)
    ensures var d := Deliver(file, caseId, env, e, at);
            d.Written? ==>
              && d.record.updatedAt == at
              && (e.Prepare? ==> d.record == Execution(JoinV2, JoinId(e.auth), e.auth, Prepared, at, at,
                                                       None, None, None, None, None, None)
                                 && env.authorized == Some(e.auth))
              && (!e.Prepare? ==> file.Some? && file.value.updatedAt <= at && file.value.auth.caseId == caseId)
  {
    hide Update, InputError, Valid;
  }

  /** The record was created by a preparation for its authorisation, at its preparation time, that the plan allowed. */
  ghost predicate CreatedBy(call: Call, r: Execution) {
    && call.event == Prepare(r.auth) && call.env.authorized == Some(r.auth)
    && r.preparedAt == call.at && r.version == JoinV2 && r.executionId == JoinId(r.auth)
  }

  lemma {:induction false} RecordsWereCreated(caseId: string, calls: seq<Call>)
    ensures var file := RunFile(None, caseId, calls);
            file.Some? ==> exists i :: 0 <= i < |calls| && CreatedBy(calls[i], file.value)
  {
    if calls != [] {
      var n := |calls| - 1;
      var before := RunFile(None, caseId, calls[..n]);
      var c := calls[n];
      RecordsWereCreated(caseId, calls[..n]);
      WriteStamps(before, caseId, c.env, c.event, c.at);
      if !c.event.Prepare? { UpdateWrites(before, caseId, c.env, c.event, c.at); }
      hide Deliver, WriteOnce;
      if before.Some? {
        var i :| 0 <= i < n && CreatedBy(calls[..n][i], before.value);
        assert calls[..n][i] == calls[i];
      }
    }
  }

  /** The last call that wrote gave the record its time. */
  lemma {:induction false} UpdatedByLastWrite(file: Option<Execution>, caseId: string, calls: seq<Call>)
    ensures var last := RunFile(file, caseId, calls);
            last != file ==> last.Some? && exists i :: 0 <= i < |calls| && last.value.updatedAt == calls[i].at
  {
    if calls != [] {
      var n := |calls| - 1;
      var before := RunFile(file, caseId, calls[..n]);
      UpdatedByLastWrite(file, caseId, calls[..n]);
      WriteStamps(before, caseId, calls[n].env, calls[n].event, calls[n].at);
      hide Deliver;
      if before != file {
        var i :| 0 <= i < n && before.value.updatedAt == calls[..n][i].at;
        assert calls[..n][i] == calls[i];
      }
    }
  }

  // -------------------------------------------------------------- origins

  /** The pieces of evidence a record can hold. */
  datatype Piece = Verdict | Destination | Refusal | Request | CommandNumber | Proof | DiscardNote | FailureNote

  predicate Has(r: Execution, p: Piece) {
    match p
    case Verdict => r.stage.Some?
    case Destination => r.published.Some?
    case Refusal => r.failure.Some?
    case Request => r.import_.Some?
    case CommandNumber => r.import_.Some? && r.import_.value.commandId.Some?
    case Proof => r.confirmation.Some?
    case DiscardNote => r.state.Discarded?
    case FailureNote => r.state.ImportFailed?
  }

  /** The same command, but for an empty language list that was read back as nil. */
  predicate SameCommand(stored: Command, given: Command) {
    && stored == given.(file := given.file.(languages := stored.file.languages))
    && ItemsOf(stored.file.languages) == ItemsOf(given.file.languages)
  }

  /** The staged parts are the authorised files, and so are the totals. */
  predicate AskedAsAuthorized(q: StageRequest, a: AuthorizedJoin) {
    && q.caseId == a.caseId && q.capabilityId == a.capabilityId && q.sourceBytes == a.sourceBytes
    && q.durationMs == a.durationMs && q.toleranceMs == a.toleranceMs && q.container == a.container
    && q.streamCount == |a.streams| && |q.parts| == |a.parts|
    && forall i :: 0 <= i < |a.parts| ==>
         q.parts[i].fileId == a.parts[i].fileId && q.parts[i].digest == Strict(a.parts[i].fingerprint)
  }

  /** The request is for the authorised join and the answer is to this request. */
  predicate BelongTogether(q: StageRequest, reply: Reply<Staged>, a: AuthorizedJoin) {
    && AskedAsAuthorized(q, a) && WellSplit(reply)
    && (if reply.kind.Succeeded? then reply.success.value.requestId else reply.failure.value.requestId) == q.requestId
  }

  lemma BelongTogetherIff(q: StageRequest, reply: Reply<Staged>, a: AuthorizedJoin)
    requires Encodable(q) && EncodableStage(reply)
    ensures BelongTogether(q, reply, a)
            <==> RequestNotAuthorized !in Verify(a, q, reply) && ResponseNotCorrelated !in Verify(a, q, reply)
  {
    assert RequestMatches(q, a) <==> AskedAsAuthorized(q, a);
    hide Encodable, RequestMatches, AskedAsAuthorized, EncodableStaged, EncodableJoinFailure;
  }

  /** The command copies the file as the stored case describes it. */
  predicate FollowsTemplate(c: Command, t: ImportTemplate) {
    && c.copies && c.file.quality == t.quality && c.file.languages == Items(t.languages)
    && c.file.downloadId == t.downloadId && c.file.movieId == t.movieId
    && c.file.folderName == "" && c.file.releaseGroup == "" && c.file.indexerFlags == 0
  }

  /** The call says what the record holds. */
  ghost predicate Says(call: Call, r: Execution, p: Piece)
    requires Has(r, p)
  {
    match p
    case Verdict =>
      && call.event.Stage? && EncodableStage(call.event.stageReply)
      && call.event.staged == r.auth && call.event.request.executionId == r.executionId
      && r.stage == Some(Verify(r.auth, call.event.request, call.event.stageReply))
      && r.artifact == OutcomeOf(call.event.stageReply, r.stage.value).artifact
      && BelongTogether(call.event.request, call.event.stageReply, r.auth)
    case Destination =>
      && PublishedBy(call, r) && call.event.publishReply.success.value.artifactId == r.artifact.value.id
      && call.event.publishReply.success.value.fingerprint == r.artifact.value.fingerprint
    case Refusal =>
      (match call.event
       case Stage(_, _, reply) => reply.failure.Some? && r.failure == Some(Failure(StageJoin, reply.failure.value.reason))
       case RecordPublish(reply) => reply.failure.Some? && r.failure == Some(Failure(Publish, reply.failure.value.reason))
       case RecordDiscard(reply) => reply.failure.Some? && r.failure == Some(Failure(Discard, reply.failure.value.reason))
       case _ => false)
    case Request =>
      && call.event.PrepareImport? && SameCommand(r.import_.value.command, call.event.command)
      && r.import_.value.historyBefore == call.event.historyBefore && r.import_.value.preparedAt == call.at
      && call.env.template.Some? && FollowsTemplate(call.event.command, call.env.template.value)
    case CommandNumber => call.event == MarkRequested(r.import_.value.commandId.value)
    case Proof =>
      && call.event == MarkImported(r.confirmation.value) && r.import_.Some?
      && call.event.imported.historyId > r.import_.value.historyBefore
      && r.confirmation.value.movieId == r.import_.value.command.file.movieId
      && r.confirmation.value.downloadId == r.import_.value.command.file.downloadId
      && r.confirmation.value.droppedPath == r.import_.value.command.file.path
    case DiscardNote =>
      && call.event.RecordDiscard? && call.event.discardReply.kind.Succeeded? && call.event.discardReply.success.Some?
      && r.artifact.Some? && call.event.discardReply.success.value.artifactId == r.artifact.value.id
      && call.event.discardReply.success.value.fingerprint == r.artifact.value.fingerprint
    case FailureNote => call.event.MarkImportFailed?
  }

  predicate IsImportEvent(e: Event) { e.PrepareImport? || e.MarkRequested? || e.MarkImported? || e.MarkImportFailed? }

  /** A step brings a piece from its own call or leaves it. */
  lemma UpdateBrings(r: Execution, call: Call, p: Piece)
    requires Valid(r) && !call.event.Prepare? && InputError(call.env, call.event).None?
    ensures var u := Update(r, call.env, call.event, call.at);
            u.Changed? ==> !r.state.Discarded? && !r.state.ImportFailed? && (Has(u.record, p) ==> Has(r, p) || Says(call, u.record, p))
  {
    if IsImportEvent(call.event) { ImportBrings(r, call, p); } else { RepairBrings(r, call, p); }
    hide Valid, Update, InputError, Says, Has;
  }

  lemma RepairBrings(r: Execution, call: Call, p: Piece)
    requires Valid(r) && !call.event.Prepare? && !IsImportEvent(call.event) && InputError(call.env, call.event).None?
    ensures var u := Update(r, call.env, call.event, call.at);
            u.Changed? ==> !r.state.Discarded? && !r.state.ImportFailed? && (Has(u.record, p) ==> Has(r, p) || Says(call, u.record, p))
  {
    if call.event.Stage? { BelongTogetherIff(call.event.request, call.event.stageReply, call.event.staged); }
    hide Shape, Verify, ValidImport, ValidConfirmation, ReasonOf, ValidDestination, BelongTogether, Encodable;
  }

  lemma ImportBrings(r: Execution, call: Call, p: Piece)
    requires Valid(r) && IsImportEvent(call.event) && InputError(call.env, call.event).None?
    ensures var u := Update(r, call.env, call.event, call.at);
            u.Changed? ==> !r.state.Discarded? && !r.state.ImportFailed? && (Has(u.record, p) ==> Has(r, p) || Says(call, u.record, p))
  {
    hide Shape, Verify, ValidImport, ValidConfirmation, ReasonOf, ValidDestination;
  }

  lemma SaysStays(call: Call, r: Execution, r': Execution, p: Piece)
    requires Has(r, p) && Says(call, r, p) && SameIdentity(r, r') && WriteOnce(r, r')
    requires p.DiscardNote? || p.FailureNote? ==> r' == r
    requires r.stage.Some? ==> r.stage == r'.stage
    requires Has(r, Verdict) ==> r.artifact == r'.artifact
    requires Has(r, Proof) ==> Has(r, Request)
    ensures Has(r', p) && Says(call, r', p)
  {
    hide Verify, EncodableStage, EncodablePublish, BelongTogether;
  }

  /** The i-th call wrote to this execution and said what the record holds. */
  ghost predicate Origin(caseId: string, calls: seq<Call>, i: nat, r: Execution, p: Piece) {
    WroteTo(caseId, calls, i, r) && Has(r, p) && Says(calls[i], r, p)
  }

  lemma CallBrings(before: Option<Execution>, caseId: string, call: Call, p: Piece)
    ensures var d := Deliver(before, caseId, call.env, call.event, call.at);
            d.Written? && Has(d.record, p) ==>
              && before.Some? && Valid(before.value) && SameIdentity(before.value, d.record) && WriteOnce(before.value, d.record)
              && (Says(call, d.record, p) || (Has(before.value, p) && !p.DiscardNote? && !p.FailureNote?))
              && (before.value.stage.Some? ==> before.value.artifact == d.record.artifact)
  {
    if !call.event.Prepare? {
      UpdateWrites(before, caseId, call.env, call.event, call.at);
      if Deliver(before, caseId, call.env, call.event, call.at).Written? {
        var r := ReadBack(before.value);
        ReadBackHas(before.value, p);
        UpdateBrings(r, call, p);
        ArtifactStays(r, call);
        SaysUnstamped(call, Update(r, call.env, call.event, call.at).record, p);
      }
      hide Deliver, Update, InputError, Valid, Says;
    }
  }

  lemma ReadBackHas(r: Execution, p: Piece)
    ensures Has(ReadBack(r), p) <==> Has(r, p)
    ensures ReadBack(r).artifact == r.artifact && ReadBack(r).stage == r.stage && ReadBack(r).state == r.state
  {
  }

  lemma ArtifactStays(r: Execution, call: Call)
    requires Valid(r) && !call.event.Prepare? && InputError(call.env, call.event).None?
    ensures var u := Update(r, call.env, call.event, call.at);
            u.Changed? && r.stage.Some? ==> u.record.artifact == r.artifact
  {
    hide Valid, Verify, InputError;
  }

  lemma SaysUnstamped(call: Call, r: Execution, p: Piece)
    ensures Has(r.(updatedAt := call.at), p) <==> Has(r, p)
    ensures Has(r, p) ==> (Says(call, r.(updatedAt := call.at), p) <==> Says(call, r, p))
  {
    hide Verify, EncodableStage, EncodablePublish;
  }

  /** What a valid record holds only after something else. */
  function Needs(p: Piece): Option<Piece> {
    match p
    case Verdict => None
    case Refusal => None
    case Destination => Some(Verdict)
    case Request => Some(Destination)
    case CommandNumber => Some(Request)
    case Proof => Some(Request)
    case DiscardNote => Some(Verdict)
    case FailureNote => Some(CommandNumber)
  }

  lemma PiecesInOrder(r: Execution, p: Piece)
    requires Valid(r) && Has(r, p) && Needs(p).Some?
    ensures Has(r, Needs(p).value)
  {
    hide Shape, ValidImport, ValidConfirmation, ValidDestination, ReasonOf;
  }

  /** The call that brings a piece finds what the piece comes after. */
  lemma FindsEarlierPiece(r: Execution, call: Call, p: Piece)
    requires Valid(r) && !call.event.Prepare? && InputError(call.env, call.event).None?
    requires Needs(p).Some? && Update(r, call.env, call.event, call.at).Changed?
    requires Has(Update(r, call.env, call.event, call.at).record, p) && !Has(r, p)
    ensures Has(r, Needs(p).value)
  {
    hide Shape, Verify, ValidImport, ValidConfirmation, ReasonOf, ValidDestination, InputError;
  }

  /** What a later record keeps of an earlier one. */
  ghost predicate Continues(r: Execution, r': Execution) {
    && SameIdentity(r, r') && WriteOnce(r, r') && (r.stage.Some? ==> r.artifact == r'.artifact)
    && (Has(r, Proof) ==> Has(r, Request))
  }

  predicate IsNote(p: Piece) { p.DiscardNote? || p.FailureNote? }

  /** The last call of a run said the piece, or found it and left it. */
  lemma LastCall(caseId: string, calls: seq<Call>, p: Piece)
    requires calls != []
    ensures var n := |calls| - 1;
            var before, after := RunFile(None, caseId, calls[..n]), RunFile(None, caseId, calls);
            after.Some? && Has(after.value, p) ==>
              && before.Some? && Continues(before.value, after.value)
              && (|| Origin(caseId, calls, n, after.value, p)
                  || (Has(before.value, p) && (IsNote(p) ==> after == before)))
  {
    var n := |calls| - 1;
    var before, c := RunFile(None, caseId, calls[..n]), calls[n];
    RunsStayValid(None, caseId, calls[..n]);
    CallBrings(before, caseId, c, p);
    if before.Some? {
      IdentityStays(before.value);
      ProofHasRequest(before.value);
    }
    hide Deliver, Says, Valid, WriteOnce, SameIdentity, Has;
  }

  lemma IdentityStays(r: Execution)
    ensures SameIdentity(r, r) && WriteOnce(r, r)
  {
  }

  lemma ProofHasRequest(r: Execution)
    requires Valid(r)
    ensures Has(r, Proof) ==> Has(r, Request)
  {
    if Has(r, Proof) { PiecesInOrder(r, Proof); }
  }

  lemma OriginStays(caseId: string, calls: seq<Call>, i: nat, r: Execution, r': Execution, p: Piece)
    requires calls != [] && i < |calls| - 1 && Origin(caseId, calls[..|calls| - 1], i, r, p)
    requires Continues(r, r') && (IsNote(p) ==> r' == r)
    ensures Origin(caseId, calls, i, r', p)
  {
    WroteStays(caseId, calls, i, r, r');
    SaysStays(calls[i], r, r', p);
    hide Deliver, Says, WriteOnce, SameIdentity, RunFile, WroteTo, Has;
  }

  lemma WroteStays(caseId: string, calls: seq<Call>, i: nat, r: Execution, r': Execution)
    requires calls != [] && i < |calls| - 1 && WroteTo(caseId, calls[..|calls| - 1], i, r) && SameIdentity(r, r')
    ensures WroteTo(caseId, calls, i, r') && calls[..|calls| - 1][i] == calls[i]
  {
    assert calls[..|calls| - 1][..i] == calls[..i];
    hide Deliver, RunFile;
  }

  /**
   Every piece of evidence in a record a run leaves was said by a call that wrote
   to this very execution: the verdict is verification's on that call's request
   and reply, the destination and artifact are the published ones, the command,
   history baseline and preparation time are those asked for, the command number
   and the confirmation are those reported, and the confirmation is newer than
   the baseline asked for.
   */
  lemma {:induction false} EvidenceWasSaid(caseId: string, calls: seq<Call>, p: Piece)
    ensures var file := RunFile(None, caseId, calls);
            file.Some? && Has(file.value, p) ==> exists i :: 0 <= i < |calls| && Origin(caseId, calls, i, file.value, p)
  {
    if calls != [] {
      var n := |calls| - 1;
      var before, after := RunFile(None, caseId, calls[..n]), RunFile(None, caseId, calls);
      EvidenceWasSaid(caseId, calls[..n], p);
      LastCall(caseId, calls, p);
      hide RunFile, Origin, Continues, Has;
      if after.Some? && Has(after.value, p) && !Origin(caseId, calls, n, after.value, p) {
        var i :| 0 <= i < n && Origin(caseId, calls[..n], i, before.value, p);
        OriginStays(caseId, calls, i, before.value, after.value, p);
      }
    }
  }

  lemma CallFindsEarlier(before: Option<Execution>, caseId: string, call: Call, p: Piece)
    requires Needs(p).Some? && (before.Some? ==> !Has(before.value, p))
    ensures var d := Deliver(before, caseId, call.env, call.event, call.at);
            d.Written? && Has(d.record, p) ==> before.Some? && Has(before.value, Needs(p).value)
  {
    if !call.event.Prepare? {
      UpdateWrites(before, caseId, call.env, call.event, call.at);
      if Deliver(before, caseId, call.env, call.event, call.at).Written? {
        ReadBackHas(before.value, p);
        ReadBackHas(before.value, Needs(p).value);
        SaysUnstamped(call, Update(ReadBack(before.value), call.env, call.event, call.at).record, p);
        if Has(Deliver(before, caseId, call.env, call.event, call.at).record, p) {
          FindsEarlierPiece(ReadBack(before.value), call, p);
        }
      }
      hide Deliver, Update, InputError, Valid;
    }
  }

  lemma PairStays(caseId: string, calls: seq<Call>, i: nat, j: nat, r: Execution, r': Execution, q: Piece, p: Piece)
    requires calls != [] && i < j < |calls| - 1
    requires Origin(caseId, calls[..|calls| - 1], i, r, q) && Origin(caseId, calls[..|calls| - 1], j, r, p)
    requires Continues(r, r') && !IsNote(q) && (IsNote(p) ==> r' == r)
    ensures Origin(caseId, calls, i, r', q) && Origin(caseId, calls, j, r', p)
  {
    OriginStays(caseId, calls, i, r, r', q);
    OriginStays(caseId, calls, j, r, r', p);
    hide Origin, Continues;
  }

  /**
   The calls that said it came in order: the verdict before the destination, the
   destination before the import request, the request before the command number
   and before the confirmation, the verdict before a discard.
   */
  lemma {:induction false} EvidenceInOrder(caseId: string, calls: seq<Call>, p: Piece)
    requires Needs(p).Some?
    ensures var file := RunFile(None, caseId, calls);
            file.Some? && Has(file.value, p) ==>
              exists i, j :: 0 <= i < j < |calls| && Origin(caseId, calls, i, file.value, Needs(p).value)
                             && Origin(caseId, calls, j, file.value, p)
  {
    if calls != [] {
      var n := |calls| - 1;
      var before, after, q := RunFile(None, caseId, calls[..n]), RunFile(None, caseId, calls), Needs(p).value;
      EvidenceInOrder(caseId, calls[..n], p);
      EvidenceWasSaid(caseId, calls[..n], q);
      LastCall(caseId, calls, p);
      LastFindsEarlier(caseId, calls, p);
      assert !IsNote(q);
      hide RunFile, Origin, Continues, Has, Needs;
      if after.Some? && Has(after.value, p) {
        if Has(before.value, p) && (IsNote(p) ==> after == before) {
          var i, j :| 0 <= i < j < n && Origin(caseId, calls[..n], i, before.value, q)
                      && Origin(caseId, calls[..n], j, before.value, p);
          PairStays(caseId, calls, i, j, before.value, after.value, q, p);
        } else {
          var i :| 0 <= i < n && Origin(caseId, calls[..n], i, before.value, q);
          OriginStays(caseId, calls, i, before.value, after.value, q);
        }
      }
    }
  }

  lemma LastFindsEarlier(caseId: string, calls: seq<Call>, p: Piece)
    requires calls != [] && Needs(p).Some?
    ensures var n := |calls| - 1;
            var before, after := RunFile(None, caseId, calls[..n]), RunFile(None, caseId, calls);
            after.Some? && Has(after.value, p) && (before.Some? && Has(before.value, p) ==> IsNote(p) && after != before) ==>
              before.Some? && Has(before.value, Needs(p).value)
  {
    var n := |calls| - 1;
    var before := RunFile(None, caseId, calls[..n]);
    RunsStayValid(None, caseId, calls[..n]);
    if before.Some? && Has(before.value, p) { PiecesInOrder(before.value, p); }
    if before.None? || !Has(before.value, p) { CallFindsEarlier(before, caseId, calls[n], p); }
    hide Deliver, Valid, Has, Needs;
  }

  // --------------------------------------------------- what was verified

  /** The output has the size reported, a duration within the tolerance, the container and the streams. */
  predicate RightOutput(s: Staged, a: AuthorizedJoin) {
    && s.evidence.sizeBytes == Some(s.sizeBytes) && s.sizeBytes > 0
    && !s.evidence.durationConflict && s.evidence.durationMs.Some?
    && a.durationMs - a.toleranceMs <= s.evidence.durationMs.value <= a.durationMs + a.toleranceMs
    && (match a.container
        case Avi => "avi" in s.evidence.formatNames
        case Mkv => "matroska" in s.evidence.formatNames
        case Mp4 => "mp4" in s.evidence.formatNames
        case OtherContainer(_) => false)
    && s.evidence.streamsMatch
  }

  /** Verification finds nothing exactly when request and answer are well-formed, belong together and the output is right. */
  lemma VerifiedIff(a: AuthorizedJoin, q: StageRequest, reply: Reply<Staged>)
    ensures Verify(a, q, reply) == [] <==>
            && Encodable(q) && EncodableStage(reply) && AskedAsAuthorized(q, a)
            && reply.kind.Succeeded? && reply.success.value.requestId == q.requestId && RightOutput(reply.success.value, a)
  {
    if Encodable(q) && EncodableStage(reply) {
      assert RequestMatches(q, a) <==> AskedAsAuthorized(q, a);
      hide Encodable, RequestMatches, AskedAsAuthorized;
      if reply.kind.Succeeded? { OutputIff(a, reply.success.value); }
      hide OutputRejections, RightOutput, EncodableStaged;
    }
  }

  lemma OutputIff(a: AuthorizedJoin, s: Staged)
    ensures OutputRejections(a, s.evidence, s.sizeBytes) == [] <==> RightOutput(s, a)
  {
  }

  /** A published join's artifact is a right output for the authorised parts. */
  lemma PublishedOutputIsRight(caseId: string, calls: seq<Call>)
    ensures var file := RunFile(None, caseId, calls);
            file.Some? && file.value.published.Some? ==>
              && file.value.artifact.Some?
              && exists i :: 0 <= i < |calls| && StagedRight(caseId, calls, i, file.value)
  {
    var file := RunFile(None, caseId, calls);
    if file.Some? && file.value.published.Some? {
      PublishedWasVerified(caseId, calls);
      hide RunFile, Verify;
      var i, j :| 0 <= i < j < |calls| && StagedAt(caseId, calls, i, file.value) && PublishedAt(caseId, calls, j, file.value);
      VerifiedIff(file.value.auth, calls[i].event.request, calls[i].event.stageReply);
      hide WroteTo, AskedAsAuthorized, RightOutput, Encodable;
      assert StagedRight(caseId, calls, i, file.value);
    }
  }

  /** The call staged this artifact from the authorised parts, and its output is right. */
  ghost predicate StagedRight(caseId: string, calls: seq<Call>, i: nat, r: Execution) {
    && WroteTo(caseId, calls, i, r) && calls[i].event.Stage? && calls[i].event.stageReply.success.Some?
    && AskedAsAuthorized(calls[i].event.request, r.auth)
    && var s := calls[i].event.stageReply.success.value;
       RightOutput(s, r.auth) && r.artifact == Some(Artifact(s.artifactId, s.fingerprint, s.sizeBytes))
  }

  /** The state says exactly which evidence there is. */
  predicate StateFits(r: Execution) {
    var clean := r.stage == Some([]);
    var dirty := r.stage.Some? && r.stage.value != [];
    && (r.failure.Some? <==> r.state.JoinFailed?) && (r.confirmation.Some? <==> r.state.Imported?)
    && r.preparedAt <= r.updatedAt
    && (r.import_.Some? ==> r.preparedAt <= r.import_.value.preparedAt <= r.updatedAt)
    && match r.state
       case Prepared => r.stage.None? && r.artifact.None? && r.published.None? && r.import_.None?
       case ArtifactReady => clean && r.artifact.Some? && r.published.None? && r.import_.None?
       case DiscardPending | Discarded => dirty && r.artifact.Some? && r.published.None? && r.import_.None?
       case PublishedState => clean && r.artifact.Some? && r.published.Some? && r.import_.None?
       case JoinFailed =>
         && r.published.None? && r.import_.None?
         && (match r.failure.value.operation
             case StageJoin => dirty && r.artifact.None?
             case Publish => clean && r.artifact.Some?
             case Discard => dirty && r.artifact.Some?
             case _ => false)
       case ImportPrepared => clean && r.artifact.Some? && r.published.Some? && r.import_.Some? && r.import_.value.commandId.None?
       case ImportRequested | ImportFailed =>
         clean && r.artifact.Some? && r.published.Some? && r.import_.Some? && r.import_.value.commandId.Some?
       case Imported => clean && r.artifact.Some? && r.published.Some? && r.import_.Some?
       case OtherState(_) => false
  }

  lemma ValidStateFits(r: Execution)
    requires Valid(r)
    ensures StateFits(r)
  {
    hide Shape, ValidDestination, ReasonOf, ValidConfirmation, Complete, ValidArtifact, ConfirmsFile;
    assert r.artifact.None? ==> !ValidArtifact(r.artifact) by { ArtifactThere(r.artifact); }
    if !r.state.Prepared? { assert ValidResult(r); }
  }

  lemma ArtifactThere(a: Option<Artifact>)
    ensures ValidArtifact(a) ==> a.Some?
  {
  }

  /** What a stored record must be to be acted on: its identity, its times and its evidence fit. */
  predicate Sound(r: Execution) {
    && r.version == JoinV2 && (r.executionId == JoinId(r.auth) || r.executionId == LegacyJoinId(r.auth))
    && r.preparedAt != ZERO_TIME && r.updatedAt != ZERO_TIME && StateFits(r) && 2 <= |r.auth.parts| <= 128
    && (r.confirmation.Some? ==>
          && r.import_.Some? && r.confirmation.value.historyId > r.import_.value.historyBefore
          && r.confirmation.value.movieId == r.import_.value.command.file.movieId
          && r.confirmation.value.downloadId == r.import_.value.command.file.downloadId
          && r.confirmation.value.droppedPath == r.import_.value.command.file.path)
  }

  /** Whatever wrote it, a record that does not fit is neither changed nor acknowledged by any call. */
  lemma UnsoundIsRefused(r: Execution, caseId: string, env: Env, e: Event, at: Time)
    requires !Sound(r)
    ensures Deliver(Some(r), caseId, env, e, at).Refused?
  {
    if Valid(r) {
      ValidStateFits(r);
      if r.state.Imported? { ConfirmationHeld(r); }
      hide StateFits;
    }
    hide Update, InputError;
  }

  lemma ReachedStateFits(caseId: string, calls: seq<Call>)
    ensures var file := RunFile(None, caseId, calls); file.Some? ==> StateFits(file.value)
  {
    RunsStayValid(None, caseId, calls);
    var file := RunFile(None, caseId, calls);
    if file.Some? { ValidStateFits(file.value); }
    hide RunFile, Valid, StateFits;
  }

  // ------------------------------------------------------------ completion

  /** The call is delivered in time, to its own case. */
  predicate Timely(r: Execution, caseId: string, at: Time) { r.auth.caseId == caseId && r.updatedAt <= at && at != ZERO_TIME }

  /** A guarded step on well-formed input is written. */
  lemma StepIsWritten(r: Execution, caseId: string, env: Env, e: Event, at: Time)
    requires Valid(r) && Timely(r, caseId, at) && !e.Prepare? && InputError(env, e).None? && WellFormed(e)
    requires Update(ReadBack(r), env, e, at).Changed?
    ensures Deliver(Some(r), caseId, env, e, at) == Written(Update(ReadBack(r), env, e, at).record.(updatedAt := at))
    ensures Valid(Update(ReadBack(r), env, e, at).record.(updatedAt := at))
  {
    UpdateAgreesWithValidator(ReadBack(r), env, e, at);
    hide Update, InputError, WellFormed;
    assert Sha256Id(caseId);
    hide Valid;
  }

  lemma PreparationIsWritten(caseId: string, env: Env, auth: AuthorizedJoin, at: Time)
    requires Shape(auth) && auth.caseId == caseId && env.authorized == Some(auth) && at != ZERO_TIME
    ensures var created := Execution(JoinV2, JoinId(auth), auth, Prepared, at, at, None, None, None, None, None, None);
            Deliver(None, caseId, env, Prepare(auth), at) == Written(created) && Valid(created)
  {
  }

  /** Preparing again: a record of the same authorisation is kept, unless it was discarded under the former identity. */
  lemma PreparedAgain(r: Execution, caseId: string, env: Env, auth: AuthorizedJoin, at: Time)
    requires Valid(r) && Shape(auth) && Sha256Id(auth.caseId) && env.authorized == Some(auth) && at != ZERO_TIME
    ensures Deliver(Some(r), caseId, env, Prepare(auth), at)
         == if r.auth != auth then Refused(Conflict)
            else if r.state.Discarded? && r.executionId != JoinId(auth) then
              Written(Execution(JoinV2, JoinId(auth), auth, Prepared, at, at, None, None, None, None, None, None))
            else Kept
  {
    hide UpdateCall;
  }

  /** Stages of a prepared record: accepted, to be discarded, or failed, as the reply and verification say. */
  lemma StageIsWritten(r: Execution, caseId: string, env: Env, request: StageRequest, reply: Reply<Staged>, at: Time)
    requires Valid(r) && r.state.Prepared? && Timely(r, caseId, at)
    requires Encodable(request) && EncodableStage(reply) && request.executionId == r.executionId
    requires BelongTogether(request, reply, r.auth)
    requires WellFormed(Stage(r.auth, request, reply))
    ensures var rejections := Verify(r.auth, request, reply);
            Deliver(Some(r), caseId, env, Stage(r.auth, request, reply), at) == Written(
              if reply.kind.FailedKind? then
                r.(state := JoinFailed, stage := Some(rejections), updatedAt := at,
                   failure := Some(Failure(StageJoin, reply.failure.value.reason)))
              else
                r.(state := if rejections == [] then ArtifactReady else DiscardPending, stage := Some(rejections), updatedAt := at,
                   artifact := Some(Artifact(reply.success.value.artifactId, reply.success.value.fingerprint,
                                             reply.success.value.sizeBytes))))
  {
    var e := Stage(r.auth, request, reply);
    BelongTogetherIff(request, reply, r.auth);
    assert InputError(env, e).None? && ReadBack(r) == r;
    assert Update(r, env, e, at).Changed? by { hide Verify, Valid; }
    StepIsWritten(r, caseId, env, e, at);
    hide Deliver, Verify, InputError, Valid, BelongTogether;
  }

  /** A stage that is for another authorisation, or whose answer is to another request, is refused. */
  lemma MismatchedStageIsRefused(file: Option<Execution>, caseId: string, env: Env, auth: AuthorizedJoin, request: StageRequest,
                                 reply: Reply<Staged>, at: Time)
    requires Encodable(request) && EncodableStage(reply) && !BelongTogether(request, reply, auth)
    ensures Deliver(file, caseId, env, Stage(auth, request, reply), at) == Refused(Mismatch)
  {
    BelongTogetherIff(request, reply, auth);
    hide Verify, BelongTogether;
  }

  /** A ready artifact's publication, or its failure, is recorded. */
  lemma PublishIsWritten(r: Execution, caseId: string, env: Env, reply: Reply<PublishedBody>, at: Time)
    requires Valid(r) && r.state.ArtifactReady? && Timely(r, caseId, at)
    requires EncodablePublish(reply) && WellFormed(RecordPublish(reply))
    requires reply.kind.Succeeded? ==> PublishesArtifact(r.artifact.value, reply.success.value)
    ensures Deliver(Some(r), caseId, env, RecordPublish(reply), at) == Written(
              if reply.kind.Succeeded? then
                r.(state := PublishedState, updatedAt := at,
                   published := Some(Published(reply.success.value.rootId, reply.success.value.path)))
              else r.(state := JoinFailed, updatedAt := at, failure := Some(Failure(Publish, reply.failure.value.reason))))
  {
    assert ReadBack(r) == r;
    StepIsWritten(r, caseId, env, RecordPublish(reply), at);
    hide Deliver, EncodablePublish;
  }

  /** A rejected artifact's discard, or its failure, is recorded. */
  lemma DiscardIsWritten(r: Execution, caseId: string, env: Env, reply: Reply<DiscardedBody>, at: Time)
    requires Valid(r) && r.state.DiscardPending? && Timely(r, caseId, at)
    requires EncodableDiscard(reply) && WellFormed(RecordDiscard(reply))
    requires reply.kind.Succeeded? ==> DiscardsArtifact(r.artifact.value, reply.success.value)
    ensures Deliver(Some(r), caseId, env, RecordDiscard(reply), at) == Written(
              if reply.kind.Succeeded? then r.(state := Discarded, updatedAt := at)
              else r.(state := JoinFailed, updatedAt := at, failure := Some(Failure(Discard, reply.failure.value.reason))))
  {
    assert ReadBack(r) == r;
    StepIsWritten(r, caseId, env, RecordDiscard(reply), at);
    hide Deliver, EncodableDiscard;
  }

  /** A published join's import is prepared, requested, and confirmed or failed. */
  lemma ImportIsWritten(r: Execution, caseId: string, env: Env, command: Command, historyBefore: int, at: Time)
    requires Valid(r) && r.state.PublishedState? && Timely(r, caseId, at)
    requires ValidImportRequest(env.template, command, historyBefore)
    ensures Deliver(Some(r), caseId, env, PrepareImport(command, historyBefore), at) == Written(
              r.(state := ImportPrepared, updatedAt := at, import_ := Some(Import(command, historyBefore, at, None))))
  {
    assert ReadBack(r) == r;
    StepIsWritten(r, caseId, env, PrepareImport(command, historyBefore), at);
    hide Deliver, ValidImportRequest;
  }

  lemma RequestIsWritten(r: Execution, caseId: string, env: Env, commandId: int, at: Time)
    requires Valid(r) && r.state.ImportPrepared? && Timely(r, caseId, at) && commandId > 0
    ensures var read := ReadBack(r);
            Deliver(Some(r), caseId, env, MarkRequested(commandId), at) == Written(
              read.(state := ImportRequested, updatedAt := at, import_ := Some(read.import_.value.(commandId := Some(commandId)))))
  {
    StepIsWritten(r, caseId, env, MarkRequested(commandId), at);
    hide Deliver;
  }

  lemma ConfirmationIsWritten(r: Execution, caseId: string, env: Env, c: Confirmation, at: Time)
    requires Valid(r) && (r.state.ImportPrepared? || r.state.ImportRequested?) && Timely(r, caseId, at)
    requires ValidConfirmation(c) && ConfirmsFile(c, r.import_.value.command.file) && c.historyId > r.import_.value.historyBefore
    ensures Deliver(Some(r), caseId, env, MarkImported(c), at)
         == Written(ReadBack(r).(state := Imported, updatedAt := at, confirmation := Some(c)))
  {
    assert ConfirmsFile(c, ReadBack(r).import_.value.command.file);
    StepIsWritten(r, caseId, env, MarkImported(c), at);
    hide Deliver, ValidConfirmation;
  }

  /** What a repeated call finds: the record already says what the call says. */
  predicate OnRecord(r: Execution, e: Event)
    requires e.Stage? ==> WellSplit(e.stageReply)
    requires e.RecordPublish? ==> WellSplit(e.publishReply)
    requires e.RecordDiscard? ==> WellSplit(e.discardReply)
  {
    match e
    case Prepare(auth) => r.auth == auth && (r.state.Discarded? ==> r.executionId == JoinId(auth))
    case Stage(auth, q, reply) =>
      && r.auth == auth && q.executionId == r.executionId && r.stage == Some(Verify(auth, q, reply))
      && (if reply.kind.FailedKind? then
            r.artifact.None? && r.failure == Some(Failure(StageJoin, reply.failure.value.reason))
          else
            r.artifact == Some(Artifact(reply.success.value.artifactId, reply.success.value.fingerprint,
                                        reply.success.value.sizeBytes)))
    case RecordPublish(reply) =>
      if reply.kind.FailedKind? then r.failure == Some(Failure(Publish, reply.failure.value.reason))
      else
        && r.state.PublishedState? && r.artifact.Some? && reply.success.value.artifactId == r.artifact.value.id
        && reply.success.value.fingerprint == r.artifact.value.fingerprint
        && r.published == Some(Published(reply.success.value.rootId, reply.success.value.path))
    case RecordDiscard(reply) =>
      if reply.kind.FailedKind? then r.failure == Some(Failure(Discard, reply.failure.value.reason))
      else
        && r.state.Discarded? && r.artifact.Some? && reply.success.value.artifactId == r.artifact.value.id
        && reply.success.value.fingerprint == r.artifact.value.fingerprint
    case PrepareImport(command, _) => r.import_.Some? && r.import_.value.command == command
    case MarkRequested(commandId) => r.state.ImportRequested? && r.import_.Some? && r.import_.value.commandId == Some(commandId)
    case MarkImported(c) => r.state.Imported? && r.confirmation == Some(c)
    case MarkImportFailed => r.state.ImportFailed?
  }

  /** An update is acknowledged without a write exactly when the record, as it is read, already says the same. */
  lemma AcknowledgedIff(r: Execution, caseId: string, env: Env, e: Event, at: Time)
    requires Valid(r) && Timely(r, caseId, at) && !e.Prepare? && InputError(env, e).None?
    ensures Deliver(Some(r), caseId, env, e, at) == Kept <==> OnRecord(ReadBack(r), e)
  {
    UnchangedIff(ReadBack(r), env, e, at);
    assert Sha256Id(caseId);
    hide Update, InputError, Valid, OnRecord;
  }

  lemma UnchangedIff(r: Execution, env: Env, e: Event, at: Time)
    requires Valid(r) && !e.Prepare? && InputError(env, e).None?
    ensures Update(r, env, e, at) == Unchanged <==> OnRecord(r, e)
  {
    ValidStateFits(r);
    if r.state.Imported? { ConfirmationHeld(r); }
    hide Valid, Verify, Encodable;
  }

  lemma ConfirmationHeld(r: Execution)
    requires Valid(r) && r.state.Imported?
    ensures r.import_.Some? && r.confirmation.Some? && ConfirmsFile(r.confirmation.value, r.import_.value.command.file)
    ensures r.confirmation.value.historyId > r.import_.value.historyBefore
  {
    hide Shape, ValidDestination, ReasonOf, ValidConfirmation, Complete;
  }

  lemma FailureIsWritten(r: Execution, caseId: string, env: Env, at: Time)
    requires Valid(r) && r.state.ImportRequested? && Timely(r, caseId, at)
    ensures Deliver(Some(r), caseId, env, MarkImportFailed, at) == Written(ReadBack(r).(state := ImportFailed, updatedAt := at))
  {
    StepIsWritten(r, caseId, env, MarkImportFailed, at);
    hide Deliver;
  }

  /** What a successful join is told, call by call. */
  datatype Success = Success(
    auth: AuthorizedJoin, request: StageRequest, staged: Reply<Staged>, published: Reply<PublishedBody>,
    command: Command, historyBefore: int, commandId: int, confirmation: Confirmation, times: seq<Time>)

  predicate Succeeds(g: Success, env: Env) {
    && |g.times| == 6 && g.times[0] != ZERO_TIME
    && g.times[0] <= g.times[1] <= g.times[2] <= g.times[3] <= g.times[4] <= g.times[5]
    && (forall i :: 0 <= i < 6 ==> g.times[i] != ZERO_TIME)
    && Shape(g.auth) && env.authorized == Some(g.auth)
    && EncodableStage(g.staged) && g.staged.kind.Succeeded? && g.request.executionId == JoinId(g.auth)
    && Verify(g.auth, g.request, g.staged) == []
    && EncodablePublish(g.published) && g.published.kind.Succeeded?
    && g.published.success.value.artifactId == g.staged.success.value.artifactId
    && g.published.success.value.fingerprint == g.staged.success.value.fingerprint
    && ValidImportRequest(env.template, g.command, g.historyBefore) && g.commandId > 0
    && ValidConfirmation(g.confirmation) && ConfirmsFile(g.confirmation, g.command.file)
    && g.confirmation.historyId > g.historyBefore
  }

  function CallsOf(g: Success, env: Env): seq<Call>
    requires |g.times| == 6
  {
    [Call(env, Prepare(g.auth), g.times[0]), Call(env, Stage(g.auth, g.request, g.staged), g.times[1]),
     Call(env, RecordPublish(g.published), g.times[2]), Call(env, PrepareImport(g.command, g.historyBefore), g.times[3]),
     Call(env, MarkRequested(g.commandId), g.times[4]), Call(env, MarkImported(g.confirmation), g.times[5])]
  }

  /** A join whose stage verifies, whose artifact is published and whose import is confirmed ends imported, with all of it on record. */
  lemma SuccessfulJoinIsImported(g: Success, env: Env)
    requires Succeeds(g, env)
    ensures var file := RunFile(None, g.auth.caseId, CallsOf(g, env));
            && file.Some? && file.value.state == Imported && file.value.auth == g.auth
            && file.value.stage == Some([])
            && file.value.artifact == Some(Artifact(g.staged.success.value.artifactId, g.staged.success.value.fingerprint,
                                                    g.staged.success.value.sizeBytes))
            && file.value.published == Some(Published(g.published.success.value.rootId, g.published.success.value.path))
            && file.value.import_.Some? && SameCommand(file.value.import_.value.command, g.command)
            && file.value.import_.value.historyBefore == g.historyBefore
            && file.value.import_.value.commandId == Some(g.commandId)
            && file.value.confirmation == Some(g.confirmation) && file.value.updatedAt == g.times[5]
  {
    var r3 := SuccessfulJoinIsPublished(g, env);
    var calls, id := CallsOf(g, env), g.auth.caseId;
    hide Deliver, Verify, Succeeds, Valid;
    SuccessParts(g, env);
    ImportIsWritten(r3, id, env, g.command, g.historyBefore, g.times[3]);
    var r4 := Deliver(Some(r3), id, env, PrepareImport(g.command, g.historyBefore), g.times[3]).record;
    ValidatingWrite(Some(r3), id, env, PrepareImport(g.command, g.historyBefore), g.times[3]);
    RequestIsWritten(r4, id, env, g.commandId, g.times[4]);
    var r5 := Deliver(Some(r4), id, env, MarkRequested(g.commandId), g.times[4]).record;
    ValidatingWrite(Some(r4), id, env, MarkRequested(g.commandId), g.times[4]);
    ConfirmationIsWritten(r5, id, env, g.confirmation, g.times[5]);
    assert calls[..4] == calls[..3] + [calls[3]] && calls[..5] == calls[..4] + [calls[4]] && calls == calls[..5] + [calls[5]];
    OneMore(None, id, calls[..3], calls[3]);
    OneMore(None, id, calls[..4], calls[4]);
    OneMore(None, id, calls[..5], calls[5]);
  }

  lemma OneMore(file: Option<Execution>, caseId: string, calls: seq<Call>, last: Call)
    ensures var before := RunFile(file, caseId, calls);
            RunFile(file, caseId, calls + [last]) == After(before, Deliver(before, caseId, last.env, last.event, last.at))
  {
    assert (calls + [last])[..|calls|] == calls;
  }

  lemma SuccessParts(g: Success, env: Env)
    requires Succeeds(g, env)
    ensures |g.times| == 6 && g.times[3] != ZERO_TIME && g.times[4] != ZERO_TIME && g.times[5] != ZERO_TIME
    ensures g.times[2] <= g.times[3] <= g.times[4] <= g.times[5]
    ensures ValidImportRequest(env.template, g.command, g.historyBefore) && g.commandId > 0
    ensures ValidConfirmation(g.confirmation) && ConfirmsFile(g.confirmation, g.command.file)
    ensures g.confirmation.historyId > g.historyBefore
  {
  }

  lemma SuccessfulJoinIsPublished(g: Success, env: Env) returns (r: Execution)
    requires Succeeds(g, env)
    ensures RunFile(None, g.auth.caseId, CallsOf(g, env)[..3]) == Some(r) && Valid(r)
    ensures r.state == PublishedState && r.auth == g.auth && r.stage == Some([]) && r.updatedAt == g.times[2]
    ensures r.artifact == Some(Artifact(g.staged.success.value.artifactId, g.staged.success.value.fingerprint,
                                        g.staged.success.value.sizeBytes))
    ensures r.published == Some(Published(g.published.success.value.rootId, g.published.success.value.path))
    ensures r.import_.None? && r.confirmation.None?
  {
    var calls, id := CallsOf(g, env), g.auth.caseId;
    var r2 := SuccessfulJoinIsReady(g, env);
    PublishIsWritten(r2, id, env, g.published, g.times[2]);
    ValidatingWrite(Some(r2), id, env, RecordPublish(g.published), g.times[2]);
    r := Deliver(Some(r2), id, env, RecordPublish(g.published), g.times[2]).record;
    hide Deliver, Verify, Valid;
    assert calls[..3] == calls[..2] + [calls[2]];
    OneMore(None, id, calls[..2], calls[2]);
  }

  lemma SuccessfulJoinIsReady(g: Success, env: Env) returns (r: Execution)
    requires Succeeds(g, env)
    ensures RunFile(None, g.auth.caseId, CallsOf(g, env)[..2]) == Some(r) && Valid(r)
    ensures r.state == ArtifactReady && r.auth == g.auth && r.stage == Some([]) && r.updatedAt == g.times[1]
    ensures r.artifact == Some(Artifact(g.staged.success.value.artifactId, g.staged.success.value.fingerprint,
                                        g.staged.success.value.sizeBytes))
    ensures r.import_.None? && r.confirmation.None?
  {
    var calls, id := CallsOf(g, env), g.auth.caseId;
    PreparationIsWritten(id, env, g.auth, g.times[0]);
    var r1 := Execution(JoinV2, JoinId(g.auth), g.auth, Prepared, g.times[0], g.times[0], None, None, None, None, None, None);
    CleanMatches(g.auth, g.request, g.staged);
    hide Verify, Valid, Deliver;
    StageIsWritten(r1, id, env, g.request, g.staged, g.times[1]);
    ValidatingWrite(Some(r1), id, env, Stage(g.auth, g.request, g.staged), g.times[1]);
    r := Deliver(Some(r1), id, env, Stage(g.auth, g.request, g.staged), g.times[1]).record;
    assert calls[..0] == [] && calls[..1] == calls[..0] + [calls[0]] && calls[..2] == calls[..1] + [calls[1]];
    OneMore(None, id, calls[..0], calls[0]);
    OneMore(None, id, calls[..1], calls[1]);
  }

  lemma CleanMatches(auth: AuthorizedJoin, request: StageRequest, reply: Reply<Staged>)
    requires Verify(auth, request, reply) == []
    ensures Encodable(request) && EncodableStage(reply) && BelongTogether(request, reply, auth)
  {
    VerifiedIff(auth, request, reply);
    hide Encodable, EncodableStaged, AskedAsAuthorized, Verify;
  }
}
