/**
 What join records keep over every run: the transitions agree with the
 separately written validator, writes are bounded and replay-safe, and whatever
 is imported was published from the verified artifact.
 */
module JoinRuns {
  import opened Common
  import opened RepairRecords
  import opened JoinMachine

  // ------------------------------------------------- validator agreement

  /**
   The failure reason belongs to the operation it is recorded under, and a new
   authorisation has the right shape. Decoded worker replies always do; the
   shared response schema alone does not enforce the first.
   */
  predicate WellFormed(e: Event) {
    match e
    case Prepare(auth) => Shape(auth)
    case Stage(_, _, reply) => reply.failure.Some? ==> ReasonOf(StageJoin, reply.failure.value.reason)
    case RecordPublish(reply) => reply.failure.Some? ==> ReasonOf(Publish, reply.failure.value.reason)
    case RecordDiscard(reply) => reply.failure.Some? ==> ReasonOf(Discard, reply.failure.value.reason)
    case _ => true
  }

  /** A verification has no rejections exactly when the join is ready to publish. */
  lemma StageVerdict(auth: AuthorizedJoin, request: StageRequest, reply: Reply<Staged>)
    requires Encodable(request) && EncodableStage(reply)
    ensures reply.kind.FailedKind? ==> StageFailed in Verify(auth, request, reply)
    ensures OutcomeOf(reply, Verify(auth, request, reply)).state.ArtifactReady?
            <==> Verify(auth, request, reply) == []
  {
  }

  lemma StageAgrees(r: Execution, e: Event, at: Time)
    requires Valid(r) && e.Stage? && Encodable(e.request) && EncodableStage(e.stageReply)
    requires at != ZERO_TIME && r.updatedAt <= at
    ensures RecordStage(r, e).Changed? ==> (Valid(RecordStage(r, e).record.(updatedAt := at)) <==> WellFormed(e))
  {
    StageVerdict(e.staged, e.request, e.stageReply);
  }

  lemma PublishAgrees(r: Execution, reply: Reply<PublishedBody>, at: Time)
    requires Valid(r) && EncodablePublish(reply)
    requires at != ZERO_TIME && r.updatedAt <= at
    ensures PublishJoin(r, reply).Changed? ==> (Valid(PublishJoin(r, reply).record.(updatedAt := at)) <==> WellFormed(RecordPublish(reply)))
  {
  }

  lemma DiscardAgrees(r: Execution, reply: Reply<DiscardedBody>, at: Time)
    requires Valid(r) && EncodableDiscard(reply)
    requires at != ZERO_TIME && r.updatedAt <= at
    ensures DiscardJoin(r, reply).Changed? ==> (Valid(DiscardJoin(r, reply).record.(updatedAt := at)) <==> WellFormed(RecordDiscard(reply)))
  {
  }

  lemma ImportAgrees(r: Execution, env: Env, e: Event, at: Time)
    requires Valid(r) && InputError(env, e).None?
    requires e.PrepareImport? || e.MarkRequested? || e.MarkImported? || e.MarkImportFailed?
    requires at != ZERO_TIME && r.updatedAt <= at
    ensures Update(r, env, e, at).Changed? ==> Valid(Update(r, env, e, at).record.(updatedAt := at))
  {
    hide Shape, Verify, ReasonOf, ValidDestination, ValidArtifact, Complete, ValidConfirmation, Expected;
  }

  /** A step its guards accept passes the validating write exactly when its input is well formed. */
  lemma UpdateAgreesWithValidator(r: Execution, env: Env, e: Event, at: Time)
    requires Valid(r) && !e.Prepare? && InputError(env, e).None?
    requires at != ZERO_TIME && r.updatedAt <= at
    ensures Update(r, env, e, at).Changed? ==> (Valid(Update(r, env, e, at).record.(updatedAt := at)) <==> WellFormed(e))
  {
    match e
    case Stage(_, _, _) => StageAgrees(r, e, at);
    case RecordPublish(reply) => PublishAgrees(r, reply, at);
    case RecordDiscard(reply) => DiscardAgrees(r, reply, at);
    case _ => ImportAgrees(r, env, e, at);
  }

  lemma PrepareWrites(file: Option<Execution>, env: Env, auth: AuthorizedJoin, at: Time)
    ensures PrepareCall(file, env, auth, at) == Refused(InvalidRecord) ==> !Shape(auth)
    ensures PrepareCall(file, env, auth, at).Written? ==> Shape(auth)
  {
  }

  lemma UpdateCallWrites(file: Option<Execution>, caseId: string, env: Env, e: Event, at: Time)
    requires !e.Prepare?
    ensures UpdateCall(file, caseId, env, e, at) == Refused(InvalidRecord) ==> !WellFormed(e)
    ensures UpdateCall(file, caseId, env, e, at).Written? ==> WellFormed(e)
  {
    hide Update, InputError, Valid, WellFormed;
    if file.Some? && Valid(file.value) && InputError(env, e).None? && at != ZERO_TIME {
      if ReadBack(file.value).updatedAt <= at {
        GuardsDoNotValidate(ReadBack(file.value), env, e, at);
        UpdateAgreesWithValidator(ReadBack(file.value), env, e, at);
      }
    }
    InputIsChecked(env, e);
  }

  lemma GuardsDoNotValidate(r: Execution, env: Env, e: Event, at: Time)
    requires Valid(r) && !e.Prepare? && InputError(env, e).None?
    ensures Update(r, env, e, at) != Rejected(InvalidRecord)
  {
    hide Shape, Verify, InputError, Valid;
  }

  lemma InputIsChecked(env: Env, e: Event)
    ensures InputError(env, e) != Some(InvalidRecord)
  {
  }

  /**
   The validating write never refuses a guarded step on well-formed input, and
   whatever it lets through came from well-formed input and is valid.
   */
  lemma ValidatingWrite(file: Option<Execution>, caseId: string, env: Env, e: Event, at: Time)
    ensures var d := Deliver(file, caseId, env, e, at);
            && (d == Refused(InvalidRecord) ==> !WellFormed(e))
            && (d.Written? ==> WellFormed(e) && Valid(d.record))
  {
    if e.Prepare? {
      PrepareWrites(file, env, e.auth, at);
    } else {
      UpdateCallWrites(file, caseId, env, e, at);
    }
    hide Update, InputError;
  }

  /**
   Malformed input the guards let through: a publish reply whose failure was
   written for a discard is encodable, and only the validating write stops it.
   */
  lemma DiscardReasonOnPublish(r: Execution, env: Env, requestId: string, at: Time)
    requires Valid(r) && r.state.ArtifactReady? && OpaqueId(requestId) && at != ZERO_TIME && r.updatedAt <= at
    ensures var reply := Reply(FailedKind, None, Some(FailureBody(Discard, RepairRecords.ArtifactPublished, requestId)));
            && EncodablePublish(reply)
            && Deliver(Some(r), r.auth.caseId, env, RecordPublish(reply), at) == Refused(InvalidRecord)
  {
    var reply := Reply(FailedKind, None, Some(FailureBody(Discard, RepairRecords.ArtifactPublished, requestId)));
    PublishAgrees(ReadBack(r), reply, at);
    hide Valid;
  }

  // ------------------------------------------------- one-step invariants

  /** How far a record is from the end of its run. */
  function Rank(s: State): nat {
    match s
    case Prepared => 6
    case ArtifactReady | DiscardPending => 5
    case PublishedState => 4
    case ImportPrepared => 3
    case ImportRequested => 2
    case _ => 1
  }

  /** Legacy identity first, then state rank; an absent record is furthest away. */
  function Measure(file: Option<Execution>): nat {
    if file.None? then 17
    else (if file.value.executionId == JoinId(file.value.auth) then 0 else 10) + Rank(file.value.state)
  }

  /** Set once, never changed: an import request may only gain its command id. */
  predicate WriteOnce(r: Execution, r': Execution) {
    && (r.stage.Some? ==> r'.stage == r.stage)
    && (r.artifact.Some? ==> r'.artifact == r.artifact)
    && (r.published.Some? ==> r'.published == r.published)
    && (r.failure.Some? ==> r'.failure == r.failure)
    && (r.confirmation.Some? ==> r'.confirmation == r.confirmation)
    && (r.import_.Some? ==> r'.import_.Some? && SameImport(r.import_.value, r'.import_.value))
  }

  /** The stored languages may turn from empty to nil; nothing else about the command moves. */
  predicate SameImport(i: Import, i': Import) {
    && i'.historyBefore == i.historyBefore && i'.preparedAt == i.preparedAt
    && ItemsOf(i'.command.file.languages) == ItemsOf(i.command.file.languages)
    && i'.command == i.command.(file := i.command.file.(languages := i'.command.file.languages))
    && (i.commandId.Some? ==> i'.commandId == i.commandId)
  }

  predicate SameIdentity(r: Execution, r': Execution) {
    r'.version == r.version && r'.executionId == r.executionId && r'.auth == r.auth && r'.preparedAt == r.preparedAt
  }

  /** Every transition keeps the identity, sets fields only once and moves strictly forward. */
  lemma UpdateMovesForward(r: Execution, env: Env, e: Event, at: Time)
    requires Valid(r) && !e.Prepare? && InputError(env, e).None?
    ensures Update(r, env, e, at).Changed? ==>
              var r' := Update(r, env, e, at).record;
              SameIdentity(r, r') && WriteOnce(r, r') && Rank(r'.state) < Rank(r.state)
  {
    hide Shape, Verify, InputError, ValidImport, ValidConfirmation, ReasonOf, ValidDestination;
  }

  lemma ReadBackSame(r: Execution)
    ensures SameIdentity(r, ReadBack(r)) && WriteOnce(r, ReadBack(r)) && ReadBack(r).state == r.state
    ensures ReadBack(ReadBack(r)) == ReadBack(r)
  {
  }

  lemma WriteOnceTransitive(a: Execution, b: Execution, c: Execution)
    requires WriteOnce(a, b) && WriteOnce(b, c)
    ensures WriteOnce(a, c)
  {
  }

  /** A write that is not a preparation. */
  lemma UpdateWrites(file: Option<Execution>, caseId: string, env: Env, e: Event, at: Time)
    requires !e.Prepare?
    ensures var d := Deliver(file, caseId, env, e, at);
            d.Written? ==>
              && file.Some? && Valid(file.value) && InputError(env, e).None?
              && SameIdentity(file.value, d.record) && WriteOnce(file.value, d.record)
              && Rank(d.record.state) < Rank(file.value.state)
              && Update(ReadBack(file.value), env, e, at).Changed?
              && d.record == Update(ReadBack(file.value), env, e, at).record.(updatedAt := at)
  {
    var d := Deliver(file, caseId, env, e, at);
    hide Update, InputError, Valid, WriteOnce;
    if d.Written? {
      var r := file.value;
      ReadBackSame(r);
      UpdateMovesForward(ReadBack(r), env, e, at);
      var next := Update(ReadBack(r), env, e, at).record;
      StampKeeps(ReadBack(r), next, at);
      WriteOnceTransitive(r, ReadBack(r), next.(updatedAt := at));
    }
  }

  lemma StampKeeps(r: Execution, next: Execution, at: Time)
    requires WriteOnce(r, next)
    ensures WriteOnce(r, next.(updatedAt := at))
  {
  }

  /** Every write lowers the measure, a preparation that resets a legacy record included. */
  lemma WriteLowersMeasure(file: Option<Execution>, caseId: string, env: Env, e: Event, at: Time)
    ensures var d := Deliver(file, caseId, env, e, at);
            d.Written? ==> Measure(Some(d.record)) < Measure(file)
  {
    if !e.Prepare? { UpdateWrites(file, caseId, env, e, at); }
    hide UpdateCall, Valid;
  }

  // -------------------------------------------------------------- replay

  /** Once an event has been applied, a record shows it, and applying it again changes nothing. */
  lemma AppliedOnce(r: Execution, env: Env, e: Event, at: Time, env': Env, at': Time)
    requires Valid(r) && !e.Prepare? && InputError(env, e).None? && Update(r, env, e, at).Changed?
    requires var r' := ReadBack(Update(r, env, e, at).record.(updatedAt := at));
             Valid(r') && InputError(env', e).None?
    ensures var r' := ReadBack(Update(r, env, e, at).record.(updatedAt := at));
            !Update(r', env', e, at').Changed?
  {
    hide Shape, Verify, ValidImport, ValidConfirmation, ReasonOf, ValidDestination, ItemsOf;
  }

  /**
   Delivering the same event again, at any later time and whatever the plan then
   says, leaves the stored record as it is.
   */
  lemma ReplayWritesNothing(file: Option<Execution>, caseId: string, env: Env, e: Event, at: Time,
                            env': Env, at': Time)
    requires Deliver(file, caseId, env, e, at).Written?
    ensures !Deliver(Some(Deliver(file, caseId, env, e, at).record), caseId, env', e, at').Written?
  {
    var record := Deliver(file, caseId, env, e, at).record;
    if e.Prepare? {
      assert record == Fresh(e.auth, at);
    } else {
      ReplayUpdate(file, caseId, env, e, at, env', at');
    }
    hide Update, InputError, Valid;
  }

  lemma ReplayUpdate(file: Option<Execution>, caseId: string, env: Env, e: Event, at: Time, env': Env, at': Time)
    requires !e.Prepare? && Deliver(file, caseId, env, e, at).Written?
    ensures !UpdateCall(Some(Deliver(file, caseId, env, e, at).record), caseId, env', e, at').Written?
  {
    UpdateWrites(file, caseId, env, e, at);
    hide Update, InputError, Valid, UpdateCall;
    ReplayApplied(ReadBack(file.value), caseId, env, e, at, env', at');
  }

  lemma ReplayApplied(r: Execution, caseId: string, env: Env, e: Event, at: Time, env': Env, at': Time)
    requires Valid(r) && !e.Prepare? && InputError(env, e).None? && Update(r, env, e, at).Changed?
    ensures var record := Update(r, env, e, at).record.(updatedAt := at);
            !UpdateCall(Some(record), caseId, env', e, at').Written?
  {
    hide Update, InputError, Valid;
    var record := Update(r, env, e, at).record.(updatedAt := at);
    if Valid(record) && InputError(env', e).None? {
      AppliedOnce(r, env, e, at, env', at');
    }
  }

  /**
   Preparing the same import again is recognised exactly when the case has
   languages: an empty list was stored as an empty slice and read back as nil,
   so the repeated request is refused as a different import.
   */
  lemma ImportReplayRecognisedIff(r: Execution, env: Env, command: Command, historyBefore: int, at: Time)
    requires Valid(r) && r.state.PublishedState?
    requires InputError(env, PrepareImport(command, historyBefore)).None?
    ensures var stored := BeginImport(r, command, historyBefore, at).record;
            var again := BeginImport(ReadBack(stored), command, historyBefore, at);
            if ItemsOf(command.file.languages) != [] then again.Unchanged? else again == Rejected(Conflict)
  {
  }

  // ---------------------------------------------------------------- runs

  datatype Call = Call(env: Env, event: Event, at: Time)

  /** The case's file after a sequence of calls. */
  function RunFile(file: Option<Execution>, caseId: string, calls: seq<Call>): Option<Execution> {
    if calls == [] then file
    else
      var before := RunFile(file, caseId, calls[..|calls| - 1]);
      var last := calls[|calls| - 1];
      After(before, Deliver(before, caseId, last.env, last.event, last.at))
  }

  function Writes(file: Option<Execution>, caseId: string, calls: seq<Call>): nat {
    if calls == [] then 0
    else
      var before := RunFile(file, caseId, calls[..|calls| - 1]);
      var last := calls[|calls| - 1];
      Writes(file, caseId, calls[..|calls| - 1])
      + (if Deliver(before, caseId, last.env, last.event, last.at).Written? then 1 else 0)
  }

  /** However many calls are made, the writes are bounded by what was left to do. */
  lemma {:induction false} BoundedWrites(file: Option<Execution>, caseId: string, calls: seq<Call>)
    ensures Writes(file, caseId, calls) + Measure(RunFile(file, caseId, calls)) <= Measure(file)
  {
    hide Deliver, Measure;
    if calls != [] {
      var before := RunFile(file, caseId, calls[..|calls| - 1]);
      var last := calls[|calls| - 1];
      BoundedWrites(file, caseId, calls[..|calls| - 1]);
      WriteLowersMeasure(before, caseId, last.env, last.event, last.at);
    }
  }

  /** A record written under the first identity scheme, which a preparation may start over. */
  function Legacy(file: Option<Execution>): nat {
    if file.Some? && file.value.executionId != JoinId(file.value.auth) then 1 else 0
  }

  /** Preparations that wrote over an existing record. */
  function Resets(file: Option<Execution>, caseId: string, calls: seq<Call>): nat {
    if calls == [] then 0
    else
      var before := RunFile(file, caseId, calls[..|calls| - 1]);
      var last := calls[|calls| - 1];
      Resets(file, caseId, calls[..|calls| - 1])
      + (if last.event.Prepare? && before.Some? && Deliver(before, caseId, last.env, last.event, last.at).Written?
         then 1 else 0)
  }

  lemma PrepareResets(file: Option<Execution>, env: Env, auth: AuthorizedJoin, at: Time)
    ensures var d := PrepareCall(file, env, auth, at);
            d.Written? ==> Legacy(Some(d.record)) == 0 && (file.Some? ==> Legacy(file) == 1)
  {
    hide Valid;
  }

  /** A legacy record is reset at most once, and a record of the present scheme or an empty slot never leads to a reset. */
  lemma {:induction false} ResetAtMostOnce(file: Option<Execution>, caseId: string, calls: seq<Call>)
    ensures Resets(file, caseId, calls) + Legacy(RunFile(file, caseId, calls)) <= Legacy(file)
  {
    if calls != [] {
      var before := RunFile(file, caseId, calls[..|calls| - 1]);
      var last := calls[|calls| - 1];
      ResetAtMostOnce(file, caseId, calls[..|calls| - 1]);
      if last.event.Prepare? {
        PrepareResets(before, last.env, last.event.auth, last.at);
        hide PrepareCall;
      } else {
        UpdateWrites(before, caseId, last.env, last.event, last.at);
        hide Deliver;
      }
    }
  }

  /** The stored record stays valid. */
  lemma {:induction false} RunsStayValid(file: Option<Execution>, caseId: string, calls: seq<Call>)
    requires file.Some? ==> Valid(file.value)
    ensures RunFile(file, caseId, calls).Some? ==> Valid(RunFile(file, caseId, calls).value)
  {
    hide Deliver, Valid;
    if calls != [] {
      var before := RunFile(file, caseId, calls[..|calls| - 1]);
      var last := calls[|calls| - 1];
      RunsStayValid(file, caseId, calls[..|calls| - 1]);
      ValidatingWrite(before, caseId, last.env, last.event, last.at);
    }
  }

  lemma {:induction false} NoPrepareNoReset(file: Option<Execution>, caseId: string, calls: seq<Call>)
    requires forall call <- calls :: !call.event.Prepare?
    ensures Resets(file, caseId, calls) == 0
  {
    if calls != [] {
      NoPrepareNoReset(file, caseId, calls[..|calls| - 1]);
      assert calls[|calls| - 1] in calls;
    }
  }

  /** Short of a reset, a run keeps the identity, what is written, and only moves forward. */
  lemma {:induction false} RunsMoveForward(r: Execution, caseId: string, calls: seq<Call>)
    requires Resets(Some(r), caseId, calls) == 0
    ensures var file := RunFile(Some(r), caseId, calls);
            file.Some? && WriteOnce(r, file.value) && SameIdentity(r, file.value) && Rank(file.value.state) <= Rank(r.state)
  {
    if calls != [] {
      var before := RunFile(Some(r), caseId, calls[..|calls| - 1]);
      var last := calls[|calls| - 1];
      RunsMoveForward(r, caseId, calls[..|calls| - 1]);
      hide Deliver, WriteOnce;
      if Deliver(before, caseId, last.env, last.event, last.at).Written? {
        UpdateWrites(before, caseId, last.env, last.event, last.at);
        WriteOnceTransitive(r, before.value, RunFile(Some(r), caseId, calls).value);
      }
    }
  }

  /**
   Every evidence field is written at most once and the identity is fixed: over
   all calls on a record of the present scheme, and between preparations on a
   legacy one.
   */
  lemma RunsWriteOnce(r: Execution, caseId: string, calls: seq<Call>)
    requires Legacy(Some(r)) == 0 || forall call <- calls :: !call.event.Prepare?
    ensures RunFile(Some(r), caseId, calls).Some?
    ensures WriteOnce(r, RunFile(Some(r), caseId, calls).value)
    ensures SameIdentity(r, RunFile(Some(r), caseId, calls).value)
  {
    if Legacy(Some(r)) == 0 {
      ResetAtMostOnce(Some(r), caseId, calls);
    } else {
      NoPrepareNoReset(Some(r), caseId, calls);
    }
    RunsMoveForward(r, caseId, calls);
  }

  /** The lowest rank an event still writes at. */
  function Floor(e: Event): nat {
    match e
    case Prepare(_) => 0
    case Stage(_, _, _) => 6
    case RecordPublish(_) | RecordDiscard(_) => 5
    case PrepareImport(_, _) => 4
    case MarkRequested(_) => 3
    case MarkImported(_) | MarkImportFailed => 2
  }

  /** An event takes a record from at or above its floor to below it. */
  lemma UpdateCrossesFloor(r: Execution, env: Env, e: Event, at: Time)
    requires Valid(r) && !e.Prepare? && InputError(env, e).None?
    ensures var u := Update(r, env, e, at);
            u.Changed? ==> Rank(u.record.state) < Floor(e) <= Rank(r.state)
  {
    hide Valid, Verify, InputError, ConfirmsFile;
  }

  lemma WriteCrossesFloor(file: Option<Execution>, caseId: string, env: Env, e: Event, at: Time)
    requires !e.Prepare?
    ensures var d := Deliver(file, caseId, env, e, at);
            d.Written? ==> file.Some? && Rank(d.record.state) < Floor(e) <= Rank(file.value.state)
  {
    UpdateWrites(file, caseId, env, e, at);
    hide Deliver, Update, InputError, Valid;
    if Deliver(file, caseId, env, e, at).Written? { UpdateCrossesFloor(ReadBack(file.value), env, e, at); }
  }

  /**
   An event that wrote once never writes again, whatever calls come between and
   whenever it comes back, short of the reset of a legacy record.
   */
  lemma EventWritesOnce(file: Option<Execution>, caseId: string, call: Call, between: seq<Call>, env: Env, at: Time)
    requires Deliver(file, caseId, call.env, call.event, call.at).Written?
    requires var written := Some(Deliver(file, caseId, call.env, call.event, call.at).record);
             Legacy(written) == 0 || Resets(written, caseId, between) == 0
    ensures var written := Some(Deliver(file, caseId, call.env, call.event, call.at).record);
            !Deliver(RunFile(written, caseId, between), caseId, env, call.event, at).Written?
  {
    var written := Deliver(file, caseId, call.env, call.event, call.at).record;
    ResetAtMostOnce(Some(written), caseId, between);
    RunsMoveForward(written, caseId, between);
    var last := RunFile(Some(written), caseId, between);
    if call.event.Prepare? {
      PrepareResets(file, call.env, call.event.auth, call.at);
      PrepareResets(last, env, call.event.auth, at);
      hide PrepareCall, UpdateCall;
    } else {
      hide Deliver;
      WriteCrossesFloor(file, caseId, call.env, call.event, call.at);
      WriteCrossesFloor(last, caseId, env, call.event, at);
    }
  }

  // ---------------------------------------------------------- provenance

  /** The call staged the record's artifact, for its authorisation and execution, and verification rejected nothing. */
  ghost predicate StagedBy(call: Call, r: Execution) {
    && call.event.Stage? && EncodableStage(call.event.stageReply) && call.event.stageReply.kind.Succeeded?
    && call.event.staged == r.auth && call.event.request.executionId == r.executionId
    && Verify(r.auth, call.event.request, call.event.stageReply) == []
    && r.artifact == OutcomeOf(call.event.stageReply, []).artifact
  }

  /** The call published the record's very artifact to its destination. */
  ghost predicate PublishedBy(call: Call, r: Execution) {
    && call.event.RecordPublish? && EncodablePublish(call.event.publishReply)
    && call.event.publishReply.kind.Succeeded?
    && r.artifact.Some? && PublishesArtifact(r.artifact.value, call.event.publishReply.success.value)
    && r.published == Some(Published(call.event.publishReply.success.value.rootId, call.event.publishReply.success.value.path))
  }

  /** The i-th call of the run wrote, and what it wrote over was this very execution. */
  ghost predicate WroteTo(caseId: string, calls: seq<Call>, i: nat, r: Execution) {
    && i < |calls|
    && var before := RunFile(None, caseId, calls[..i]);
       && before.Some? && SameIdentity(before.value, r)
       && Deliver(before, caseId, calls[i].env, calls[i].event, calls[i].at).Written?
  }

  /** The i-th call staged the record clean, and its write is the one the record stems from. */
  ghost predicate StagedAt(caseId: string, calls: seq<Call>, i: nat, r: Execution) {
    WroteTo(caseId, calls, i, r) && StagedBy(calls[i], r)
  }

  ghost predicate PublishedAt(caseId: string, calls: seq<Call>, i: nat, r: Execution) {
    WroteTo(caseId, calls, i, r) && PublishedBy(calls[i], r)
  }

  /** An update that makes the stage clean, or publishes, is one of these calls. */
  lemma UpdateProvenance(r: Execution, call: Call)
    requires Valid(r) && !call.event.Prepare? && InputError(call.env, call.event).None?
    ensures var u := Update(r, call.env, call.event, call.at);
            u.Changed? ==>
              && (u.record.stage == Some([]) && r.stage != Some([]) ==> StagedBy(call, u.record))
              && (u.record.stage == Some([]) && r.stage == Some([]) ==> u.record.artifact == r.artifact)
              && (u.record.published.Some? ==> u.record.stage == Some([]))
              && (u.record.published.Some? && r.published.None? ==> r.stage == Some([]) && PublishedBy(call, u.record))
  {
    if call.event.Stage? { StageVerdict(call.event.staged, call.event.request, call.event.stageReply); }
    hide Shape, Verify, ValidImport, ValidConfirmation, ReasonOf, ValidDestination;
  }

  ghost predicate Clean(file: Option<Execution>) { file.Some? && file.value.stage == Some([]) }
  ghost predicate Out(file: Option<Execution>) { file.Some? && file.value.published.Some? }

  /** Nothing that provenance speaks of differs. */
  ghost predicate SameEvidence(r: Execution, r': Execution) {
    SameIdentity(r, r') && r'.artifact == r.artifact
  }

  /** One call's part in the provenance argument. */
  lemma CallProvenance(before: Option<Execution>, caseId: string, call: Call)
    requires Out(before) ==> Clean(before)
    ensures var d := Deliver(before, caseId, call.env, call.event, call.at);
            d.Written? ==>
              var after := Some(d.record);
              && (Clean(after) ==>
                    && before.Some? && SameIdentity(before.value, d.record)
                    && (StagedBy(call, d.record) || (Clean(before) && SameEvidence(before.value, d.record))))
              && (Out(after) ==>
                    && Clean(after) && Clean(before) && SameEvidence(before.value, d.record)
                    && (PublishedBy(call, d.record) || (Out(before) && before.value.published == d.record.published)))
  {
    if !call.event.Prepare? {
      UpdateWrites(before, caseId, call.env, call.event, call.at);
      hide Update, InputError, Valid;
      if Deliver(before, caseId, call.env, call.event, call.at).Written? {
        UpdateProvenance(ReadBack(before.value), call);
      }
    }
  }

  /** What a call did earlier in the run stands when the run goes on and the record keeps its evidence. */
  lemma EarlierCallStands(caseId: string, calls: seq<Call>, n: nat, i: nat, r: Execution, r': Execution)
    requires n <= |calls| && i < n && SameEvidence(r, r')
    ensures StagedAt(caseId, calls[..n], i, r) ==> StagedAt(caseId, calls, i, r')
    ensures PublishedAt(caseId, calls[..n], i, r) && r'.published == r.published ==> PublishedAt(caseId, calls, i, r')
  {
    hide Deliver, Verify, EncodableStage, EncodablePublish;
    assert calls[..n][..i] == calls[..i] && calls[..n][i] == calls[i];
  }

  /**
   Whatever a run has published or imported was first staged for this record's
   authorisation and execution, with no verification rejection, and then
   published, each by a call that wrote to this very execution, in that order,
   as the very artifact and destination the record carries.
   */
  lemma {:induction false} PublishedWasVerified(caseId: string, calls: seq<Call>)
    ensures var file := RunFile(None, caseId, calls);
            && (Clean(file) ==> exists i :: 0 <= i < |calls| && StagedAt(caseId, calls, i, file.value))
            && (Out(file) ==>
                  && Clean(file)
                  && exists i, j :: 0 <= i < j < |calls| && StagedAt(caseId, calls, i, file.value)
                                    && PublishedAt(caseId, calls, j, file.value))
  {
    if calls != [] {
      var n := |calls| - 1;
      var before := RunFile(None, caseId, calls[..n]);
      PublishedWasVerified(caseId, calls[..n]);
      CallProvenance(before, caseId, calls[n]);
      hide Deliver, StagedBy, PublishedBy, SameIdentity;
      assert forall r: Execution :: SameIdentity(r, r) by { IdentityIsSame(); }
      if Deliver(before, caseId, calls[n].env, calls[n].event, calls[n].at).Written? {
        ProvenanceStep(caseId, calls);
      } else if before.Some? {
        ProvenanceStays(caseId, calls, before.value);
      }
    }
  }

  lemma IdentityIsSame()
    ensures forall r: Execution :: SameIdentity(r, r)
  {
  }

  /** A run whose last call left the record's evidence alone. */
  lemma ProvenanceStays(caseId: string, calls: seq<Call>, r': Execution)
    requires calls != []
    requires var before := RunFile(None, caseId, calls[..|calls| - 1]); before.Some? && SameEvidence(before.value, r')
    ensures var n := |calls| - 1;
            var r := RunFile(None, caseId, calls[..n]).value;
            && ((exists i :: 0 <= i < n && StagedAt(caseId, calls[..n], i, r))
                ==> exists i :: 0 <= i < n && StagedAt(caseId, calls, i, r'))
            && (r'.published == r.published
                && (exists i, j :: 0 <= i < j < n && StagedAt(caseId, calls[..n], i, r) && PublishedAt(caseId, calls[..n], j, r))
                ==> exists i, j :: 0 <= i < j < n && StagedAt(caseId, calls, i, r') && PublishedAt(caseId, calls, j, r'))
  {
    var n := |calls| - 1;
    var r := RunFile(None, caseId, calls[..n]).value;
    hide Deliver, RunFile, StagedAt, PublishedAt, SameEvidence;
    forall i | 0 <= i < n
      ensures StagedAt(caseId, calls[..n], i, r) ==> StagedAt(caseId, calls, i, r')
      ensures PublishedAt(caseId, calls[..n], i, r) && r'.published == r.published ==> PublishedAt(caseId, calls, i, r')
    {
      EarlierCallStands(caseId, calls, n, i, r, r');
    }
  }

  /** A run whose last call wrote. */
  lemma ProvenanceStep(caseId: string, calls: seq<Call>)
    requires calls != []
    requires var n := |calls| - 1;
             var before := RunFile(None, caseId, calls[..n]);
             && Deliver(before, caseId, calls[n].env, calls[n].event, calls[n].at).Written?
             && (Clean(before) ==> exists i :: 0 <= i < n && StagedAt(caseId, calls[..n], i, before.value))
             && (Out(before) ==>
                   && Clean(before)
                   && exists i, j :: 0 <= i < j < n && StagedAt(caseId, calls[..n], i, before.value)
                                     && PublishedAt(caseId, calls[..n], j, before.value))
    ensures var file := RunFile(None, caseId, calls);
            && (Clean(file) ==> exists i :: 0 <= i < |calls| && StagedAt(caseId, calls, i, file.value))
            && (Out(file) ==>
                  && Clean(file)
                  && exists i, j :: 0 <= i < j < |calls| && StagedAt(caseId, calls, i, file.value)
                                    && PublishedAt(caseId, calls, j, file.value))
  {
    var n := |calls| - 1;
    var before := RunFile(None, caseId, calls[..n]);
    var r' := RunFile(None, caseId, calls).value;
    CallProvenance(before, caseId, calls[n]);
    if before.Some? && SameEvidence(before.value, r') { ProvenanceStays(caseId, calls, r'); }
    assert r' == Deliver(before, caseId, calls[n].env, calls[n].event, calls[n].at).record;
    hide Deliver, StagedBy, PublishedBy, RunFile, SameIdentity;
    if Clean(Some(r')) {
      assert WroteTo(caseId, calls, n, r');
      assert StagedBy(calls[n], r') ==> StagedAt(caseId, calls, n, r');
      assert PublishedBy(calls[n], r') ==> PublishedAt(caseId, calls, n, r');
    }
  }

  /** What the validator says of a record in an import state. */
  lemma ImportStateEvidence(r: Execution)
    requires Valid(r)
    requires r.state.ImportPrepared? || r.state.ImportRequested? || r.state.Imported? || r.state.ImportFailed?
    ensures r.published.Some? && r.import_.Some?
    ensures r.state.Imported? ==>
              && r.confirmation.Some? && ConfirmsFile(r.confirmation.value, r.import_.value.command.file)
              && r.confirmation.value.historyId > r.import_.value.historyBefore
  {
  }

  /** Imported implies verified: every record a run brings to an import state was staged clean and then published. */
  lemma ImportedWasVerified(caseId: string, calls: seq<Call>)
    requires var file := RunFile(None, caseId, calls);
             && file.Some?
             && (file.value.state.ImportPrepared? || file.value.state.ImportRequested?
                 || file.value.state.Imported? || file.value.state.ImportFailed?)
    ensures var r := RunFile(None, caseId, calls).value;
            exists i, j :: 0 <= i < j < |calls| && StagedAt(caseId, calls, i, r) && PublishedAt(caseId, calls, j, r)
    ensures var r := RunFile(None, caseId, calls).value;
            r.state.Imported? ==>
              && r.import_.Some? && r.confirmation.Some?
              && ConfirmsFile(r.confirmation.value, r.import_.value.command.file)
              && r.confirmation.value.historyId > r.import_.value.historyBefore
  {
    hide Valid, StagedAt, PublishedAt, Deliver;
    RunsStayValid(None, caseId, calls);
    PublishedWasVerified(caseId, calls);
    ImportStateEvidence(RunFile(None, caseId, calls).value);
  }
}
