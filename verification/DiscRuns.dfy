/**
 What disc records keep over every run, including an invariant about imports
 that neither stored-record validator checks.
 */
module DiscRuns {
  import opened Common
  import opened RepairRecords
  import opened DiscMachine

  // ------------------------------------------------- validator agreement

  lemma StageBlurayAgrees(r: Execution, q: StageRequest, reply: Reply<Staged>, at: Time)
    requires Valid(r) && EncodableBluray(q) && EncodableStageReply(StageBluray, reply)
    requires at != ZERO_TIME && r.updatedAt <= at
    ensures var u := StageBlurayStep(r, q, reply); u.Changed? ==> Valid(u.record.(updatedAt := at))
  {
    hide RemuxShape, DvdShape, EncodableRequest, SameSources, OutputAccepted;
    CaseIdIsText(q);
  }

  /** A request with a case id cannot match the empty Blu-ray authorisation of a DVD record. */
  lemma CaseIdIsText(q: StageRequest)
    requires EncodableRequest(q)
    ensures q.caseId != NO_REMUX.caseId
  {
  }

  lemma StageDvdAgrees(r: Execution, q: StageRequest, reply: Reply<Staged>, at: Time)
    requires Valid(r) && EncodableDvd(q) && EncodableStageReply(StageDvd, reply)
    requires at != ZERO_TIME && r.updatedAt <= at
    ensures var u := StageDvdStep(r, q, reply); u.Changed? ==> Valid(u.record.(updatedAt := at))
  {
    hide RemuxShape, DvdShape, EncodableRequest, SameSources, OutputAccepted;
  }

  lemma PublishAgrees(r: Execution, env: Env, e: Event, at: Time)
    requires Valid(r) && GoodInput(env, e) && (e.PublishBlurayRemux? || e.PublishDvdRemux?)
    requires at != ZERO_TIME && r.updatedAt <= at
    ensures var u := Update(r, env, e, at); u.Changed? ==> Valid(u.record.(updatedAt := at))
  {
    hide RemuxShape, DvdShape, EncodableRequest, SameSources, PathMatches;
  }

  lemma ImportAgrees(r: Execution, env: Env, e: Event, at: Time)
    requires Valid(r) && GoodInput(env, e)
    requires e.PrepareImport? || e.MarkRequested? || e.MarkImported? || e.MarkImportFailed?
    requires at != ZERO_TIME && r.updatedAt <= at
    ensures var u := Update(r, env, e, at); u.Changed? ==> Valid(u.record.(updatedAt := at))
  {
    hide RemuxShape, DvdShape, EncodableRequest, SameSources, PathMatches, Complete, ValidConfirmation, Expected;
  }

  /** Every guarded step on either kind of disc yields a record its own validator accepts. */
  lemma UpdateAgreesWithValidator(r: Execution, env: Env, e: Event, at: Time)
    requires Valid(r) && !IsPrepare(e) && GoodInput(env, e)
    requires at != ZERO_TIME && r.updatedAt <= at
    ensures var u := Update(r, env, e, at); u.Changed? ==> Valid(u.record.(updatedAt := at))
  {
    hide Valid;
    match e
    case StageBlurayRemux(q, reply) => StageBlurayAgrees(r, q, reply, at);
    case StageDvdRemux(q, reply) => StageDvdAgrees(r, q, reply, at);
    case PublishBlurayRemux(_) => PublishAgrees(r, env, e, at);
    case PublishDvdRemux(_) => PublishAgrees(r, env, e, at);
    case _ => ImportAgrees(r, env, e, at);
  }

  lemma GuardsDoNotValidate(r: Execution, env: Env, e: Event, at: Time)
    requires Valid(r) && !IsPrepare(e) && GoodInput(env, e)
    ensures Update(r, env, e, at) != Rejected(InvalidRecord)
  {
    hide Valid, GoodInput, BlurayMatches, DvdMatches, PathMatches, OutputAccepted;
  }

  lemma PrepareAgrees(file: Option<Execution>, env: Env, e: Event, at: Time)
    requires IsPrepare(e)
    ensures Deliver(file, "", env, e, at) != Refused(InvalidRecord)
  {
    hide SumSizes, SoundFiles, ValidBlurayStage, ValidDvdStage, UpdateCall;
  }

  /** The validating write never refuses a call on a disc record. */
  lemma ValidatingWriteNeverRefuses(file: Option<Execution>, caseId: string, env: Env, e: Event, at: Time)
    ensures Deliver(file, caseId, env, e, at) != Refused(InvalidRecord)
  {
    if IsPrepare(e) {
      PrepareAgrees(file, env, e, at);
    } else if file.Some? && Valid(file.value) && GoodInput(env, e) && at != ZERO_TIME && file.value.updatedAt <= at {
      GuardsDoNotValidate(file.value, env, e, at);
      UpdateAgreesWithValidator(file.value, env, e, at);
    }
    hide Update, Valid, GoodInput, PrepareBlurayCall, PrepareDvdCall;
  }

  // --------------------------------------------- the unchecked invariant

  /** What the transitions guarantee of an imported record and the validators do not look at. */
  predicate Confirmed(r: Execution) {
    r.state.Imported? ==>
      && r.import_.Some? && r.confirmation.Some?
      && ConfirmsFile(r.confirmation.value, r.import_.value.command.file)
      && r.confirmation.value.historyId > r.import_.value.historyBefore
  }

  function Rank(s: State): nat {
    match s
    case Prepared => 6
    case StagedState => 5
    case PublishedState => 4
    case ImportPrepared => 3
    case ImportRequested => 2
    case _ => 1
  }

  function Measure(file: Option<Execution>): nat { if file.None? then 7 else Rank(file.value.state) }

  predicate SameIdentity(r: Execution, r': Execution) {
    && r'.version == r.version && r'.executionId == r.executionId && r'.auth == r.auth && r'.dvd == r.dvd
    && r'.preparedAt == r.preparedAt
  }

  predicate WriteOnce(r: Execution, r': Execution) {
    && (r.stage.Some? ==> r'.stage == r.stage)
    && (r.dvdStage.Some? ==> r'.dvdStage == r.dvdStage)
    && (r.artifact.Some? ==> r'.artifact == r.artifact)
    && (r.published.Some? ==> r'.published == r.published)
    && (r.failure.Some? ==> r'.failure == r.failure)
    && (r.confirmation.Some? ==> r'.confirmation == r.confirmation)
    && (r.import_.Some? ==>
          && r'.import_.Some?
          && r'.import_.value.(commandId := None) == r.import_.value.(commandId := None)
          && (r.import_.value.commandId.Some? ==> r'.import_.value.commandId == r.import_.value.commandId))
  }

  /** Every transition keeps the identity, sets fields once, moves forward and keeps imports confirmed. */
  lemma UpdateMovesForward(r: Execution, env: Env, e: Event, at: Time)
    requires Valid(r) && !IsPrepare(e) && GoodInput(env, e)
    ensures var u := Update(r, env, e, at);
            u.Changed? ==>
              && SameIdentity(r, u.record) && WriteOnce(r, u.record) && Rank(u.record.state) < Rank(r.state)
              && Confirmed(u.record)
  {
    hide RemuxShape, DvdShape, BlurayMatches, DvdMatches, EncodableBluray, EncodableDvd, PathMatches, OutputAccepted,
         ValidImport, ValidConfirmation, ValidImportRequest, GoodInput;
  }

  /** What a written record is: fresh, or one guarded step after the stored one. */
  lemma CallWrites(file: Option<Execution>, caseId: string, env: Env, e: Event, at: Time)
    ensures var d := Deliver(file, caseId, env, e, at);
            d.Written? ==>
              && Valid(d.record) && Confirmed(d.record) && Measure(Some(d.record)) < Measure(file)
              && (IsPrepare(e) <==> file.None?)
              && (file.Some? ==> SameIdentity(file.value, d.record) && WriteOnce(file.value, d.record))
  {
    var d := Deliver(file, caseId, env, e, at);
    if !IsPrepare(e) && d.Written? {
      UpdateMovesForward(file.value, env, e, at);
    }
    hide Update, Valid, GoodInput, RemuxShape, DvdShape;
  }

  // ---------------------------------------------------------------- runs

  datatype Call = Call(env: Env, event: Event, at: Time)

  function RunFile(file: Option<Execution>, caseId: string, calls: seq<Call>): Option<Execution> {
    if calls == [] then file
    else
      var before := RunFile(file, caseId, calls[..|calls| - 1]);
      var last := calls[|calls| - 1];
      After(before, Deliver(before, caseId, last.env, last.event, last.at))
  }

  function Writes(file: Option<Execution>, caseId: string, calls: seq<Call>): nat {
    if calls == [] then 0
    else
      var before := RunFile(file, caseId, calls[..|calls| - 1]);
      var last := calls[|calls| - 1];
      Writes(file, caseId, calls[..|calls| - 1])
      + (if Deliver(before, caseId, last.env, last.event, last.at).Written? then 1 else 0)
  }

  /**
   Every disc record reachable from preparation is valid, and if it is imported
   its confirmation is newer than the recorded history id and names the
   command's movie, download and path. At most six calls ever write.
   */
  lemma {:induction false} ReachableImportsAreConfirmed(caseId: string, calls: seq<Call>)
    ensures var file := RunFile(None, caseId, calls);
            && (file.Some? ==> Valid(file.value) && Confirmed(file.value))
            && Writes(None, caseId, calls) + Measure(file) <= Measure(None)
  {
    hide Deliver, Valid, Confirmed;
    if calls != [] {
      var before := RunFile(None, caseId, calls[..|calls| - 1]);
      var last := calls[|calls| - 1];
      ReachableImportsAreConfirmed(caseId, calls[..|calls| - 1]);
      CallWrites(before, caseId, last.env, last.event, last.at);
    }
  }

  /** Identity and evidence are fixed for good once written: a disc record is never reset. */
  lemma {:induction false} RunsWriteOnce(r: Execution, caseId: string, calls: seq<Call>)
    ensures var file := RunFile(Some(r), caseId, calls);
            file.Some? && SameIdentity(r, file.value) && WriteOnce(r, file.value)
  {
    hide Deliver;
    if calls != [] {
      var before := RunFile(Some(r), caseId, calls[..|calls| - 1]);
      var last := calls[|calls| - 1];
      RunsWriteOnce(r, caseId, calls[..|calls| - 1]);
      CallWrites(before, caseId, last.env, last.event, last.at);
    }
  }

  /** The call staged the record's artifact, for its authorised request, and the output passed verification. */
  ghost predicate VerifiedBy(call: Call, r: Execution) {
    match call.event
    case StageBlurayRemux(q, reply) =>
      && EncodableStageReply(StageBluray, reply) && reply.kind.Succeeded? && Correlated(q, reply)
      && r.stage == Some(q) && BlurayMatches(r, q)
      && OutputAccepted(reply.success.value.evidence, r.auth.durationMs, r.auth.chapters, 5000)
      && r.artifact == StagedRecord(r, reply.success.value).artifact
    case StageDvdRemux(q, reply) =>
      && EncodableStageReply(StageDvd, reply) && reply.kind.Succeeded? && Correlated(q, reply)
      && r.dvdStage == Some(q) && DvdMatches(r, q)
      && OutputAccepted(reply.success.value.evidence, r.dvd.value.durationMs, r.dvd.value.chapters, 15000)
      && r.artifact == StagedRecord(r, reply.success.value).artifact
    case _ => false
  }

  lemma UpdateVerifies(r: Execution, call: Call)
    requires Valid(r) && !IsPrepare(call.event) && GoodInput(call.env, call.event)
    ensures var u := Update(r, call.env, call.event, call.at);
            u.Changed? && u.record.artifact.Some? && r.artifact.None? ==> VerifiedBy(call, u.record.(updatedAt := call.at))
  {
    hide RemuxShape, DvdShape, EncodableBluray, EncodableDvd, PathMatches, OutputAccepted, SameSources,
         ValidImport, ValidConfirmation, ValidImportRequest;
  }

  lemma VerifiedStays(call: Call, r: Execution, r': Execution)
    requires VerifiedBy(call, r) && SameIdentity(r, r') && WriteOnce(r, r')
    ensures VerifiedBy(call, r')
  {
    hide OutputAccepted, SameSources;
  }

  lemma CallVerifies(before: Option<Execution>, caseId: string, call: Call)
    ensures var d := Deliver(before, caseId, call.env, call.event, call.at);
            d.Written? && d.record.artifact.Some? ==>
              VerifiedBy(call, d.record) || (before.Some? && before.value.artifact.Some?)
  {
    var d := Deliver(before, caseId, call.env, call.event, call.at);
    if !IsPrepare(call.event) && d.Written? { UpdateVerifies(before.value, call); }
    hide Update, Valid, GoodInput, RemuxShape, DvdShape, VerifiedBy;
  }

  /** Whatever artifact a disc record carries, and so whatever it published or imported, was staged and verified. */
  lemma {:induction false} ArtifactsWereVerified(caseId: string, calls: seq<Call>)
    ensures var file := RunFile(None, caseId, calls);
            file.Some? && file.value.artifact.Some? ==>
              exists i :: 0 <= i < |calls| && VerifiedBy(calls[i], file.value)
  {
    hide Deliver, VerifiedBy;
    if calls != [] {
      var n := |calls| - 1;
      var before := RunFile(None, caseId, calls[..n]);
      var after := RunFile(None, caseId, calls);
      ArtifactsWereVerified(caseId, calls[..n]);
      CallVerifies(before, caseId, calls[n]);
      CallWrites(before, caseId, calls[n].env, calls[n].event, calls[n].at);
      if before.Some? && before.value.artifact.Some? {
        var i :| 0 <= i < n && VerifiedBy(calls[..n][i], before.value);
        assert calls[..n][i] == calls[i];
        if after != before { VerifiedStays(calls[i], before.value, after.value); }
      }
    }
  }

  /** The reply names the record's artifact, its staged root and a path made from the staged one. */
  ghost predicate Publishes(reply: Reply<PublishedBody>, op: Operation, q: Option<StageRequest>, depth: nat, r: Execution) {
    && EncodablePublishReply(op, reply) && reply.kind.Succeeded? && q.Some? && r.artifact.Some?
    && var s := reply.success.value;
       && s.artifactId == r.artifact.value.id && s.fingerprint == r.artifact.value.fingerprint
       && s.rootId == q.value.rootId && PathMatches(q.value.main.path, depth, r.artifact.value.id, s.path)
       && r.published == Some(Published(s.rootId, s.path))
  }

  ghost predicate PublishedBy(call: Call, r: Execution) {
    match call.event
    case PublishBlurayRemux(reply) => Publishes(reply, PublishBluray, r.stage, BLURAY_DEPTH, r)
    case PublishDvdRemux(reply) => Publishes(reply, PublishDvd, r.dvdStage, DVD_DEPTH, r)
    case _ => false
  }

  lemma UpdatePublishes(r: Execution, call: Call)
    requires Valid(r) && !IsPrepare(call.event) && GoodInput(call.env, call.event)
    ensures var u := Update(r, call.env, call.event, call.at);
            u.Changed? && u.record.published.Some? && r.published.None? ==>
              r.artifact.Some? && PublishedBy(call, u.record.(updatedAt := call.at))
  {
    hide Valid, BlurayMatches, DvdMatches, PathMatches, OutputAccepted, EncodableBluray, EncodableDvd,
         EncodablePublished, ValidImportRequest, ValidConfirmation;
  }

  lemma CallPublishes(before: Option<Execution>, caseId: string, call: Call)
    ensures var d := Deliver(before, caseId, call.env, call.event, call.at);
            d.Written? && d.record.published.Some? ==>
              && before.Some?
              && (before.value.published.Some? || (before.value.artifact.Some? && PublishedBy(call, d.record)))
  {
    var d := Deliver(before, caseId, call.env, call.event, call.at);
    if !IsPrepare(call.event) && d.Written? { UpdatePublishes(before.value, call); }
    hide Update, Valid, GoodInput, RemuxShape, DvdShape, PublishedBy;
  }

  lemma PublishedStays(call: Call, r: Execution, r': Execution)
    requires PublishedBy(call, r) && SameIdentity(r, r') && WriteOnce(r, r')
    ensures PublishedBy(call, r')
  {
    hide PathMatches, EncodablePublishReply;
  }

  /**
   Whatever a disc record published, and so whatever it imported, was staged and
   verified by one call and published by a later one that named that artifact,
   the staged root and a path made from the staged one.
   */
  lemma {:induction false} PublishedWasVerified(caseId: string, calls: seq<Call>)
    ensures var file := RunFile(None, caseId, calls);
            file.Some? && file.value.published.Some? ==>
              exists i, j :: 0 <= i < j < |calls| && VerifiedBy(calls[i], file.value) && PublishedBy(calls[j], file.value)
  {
    hide Deliver, VerifiedBy, PublishedBy;
    if calls != [] {
      var n := |calls| - 1;
      var before := RunFile(None, caseId, calls[..n]);
      var after := RunFile(None, caseId, calls);
      PublishedWasVerified(caseId, calls[..n]);
      ArtifactsWereVerified(caseId, calls[..n]);
      CallPublishes(before, caseId, calls[n]);
      CallWrites(before, caseId, calls[n].env, calls[n].event, calls[n].at);
      if after.Some? && after.value.published.Some? {
        if before.value.published.Some? {
          var i, j :| 0 <= i < j < n && VerifiedBy(calls[..n][i], before.value) && PublishedBy(calls[..n][j], before.value);
          assert calls[..n][i] == calls[i] && calls[..n][j] == calls[j];
          if after != before {
            VerifiedStays(calls[i], before.value, after.value);
            PublishedStays(calls[j], before.value, after.value);
          }
        } else {
          var i :| 0 <= i < n && VerifiedBy(calls[..n][i], before.value);
          assert calls[..n][i] == calls[i];
          VerifiedStays(calls[i], before.value, after.value);
        }
      }
    }
  }

  // -------------------------------------------------------------- replay

  lemma AppliedOnce(r: Execution, env: Env, e: Event, at: Time, env': Env, at': Time)
    requires Valid(r) && !IsPrepare(e) && GoodInput(env, e) && Update(r, env, e, at).Changed?
    requires Valid(Update(r, env, e, at).record.(updatedAt := at)) && GoodInput(env', e)
    ensures !Update(Update(r, env, e, at).record.(updatedAt := at), env', e, at').Changed?
  {
    hide Valid, GoodInput, BlurayMatches, DvdMatches, PathMatches, OutputAccepted;
  }

  /** Delivering the same event again leaves the stored record as it is. */
  lemma ReplayWritesNothing(file: Option<Execution>, caseId: string, env: Env, e: Event, at: Time, env': Env, at': Time)
    requires Deliver(file, caseId, env, e, at).Written?
    ensures !Deliver(Some(Deliver(file, caseId, env, e, at).record), caseId, env', e, at').Written?
  {
    hide Update, Valid, GoodInput, PrepareBlurayCall, PrepareDvdCall;
    var record := Deliver(file, caseId, env, e, at).record;
    if IsPrepare(e) {
      CallWrites(Some(record), caseId, env', e, at');
    } else {
      CallWrites(file, caseId, env, e, at);
      if GoodInput(env', e) { AppliedOnce(file.value, env, e, at, env', at'); }
    }
  }

  /** The lowest rank an event still writes at. */
  function Floor(e: Event): nat {
    match e
    case PrepareBluray(_) | PrepareDvd(_) => 0
    case StageBlurayRemux(_, _) | StageDvdRemux(_, _) => 6
    case PublishBlurayRemux(_) | PublishDvdRemux(_) => 5
    case PrepareImport(_, _) => 4
    case MarkRequested(_) => 3
    case MarkImported(_) | MarkImportFailed => 2
  }

  lemma WriteCrossesFloor(file: Option<Execution>, caseId: string, env: Env, e: Event, at: Time)
    requires !IsPrepare(e)
    ensures var d := Deliver(file, caseId, env, e, at);
            d.Written? ==> file.Some? && Rank(d.record.state) < Floor(e) <= Rank(file.value.state)
  {
    hide Valid, GoodInput, BlurayMatches, DvdMatches, PathMatches, OutputAccepted, ConfirmsFile, PrepareBlurayCall,
         PrepareDvdCall;
  }

  lemma {:induction false} RunsMoveForward(r: Execution, caseId: string, calls: seq<Call>)
    ensures var file := RunFile(Some(r), caseId, calls); file.Some? && Rank(file.value.state) <= Rank(r.state)
  {
    hide Deliver;
    if calls != [] {
      var before := RunFile(Some(r), caseId, calls[..|calls| - 1]);
      var last := calls[|calls| - 1];
      RunsMoveForward(r, caseId, calls[..|calls| - 1]);
      CallWrites(before, caseId, last.env, last.event, last.at);
    }
  }

  /** An event that wrote once never writes again, whatever calls come between and whenever it comes back. */
  lemma EventWritesOnce(file: Option<Execution>, caseId: string, call: Call, between: seq<Call>, env: Env, at: Time)
    requires Deliver(file, caseId, call.env, call.event, call.at).Written?
    ensures var written := Some(Deliver(file, caseId, call.env, call.event, call.at).record);
            !Deliver(RunFile(written, caseId, between), caseId, env, call.event, at).Written?
  {
    hide Deliver;
    var written := Deliver(file, caseId, call.env, call.event, call.at).record;
    RunsMoveForward(written, caseId, between);
    var last := RunFile(Some(written), caseId, between);
    if IsPrepare(call.event) {
      CallWrites(last, caseId, env, call.event, at);
    } else {
      WriteCrossesFloor(file, caseId, call.env, call.event, call.at);
      WriteCrossesFloor(last, caseId, env, call.event, at);
    }
  }

  /**
   The validators are weaker than the runs: any valid imported record stays
   valid when its confirmation is exchanged for another well-formed one, for
   instance one that is older than the request.
   */
  lemma ValidatorsIgnoreTheConfirmation(r: Execution, other: Confirmation)
    requires Valid(r) && r.state.Imported? && ValidConfirmation(other)
    ensures Valid(r.(confirmation := Some(other)))
    ensures other.historyId <= r.import_.value.historyBefore ==> !Confirmed(r.(confirmation := Some(other)))
  {
    hide RemuxShape, DvdShape, EncodableRequest, SameSources, PathMatches;
  }
}
