/** What manual-import calls are for: where a record's evidence comes from, and that every accepted step is written. */
module ManualEffects {
  import opened Common
  import opened RepairRecords
  import opened ManualMachine

  /** The pieces of evidence a manual-import record can hold. */
  datatype Piece = Preparation | CommandNumber | Proof | FailureNote

  predicate Has(r: Execution, p: Piece) {
    match p
    case Preparation => true
    case CommandNumber => r.commandId.Some?
    case Proof => r.confirmation.Some?
    case FailureNote => r.state.ImportFailed?
  }

  /** The call says what the record holds. */
  ghost predicate Says(call: Call, r: Execution, p: Piece)
    requires Has(r, p)
  {
    match p
    case Preparation =>
      && call.event.Prepare? && call.authorized == Some(call.event.auth) && r.caseId == call.event.auth.caseId
      && r.capabilityId == call.event.auth.capabilityId && r.fileId == call.event.auth.fileId
      && r.fingerprint == call.event.auth.fingerprint && r.historyBefore == call.event.historyBefore && r.preparedAt == call.at
    case CommandNumber => call.event == MarkRequested(r.commandId.value)
    case Proof =>
      && call.event.MarkImported? && call.event.imported == r.confirmation.value
      && call.authorized == Some(call.event.confirmed) && call.event.confirmed.caseId == r.caseId
      && call.event.confirmed.capabilityId == r.capabilityId && call.event.confirmed.fileId == r.fileId
      && call.event.confirmed.fingerprint == r.fingerprint && r.confirmation.value.historyId > r.historyBefore
      && r.confirmation.value.movieId == call.event.confirmed.file.movieId
      && r.confirmation.value.downloadId == call.event.confirmed.file.downloadId
      && r.confirmation.value.droppedPath == call.event.confirmed.file.path
    case FailureNote => call.event.MarkFailed?
  }

  /** A write carries its call's time, and brings each piece from its own call or leaves it. */
  lemma CallBrings(before: Option<Execution>, caseId: string, call: Call, p: Piece)
    ensures var d := Deliver(before, caseId, call.authorized, call.event, call.at);
            d.Written? ==>
              && d.record.updatedAt == call.at && d.record.version == ManualV1
              && (before.None? ==> d.record.state.Prepared?)
              && (before.Some? ==> before.value.updatedAt <= call.at && before.value.caseId == caseId)
              && (Has(d.record, p) ==> Says(call, d.record, p) || (before.Some? && Has(before.value, p) && !p.FailureNote?))
  {
    hide ValidConfirmation;
  }

  /** The i-th call wrote and said what the record holds. */
  ghost predicate Origin(caseId: string, calls: seq<Call>, i: nat, r: Execution, p: Piece) {
    && i < |calls| && Has(r, p) && Says(calls[i], r, p)
    && Deliver(RunFile(None, caseId, calls[..i]), caseId, calls[i].authorized, calls[i].event, calls[i].at).Written?
  }

  lemma OriginStays(caseId: string, calls: seq<Call>, i: nat, r: Execution, r': Execution, p: Piece)
    requires calls != [] && i < |calls| - 1 && Origin(caseId, calls[..|calls| - 1], i, r, p)
    requires SameIdentity(r, r') && (p.FailureNote? ==> r' == r)
    ensures Origin(caseId, calls, i, r', p)
  {
    var n := |calls| - 1;
    assert calls[..n][..i] == calls[..i] && calls[..n][i] == calls[i];
    hide Deliver, RunFile, ConfirmsFile;
  }

  /**
   Every record a run leaves was created by a preparation the plan allowed, with
   the history baseline that call asked for; its command number and confirmation
   are those a call reported, the confirmation newer than that baseline.
   */
  lemma {:induction false} EvidenceWasSaid(caseId: string, calls: seq<Call>, p: Piece)
    ensures var file := RunFile(None, caseId, calls);
            file.Some? && Has(file.value, p) ==> exists i :: 0 <= i < |calls| && Origin(caseId, calls, i, file.value, p)
  {
    if calls != [] {
      var n := |calls| - 1;
      var before, after, c := RunFile(None, caseId, calls[..n]), RunFile(None, caseId, calls), calls[n];
      EvidenceWasSaid(caseId, calls[..n], p);
      CallBrings(before, caseId, c, p);
      CallWrites(before, caseId, c.authorized, c.event, c.at);
      hide Deliver, Says, Has;
      if after.Some? && Has(after.value, p) && !Origin(caseId, calls, n, after.value, p) {
        var i :| 0 <= i < n && Origin(caseId, calls[..n], i, before.value, p);
        assert SameIdentity(before.value, after.value);
        OriginStays(caseId, calls, i, before.value, after.value, p);
      }
    }
  }

  /** A call that said something wrote to an empty slot exactly when it prepared. */
  lemma OriginWrites(caseId: string, calls: seq<Call>, i: nat, r: Execution, p: Piece)
    requires Origin(caseId, calls, i, r, p)
    ensures i < |calls| && (RunFile(None, caseId, calls[..i]).None? <==> p == Preparation)
    ensures Deliver(RunFile(None, caseId, calls[..i]), caseId, calls[i].authorized, calls[i].event, calls[i].at).Written?
  {
    CallWrites(RunFile(None, caseId, calls[..i]), caseId, calls[i].authorized, calls[i].event, calls[i].at);
    hide Deliver, RunFile, Measure, SameIdentity;
  }

  /** Everything else was said after the preparation. */
  lemma PreparedFirst(caseId: string, calls: seq<Call>, p: Piece)
    requires p != Preparation
    ensures var file := RunFile(None, caseId, calls);
            file.Some? && Has(file.value, p) ==>
              exists i, j :: 0 <= i < j < |calls| && Origin(caseId, calls, i, file.value, Preparation)
                             && Origin(caseId, calls, j, file.value, p)
  {
    var file := RunFile(None, caseId, calls);
    if file.Some? && Has(file.value, p) {
      EvidenceWasSaid(caseId, calls, Preparation);
      EvidenceWasSaid(caseId, calls, p);
      assert Has(file.value, Preparation);
      hide Deliver, RunFile, Origin, Has;
      var i :| 0 <= i < |calls| && Origin(caseId, calls, i, file.value, Preparation);
      var j :| 0 <= j < |calls| && Origin(caseId, calls, j, file.value, p);
      OriginWrites(caseId, calls, i, file.value, Preparation);
      OriginWrites(caseId, calls, j, file.value, p);
      if j <= i { FoundLater(caseId, calls, j, i); }
    }
  }

  lemma FoundLater(caseId: string, calls: seq<Call>, j: nat, i: nat)
    requires j <= i <= |calls| && RunFile(None, caseId, calls[..j]).Some?
    ensures RunFile(None, caseId, calls[..i]).Some?
  {
    assert calls[..i][..j] == calls[..j];
    RunsStayFound(caseId, calls[..i], j);
  }

  /** Once a file exists it stays. */
  lemma {:induction false} RunsStayFound(caseId: string, calls: seq<Call>, j: nat)
    requires j <= |calls| && RunFile(None, caseId, calls[..j]).Some?
    ensures RunFile(None, caseId, calls).Some?
  {
    if j < |calls| {
      assert calls[..|calls| - 1][..j] == calls[..j];
      RunsStayFound(caseId, calls[..|calls| - 1], j);
    } else {
      assert calls[..j] == calls;
    }
    hide Deliver;
  }

  /** What a stored record must be to be acted on: its identity, its times and its evidence fit its state. */
  predicate Sound(r: Execution) {
    && r.version == ManualV1 && r.capabilityId != "" && r.fileId != "" && r.fingerprint.sizeBytes > 0 && r.historyBefore >= 0
    && r.preparedAt != ZERO_TIME && r.updatedAt != ZERO_TIME && r.preparedAt <= r.updatedAt
    && (r.confirmation.Some? <==> r.state.Imported?) && (r.commandId.Some? ==> r.commandId.value > 0)
    && match r.state
       case Prepared => r.commandId.None?
       case Requested => r.commandId.Some?
       case Imported => r.confirmation.value.historyId > r.historyBefore
       case ImportFailed => true
       case OtherState(_) => false
  }

  /** Whatever wrote it, a record that does not fit is neither changed nor acknowledged by any call. */
  lemma UnsoundIsRefused(r: Execution, caseId: string, authorized: Option<AuthorizedManual>, e: Event, at: Time)
    requires !Sound(r)
    ensures Deliver(Some(r), caseId, authorized, e, at).Refused?
  {
    hide InputError, ValidConfirmation;
  }

  lemma ReachedStateFits(caseId: string, calls: seq<Call>)
    ensures var file := RunFile(None, caseId, calls); file.Some? ==> Sound(file.value)
  {
    ImportedWasConfirmed(caseId, calls);
    hide RunFile, ValidConfirmation;
  }

  // ----------------------------------------------------------- completion

  predicate Timely(r: Execution, caseId: string, at: Time) { r.caseId == caseId && r.updatedAt <= at && at != ZERO_TIME }

  /** A well-formed authorised preparation on an empty slot is written, with the baseline it asks for. */
  lemma PreparationIsWritten(caseId: string, auth: AuthorizedManual, historyBefore: int, at: Time)
    requires Sha256Id(auth.caseId) && WellFormed(Prepare(auth, historyBefore)) && historyBefore >= 0 && at != ZERO_TIME
    ensures Deliver(None, caseId, Some(auth), Prepare(auth, historyBefore), at)
         == Written(Execution(ManualV1, auth.caseId, auth.capabilityId, auth.fileId, auth.fingerprint, Prepared,
                              historyBefore, at, at, None, None))
  {
  }

  /** A prepared import's command number is recorded; it is then confirmed, or fails, with or without one. */
  lemma StepsAreWritten(r: Execution, caseId: string, auth: AuthorizedManual, commandId: int, c: Confirmation, at: Time)
    requires Valid(r) && Timely(r, caseId, at) && (r.state.Prepared? || r.state.Requested?)
    ensures r.state.Prepared? && commandId > 0 ==>
              Deliver(Some(r), caseId, Some(auth), MarkRequested(commandId), at)
              == Written(r.(state := Requested, commandId := Some(commandId), updatedAt := at))
    ensures SameImport(r, auth) && ConfirmsFile(c, auth.file) && ValidConfirmation(c) && c.historyId > r.historyBefore ==>
              Deliver(Some(r), caseId, Some(auth), MarkImported(auth, c), at)
              == Written(r.(state := Imported, confirmation := Some(c), updatedAt := at))
    ensures Deliver(Some(r), caseId, Some(auth), MarkFailed, at) == Written(r.(state := ImportFailed, updatedAt := at))
  {
    hide ValidConfirmation, ConfirmsFile;
  }

  /** A call on a prepared record is acknowledged without a write exactly when the record already says the same. */
  lemma AcknowledgedIff(r: Execution, caseId: string, authorized: Option<AuthorizedManual>, e: Event, at: Time)
    requires Valid(r) && Timely(r, caseId, at) && InputError(authorized, e).None?
    requires e.Prepare? ==> authorized == Some(e.auth) && Sha256Id(e.auth.caseId)
    ensures Deliver(Some(r), caseId, authorized, e, at) == Kept <==>
            match e
            case Prepare(auth, _) =>
              r.caseId == auth.caseId && r.capabilityId == auth.capabilityId && r.fileId == auth.fileId
              && r.fingerprint == auth.fingerprint
            case MarkRequested(commandId) => r.state.Requested? && r.commandId == Some(commandId)
            case MarkImported(auth, c) =>
              && r.state.Imported? && r.confirmation == Some(c) && r.caseId == auth.caseId
              && r.capabilityId == auth.capabilityId && r.fileId == auth.fileId && r.fingerprint == auth.fingerprint
            case MarkFailed => r.state.ImportFailed?
  {
    hide ValidConfirmation, ConfirmsFile;
  }
}
