/** The manual-import execution record, its transitions and what its runs keep. */
module ManualMachine {
  import opened Common
  import opened RepairRecords

  datatype State = Prepared | Requested | Imported | ImportFailed | OtherState(name: string)

  datatype Execution = Execution(
    version: Version, caseId: string, capabilityId: string, fileId: string, fingerprint: Fingerprint, state: State,
    historyBefore: int, preparedAt: Time, updatedAt: Time, commandId: Option<int>,
    confirmation: Option<Confirmation>)

  predicate CommandIdPositive(r: Execution) { r.commandId.Some? ==> r.commandId.value > 0 }

  predicate Valid(r: Execution) {
    && r.version == ManualV1 && Sha256Id(r.caseId)
    && r.capabilityId != "" && r.fileId != "" && r.fingerprint.sizeBytes > 0 && r.historyBefore >= 0
    && r.preparedAt != ZERO_TIME && r.updatedAt != ZERO_TIME && r.preparedAt <= r.updatedAt
    && match r.state
       case Prepared => r.commandId.None? && r.confirmation.None?
       case Requested => r.commandId.Some? && r.commandId.value > 0 && r.confirmation.None?
       case Imported =>
         && CommandIdPositive(r) && r.confirmation.Some? && ValidConfirmation(r.confirmation.value)
         && r.confirmation.value.historyId > r.historyBefore
       case ImportFailed => CommandIdPositive(r) && r.confirmation.None?
       case OtherState(_) => false
  }

  predicate SameImport(r: Execution, a: AuthorizedManual) {
    r.caseId == a.caseId && r.capabilityId == a.capabilityId && r.fileId == a.fileId && r.fingerprint == a.fingerprint
  }

  datatype Event =
    | Prepare(auth: AuthorizedManual, historyBefore: int)
    | MarkRequested(commandId: int)
    | MarkImported(confirmed: AuthorizedManual, imported: Confirmation)
    | MarkFailed

  function Request(r: Execution, commandId: int): Outcome<Execution> {
    match r.state
    case Prepared => Changed(r.(state := Requested, commandId := Some(commandId)))
    case Requested => if r.commandId == Some(commandId) then Unchanged else Rejected(Conflict)
    case _ => Rejected(WrongState)
  }

  function Confirm(r: Execution, a: AuthorizedManual, c: Confirmation): Outcome<Execution> {
    if !SameImport(r, a) then Rejected(Mismatch)
    else
      match r.state
      case Prepared | Requested =>
        if c.historyId <= r.historyBefore then Rejected(Mismatch)
        else Changed(r.(state := Imported, confirmation := Some(c)))
      case Imported => if r.confirmation == Some(c) then Unchanged else Rejected(Conflict)
      case _ => Rejected(WrongState)
  }

  function Fail(r: Execution): Outcome<Execution> {
    match r.state
    case Prepared | Requested => Changed(r.(state := ImportFailed))
    case ImportFailed => Unchanged
    case _ => Rejected(WrongState)
  }

  /** Checks before the file is opened; `authorized` is what the effective plan allows. */
  function InputError(authorized: Option<AuthorizedManual>, e: Event): Option<StoreError> {
    match e
    case Prepare(_, historyBefore) => if historyBefore < 0 then Some(BadInput) else None
    case MarkRequested(commandId) => if commandId <= 0 then Some(BadInput) else None
    case MarkImported(auth, c) =>
      if authorized != Some(auth) then Some(NotAuthorized)
      else if !ConfirmsFile(c, auth.file) then Some(Mismatch)
      else if !ValidConfirmation(c) then Some(BadInput)
      else None
    case MarkFailed => None
  }

  function Update(r: Execution, e: Event): Outcome<Execution>
    requires !e.Prepare?
  {
    match e
    case MarkRequested(commandId) => Request(r, commandId)
    case MarkImported(auth, c) => Confirm(r, auth, c)
    case MarkFailed => Fail(r)
  }

  function Store(r: Execution): Effect<Execution> { if Valid(r) then Written(r) else Refused(InvalidRecord) }

  function Fresh(a: AuthorizedManual, historyBefore: int, at: Time): Execution {
    Execution(ManualV1, a.caseId, a.capabilityId, a.fileId, a.fingerprint, Prepared, historyBefore, at, at, None, None)
  }

  function PrepareCall(file: Option<Execution>, authorized: Option<AuthorizedManual>, e: Event, at: Time)
    : Effect<Execution>
    requires e.Prepare?
  {
    if !Sha256Id(e.auth.caseId) then Refused(InvalidCase)
    else if authorized != Some(e.auth) then Refused(NotAuthorized)
    else if file.None? then Store(Fresh(e.auth, e.historyBefore, at))
    else if !Valid(file.value) then Refused(Unreadable)
    else if SameImport(file.value, e.auth) then Kept
    else Refused(Conflict)
  }

  function Deliver(file: Option<Execution>, caseId: string, authorized: Option<AuthorizedManual>, e: Event, at: Time)
    : Effect<Execution>
  {
    var input := InputError(authorized, e);
    if input.Some? then Refused(input.value)
    else if at == ZERO_TIME then Refused(TimeRequired)
    else if e.Prepare? then PrepareCall(file, authorized, e, at)
    else if !Sha256Id(caseId) then Refused(InvalidCase)
    else if file.None? then Refused(NotPrepared)
    else if !Valid(file.value) then Refused(Unreadable)
    else if file.value.caseId != caseId then Refused(WrongCase)
    else if at < file.value.updatedAt then Refused(TimeBackwards)
    else
      match Update(file.value, e)
      case Rejected(error) => Refused(error)
      case Unchanged => Kept
      case Changed(next) => Store(next.(updatedAt := at))
  }

  // ------------------------------------------------------- what runs keep

  /** A new authorisation names its capability and a non-empty file. */
  predicate WellFormed(e: Event) {
    e.Prepare? ==> e.auth.capabilityId != "" && e.auth.fileId != "" && e.auth.fingerprint.sizeBytes > 0
  }

  /** The validating write refuses a guarded step exactly when it prepares a malformed authorisation. */
  lemma ValidatingWrite(file: Option<Execution>, caseId: string, authorized: Option<AuthorizedManual>, e: Event, at: Time)
    ensures var d := Deliver(file, caseId, authorized, e, at);
            && (d == Refused(InvalidRecord) ==> !WellFormed(e))
            && (d.Written? ==> WellFormed(e) && Valid(d.record))
  {
    hide ValidConfirmation, ConfirmsFile;
  }

  function Rank(s: State): nat {
    match s
    case Prepared => 3
    case Requested => 2
    case _ => 1
  }

  function Measure(file: Option<Execution>): nat { if file.None? then 4 else Rank(file.value.state) }

  predicate SameIdentity(r: Execution, r': Execution) {
    && r'.caseId == r.caseId && r'.capabilityId == r.capabilityId && r'.fileId == r.fileId
    && r'.fingerprint == r.fingerprint && r'.historyBefore == r.historyBefore && r'.preparedAt == r.preparedAt
    && (r.commandId.Some? ==> r'.commandId == r.commandId)
    && (r.confirmation.Some? ==> r'.confirmation == r.confirmation)
  }

  /** Every write moves forward and keeps what identifies the import; a record is prepared once. */
  lemma CallWrites(file: Option<Execution>, caseId: string, authorized: Option<AuthorizedManual>, e: Event, at: Time)
    ensures var d := Deliver(file, caseId, authorized, e, at);
            d.Written? ==>
              && Measure(Some(d.record)) < Measure(file) && (e.Prepare? <==> file.None?)
              && (file.Some? ==> SameIdentity(file.value, d.record))
              && (d.record.state.Imported? ==>
                    && e.MarkImported? && authorized == Some(e.confirmed) && SameImport(d.record, e.confirmed)
                    && d.record.confirmation == Some(e.imported) && ConfirmsFile(e.imported, e.confirmed.file))
  {
  }

  /** Delivering the same event again leaves the stored record as it is. */
  lemma ReplayWritesNothing(file: Option<Execution>, caseId: string, authorized: Option<AuthorizedManual>, e: Event,
                            at: Time, authorized': Option<AuthorizedManual>, at': Time)
    requires Deliver(file, caseId, authorized, e, at).Written?
    ensures !Deliver(Some(Deliver(file, caseId, authorized, e, at).record), caseId, authorized', e, at').Written?
  {
    hide ValidConfirmation, ConfirmsFile;
  }

  datatype Call = Call(authorized: Option<AuthorizedManual>, event: Event, at: Time)

  function RunFile(file: Option<Execution>, caseId: string, calls: seq<Call>): Option<Execution> {
    if calls == [] then file
    else
      var before := RunFile(file, caseId, calls[..|calls| - 1]);
      var last := calls[|calls| - 1];
      After(before, Deliver(before, caseId, last.authorized, last.event, last.at))
  }

  function Writes(file: Option<Execution>, caseId: string, calls: seq<Call>): nat {
    if calls == [] then 0
    else
      var before := RunFile(file, caseId, calls[..|calls| - 1]);
      var last := calls[|calls| - 1];
      Writes(file, caseId, calls[..|calls| - 1])
      + (if Deliver(before, caseId, last.authorized, last.event, last.at).Written? then 1 else 0)
  }

  /** However many calls are made, at most three of them write. */
  lemma {:induction false} BoundedWrites(file: Option<Execution>, caseId: string, calls: seq<Call>)
    ensures Writes(file, caseId, calls) + Measure(RunFile(file, caseId, calls)) <= Measure(file)
  {
    hide Deliver, Measure;
    if calls != [] {
      var before := RunFile(file, caseId, calls[..|calls| - 1]);
      var last := calls[|calls| - 1];
      BoundedWrites(file, caseId, calls[..|calls| - 1]);
      CallWrites(before, caseId, last.authorized, last.event, last.at);
    }
  }

  /** The lowest rank an event still writes at. */
  function Floor(e: Event): nat {
    match e
    case Prepare(_, _) => 0
    case MarkRequested(_) => 3
    case MarkImported(_, _) | MarkFailed => 2
  }

  lemma WriteCrossesFloor(file: Option<Execution>, caseId: string, authorized: Option<AuthorizedManual>, e: Event, at: Time)
    requires !e.Prepare?
    ensures var d := Deliver(file, caseId, authorized, e, at);
            d.Written? ==> file.Some? && Rank(d.record.state) < Floor(e) <= Rank(file.value.state)
  {
    hide Valid, ConfirmsFile, ValidConfirmation;
  }

  lemma {:induction false} RunsMoveForward(r: Execution, caseId: string, calls: seq<Call>)
    ensures var file := RunFile(Some(r), caseId, calls); file.Some? && Rank(file.value.state) <= Rank(r.state)
  {
    hide Deliver;
    if calls != [] {
      var before := RunFile(Some(r), caseId, calls[..|calls| - 1]);
      var last := calls[|calls| - 1];
      RunsMoveForward(r, caseId, calls[..|calls| - 1]);
      CallWrites(before, caseId, last.authorized, last.event, last.at);
    }
  }

  /** An event that wrote once never writes again, whatever calls come between and whenever it comes back. */
  lemma EventWritesOnce(file: Option<Execution>, caseId: string, call: Call, between: seq<Call>,
                        authorized: Option<AuthorizedManual>, at: Time)
    requires Deliver(file, caseId, call.authorized, call.event, call.at).Written?
    ensures var written := Some(Deliver(file, caseId, call.authorized, call.event, call.at).record);
            !Deliver(RunFile(written, caseId, between), caseId, authorized, call.event, at).Written?
  {
    hide Deliver;
    var written := Deliver(file, caseId, call.authorized, call.event, call.at).record;
    RunsMoveForward(written, caseId, between);
    var last := RunFile(Some(written), caseId, between);
    if call.event.Prepare? {
      CallWrites(last, caseId, authorized, call.event, at);
    } else {
      WriteCrossesFloor(file, caseId, call.authorized, call.event, call.at);
      WriteCrossesFloor(last, caseId, authorized, call.event, at);
    }
  }

  /**
   Every record a run leaves is valid, and an imported one was confirmed for the
   authorised file: some call's confirmation, newer than the recorded history
   id, named that file's movie, download and path.
   */
  lemma {:induction false} ImportedWasConfirmed(caseId: string, calls: seq<Call>)
    ensures var file := RunFile(None, caseId, calls);
            file.Some? ==>
              && Valid(file.value)
              && (file.value.state.Imported? ==>
                    exists i :: 0 <= i < |calls| && ConfirmedBy(calls[i], file.value))
  {
    hide Deliver, ConfirmedBy, Valid;
    if calls != [] {
      var n := |calls| - 1;
      var before := RunFile(None, caseId, calls[..n]);
      ImportedWasConfirmed(caseId, calls[..n]);
      CallWrites(before, caseId, calls[n].authorized, calls[n].event, calls[n].at);
      ValidatingWrite(before, caseId, calls[n].authorized, calls[n].event, calls[n].at);
      ConfirmingCall(before, caseId, calls[n]);
      if before.Some? && before.value.state.Imported? {
        var i :| 0 <= i < n && ConfirmedBy(calls[..n][i], before.value);
        assert calls[..n][i] == calls[i];
      }
    }
  }

  ghost predicate ConfirmedBy(call: Call, r: Execution) {
    && call.event.MarkImported? && call.authorized == Some(call.event.confirmed)
    && SameImport(r, call.event.confirmed) && r.confirmation == Some(call.event.imported)
    && ConfirmsFile(call.event.imported, call.event.confirmed.file)
    && call.event.imported.historyId > r.historyBefore
  }

  lemma ConfirmingCall(before: Option<Execution>, caseId: string, call: Call)
    ensures var d := Deliver(before, caseId, call.authorized, call.event, call.at);
            d.Written? && d.record.state.Imported? ==> ConfirmedBy(call, d.record)
  {
  }
}
