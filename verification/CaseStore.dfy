/**
 One case's slot in the store: its bound execution plan and the execution file
 that the join, disc and manual-import machines share. The decision policy and
 the stored case are parameters, and both may change between calls.
 */
module CaseStore {
  import opened Common
  import opened RepairRecords
  import J = JoinMachine
  import D = DiscMachine
  import M = ManualMachine
  import JR = JoinRuns
  import DR = DiscRuns

  // ---------------------------------------------------------------- plans

  datatype Decision = Decision(caseId: string, content: string)

  /** A stored case with its original decision, or a reconsidered variant of it. */
  datatype Planned = Planned(
    caseId: string, identity: string, assembly: string, decision: Decision, reconsideration: string,
    overrides: Option<int>)

  datatype PlanRecord = PlanRecord(caseId: string, decision: Decision, reconsideration: string, overrides: Option<int>)

  /** Decision contract and decision policy, as functions of what they are shown. */
  datatype Policy = Policy(
    encodable: Decision -> bool,
    join: Planned -> Option<AuthorizedJoin>,
    bluray: Planned -> Option<AuthorizedRemux>,
    dvd: Planned -> Option<AuthorizedDvd>,
    manual: Planned -> Option<AuthorizedManual>,
    template: string -> Option<ImportTemplate>)

  const MAXIMUM_RUNTIME_DIFFERENCE_MS := 3600000

  function NewPlanRecord(policy: Policy, base: Planned, planned: Planned): (r: Option<PlanRecord>) {
    if !policy.encodable(planned.decision) || planned.decision.caseId != base.caseId then None
    else if planned.reconsideration == "" then
      if planned.overrides.Some? || planned.decision != base.decision then None
      else Some(PlanRecord(base.caseId, planned.decision, "", None))
    else if !Sha256Id(planned.reconsideration) then None
    else if planned.overrides.Some? && !(0 < planned.overrides.value <= MAXIMUM_RUNTIME_DIFFERENCE_MS) then None
    else Some(PlanRecord(base.caseId, planned.decision, planned.reconsideration, planned.overrides))
  }

  function Effective(base: Planned, record: PlanRecord): Planned {
    base.(decision := record.decision, reconsideration := record.reconsideration, overrides := record.overrides)
  }

  predicate ValidPlan(policy: Policy, record: PlanRecord, base: Planned) {
    && record.caseId == base.caseId && policy.encodable(record.decision) && record.decision.caseId == record.caseId
    && NewPlanRecord(policy, base, Effective(base, record)) == Some(record)
  }

  /** What the fields of a plan must be: an unchanged decision, or a changed one with a reconsideration to its name. */
  predicate Acceptable(policy: Policy, base: Planned, decision: Decision, reconsideration: string, overrides: Option<int>) {
    && policy.encodable(decision) && decision.caseId == base.caseId
    && if reconsideration == "" then decision == base.decision && overrides == None
       else Sha256Id(reconsideration) && (overrides == None || 1 <= overrides.value <= 3600000)
  }

  /** A plan record is built for exactly these plans, with all they say. */
  lemma PlanAcceptedIff(policy: Policy, base: Planned, planned: Planned)
    ensures NewPlanRecord(policy, base, planned)
            == if Acceptable(policy, base, planned.decision, planned.reconsideration, planned.overrides)
               then Some(PlanRecord(base.caseId, planned.decision, planned.reconsideration, planned.overrides)) else None
  {
  }

  lemma PlanReadableIff(policy: Policy, base: Planned, record: PlanRecord)
    ensures ValidPlan(policy, record, base)
            <==> record.caseId == base.caseId
                 && Acceptable(policy, base, record.decision, record.reconsideration, record.overrides)
  {
    PlanAcceptedIff(policy, base, Effective(base, record));
    hide NewPlanRecord;
  }

  /** Whatever plan record is built is one the stored-plan validator accepts. */
  lemma NewPlanIsValid(policy: Policy, base: Planned, planned: Planned)
    requires NewPlanRecord(policy, base, planned).Some?
    ensures ValidPlan(policy, NewPlanRecord(policy, base, planned).value, base)
  {
  }

  // ---------------------------------------------------------------- slots

  /** The one execution file of a case, by the machine that wrote it. */
  datatype Stored = JoinFile(join: J.Execution) | DiscFile(disc: D.Execution) | ManualFile(manual: M.Execution)

  function VersionOf(s: Stored): Version {
    match s case JoinFile(r) => r.version case DiscFile(r) => r.version case ManualFile(r) => r.version
  }

  /**
   What decoding makes of a document that another machine wrote: an error, or a
   record of its own type with any fields at all. Only the version field, which
   all documents share, is known to come through.
   */
  datatype Decoder = Decoder(
    join: Stored -> Option<J.Execution>, disc: Stored -> Option<D.Execution>, manual: Stored -> Option<M.Execution>)

  function DecodeJoin(decoder: Decoder, s: Stored): Option<J.Execution> {
    if s.JoinFile? then Some(s.join)
    else match decoder.join(s) case None => None case Some(r) => Some(r.(version := VersionOf(s)))
  }

  function DecodeDisc(decoder: Decoder, s: Stored): Option<D.Execution> {
    if s.DiscFile? then Some(s.disc)
    else match decoder.disc(s) case None => None case Some(r) => Some(r.(version := VersionOf(s)))
  }

  function DecodeManual(decoder: Decoder, s: Stored): Option<M.Execution> {
    if s.ManualFile? then Some(s.manual)
    else match decoder.manual(s) case None => None case Some(r) => Some(r.(version := VersionOf(s)))
  }

  datatype Slot = Slot(plan: Option<PlanRecord>, execution: Option<Stored>)

  /** The plan in force: the bound one if there is one, else the stored decision; nothing if it is unreadable. */
  function InForce(policy: Policy, base: Option<Planned>, slot: Slot): Option<Planned> {
    if base.None? then None
    else if slot.plan.None? then base
    else if !ValidPlan(policy, slot.plan.value, base.value) then None
    else Some(Effective(base.value, slot.plan.value))
  }

  function Authorizes<A>(plan: Option<Planned>, grant: Planned -> Option<A>): Option<A> {
    if plan.None? then None else grant(plan.value)
  }

  function Template(policy: Policy, base: Option<Planned>): Option<ImportTemplate> {
    if base.None? then None else policy.template(base.value.assembly)
  }

  function JoinEnv(policy: Policy, base: Option<Planned>, slot: Slot): J.Env {
    J.Env(Authorizes(InForce(policy, base, slot), policy.join), Template(policy, base))
  }

  function DiscEnv(policy: Policy, base: Option<Planned>, slot: Slot): D.Env {
    var plan := InForce(policy, base, slot);
    D.Env(Authorizes(plan, policy.bluray), Authorizes(plan, policy.dvd), Template(policy, base))
  }

  function ManualEnv(policy: Policy, base: Option<Planned>, slot: Slot): Option<AuthorizedManual> {
    Authorizes(InForce(policy, base, slot), policy.manual)
  }

  datatype Event =
    | Bind(planned: Planned)
    | JoinCall(join: J.Event)
    | DiscCall(disc: D.Event)
    | ManualCall(manual: M.Event)

  /** The plan record a binding would write, if nothing about the plan itself is wrong. */
  function Bindable(policy: Policy, base: Option<Planned>, slot: Slot, planned: Planned): (r: Option<PlanRecord>) {
    if base.None? || planned.caseId != base.value.caseId || planned.identity != base.value.identity then None
    else if slot.plan.Some? && !ValidPlan(policy, slot.plan.value, base.value) then None
    else NewPlanRecord(policy, base.value, planned)
  }

  function BindStep(policy: Policy, base: Option<Planned>, slot: Slot, planned: Planned): Slot {
    var record := Bindable(policy, base, slot, planned);
    if record.None? then slot
    else if slot.plan.Some? && (slot.plan == record || slot.execution.Some?) then slot
    else slot.(plan := record)
  }

  /** A preparation addresses the slot of the case its authorisation names. */
  predicate Addresses(e: Event, caseId: string) {
    match e
    case Bind(planned) => planned.caseId == caseId
    case JoinCall(Prepare(auth)) => auth.caseId == caseId
    case DiscCall(PrepareBluray(auth)) => auth.caseId == caseId
    case DiscCall(PrepareDvd(auth)) => auth.caseId == caseId
    case ManualCall(Prepare(auth, _)) => auth.caseId == caseId
    case ManualCall(MarkImported(auth, _)) => auth.caseId == caseId
    case _ => true
  }

  /** A join call on the shared file: decode it whoever wrote it, and let the machine's own validator judge. */
  function JoinStep(decoder: Decoder, caseId: string, env: J.Env, file: Option<Stored>, e: J.Event, at: Time)
    : Option<Stored>
  {
    var found := if file.None? then None else DecodeJoin(decoder, file.value);
    if file.Some? && found.None? then file
    else var d := J.Deliver(found, caseId, env, e, at); if d.Written? then Some(JoinFile(d.record)) else file
  }

  function DiscStep(decoder: Decoder, caseId: string, env: D.Env, file: Option<Stored>, e: D.Event, at: Time)
    : Option<Stored>
  {
    var found := if file.None? then None else DecodeDisc(decoder, file.value);
    if file.Some? && found.None? then file
    else var d := D.Deliver(found, caseId, env, e, at); if d.Written? then Some(DiscFile(d.record)) else file
  }

  function ManualStep(
      decoder: Decoder, caseId: string, authorized: Option<AuthorizedManual>, file: Option<Stored>, e: M.Event, at: Time)
    : Option<Stored>
  {
    var found := if file.None? then None else DecodeManual(decoder, file.value);
    if file.Some? && found.None? then file
    else var d := M.Deliver(found, caseId, authorized, e, at); if d.Written? then Some(ManualFile(d.record)) else file
  }

  /** One store call. */
  function Step(policy: Policy, decoder: Decoder, caseId: string, base: Option<Planned>, slot: Slot, e: Event, at: Time)
    : Slot
  {
    if !Addresses(e, caseId) then slot
    else
      match e
      case Bind(planned) => BindStep(policy, base, slot, planned)
      case JoinCall(event) =>
        slot.(execution := JoinStep(decoder, caseId, JoinEnv(policy, base, slot), slot.execution, event, at))
      case DiscCall(event) =>
        slot.(execution := DiscStep(decoder, caseId, DiscEnv(policy, base, slot), slot.execution, event, at))
      case ManualCall(event) =>
        slot.(execution := ManualStep(decoder, caseId, ManualEnv(policy, base, slot), slot.execution, event, at))
  }

  // --------------------------------------------------------------- freeze

  /** What a stored execution was authorised for. */
  datatype Identity =
    | JoinIdentity(join: AuthorizedJoin)
    | BlurayIdentity(bluray: AuthorizedRemux)
    | DvdIdentity(dvd: AuthorizedDvd)
    | ManualIdentity(caseId: string, capabilityId: string, fileId: string, fingerprint: Fingerprint)

  function IdentityOf(s: Stored): Identity {
    match s
    case JoinFile(r) => JoinIdentity(r.auth)
    case DiscFile(r) => if r.dvd.Some? then DvdIdentity(r.dvd.value) else BlurayIdentity(r.auth)
    case ManualFile(r) => ManualIdentity(r.caseId, r.capabilityId, r.fileId, r.fingerprint)
  }

  /** The versions the readers accept, one or two per machine and none twice. */
  predicate JoinVersion(v: Version) { v == JoinV2 }

  predicate DiscVersion(v: Version) { v == BlurayV1 || v == DvdV1 }

  predicate ManualVersion(v: Version) { v == ManualV1 }

  /** The document does not claim a version of a machine other than its writer. */
  predicate Versioned(s: Stored) {
    match s
    case JoinFile(r) => !DiscVersion(r.version) && !ManualVersion(r.version)
    case DiscFile(r) => !JoinVersion(r.version) && !ManualVersion(r.version)
    case ManualFile(r) => !JoinVersion(r.version) && !DiscVersion(r.version)
  }

  lemma JoinReadsItsVersion(r: J.Execution, caseId: string, env: J.Env, e: J.Event, at: Time)
    ensures var d := J.Deliver(Some(r), caseId, env, e, at);
            d.Written? ==> JoinVersion(r.version) && d.record.auth == r.auth
  {
    assert J.Valid(r) ==> JoinVersion(r.version);
    if !e.Prepare? { JR.UpdateWrites(Some(r), caseId, env, e, at); }
    hide J.UpdateCall, J.Valid;
  }

  lemma DiscReadsItsVersion(r: D.Execution, caseId: string, env: D.Env, e: D.Event, at: Time)
    ensures var d := D.Deliver(Some(r), caseId, env, e, at);
            d.Written? ==> DiscVersion(r.version) && DR.SameIdentity(r, d.record)
  {
    DR.CallWrites(Some(r), caseId, env, e, at);
    var d := D.Deliver(Some(r), caseId, env, e, at);
    hide D.Deliver;
    assert d.Written? ==> D.Valid(d.record) && d.record.version == r.version;
    hide D.ValidDvdStage, D.ValidBlurayStage, D.RemuxShape, D.DvdShape;
  }

  lemma ManualReadsItsVersion(
      r: M.Execution, caseId: string, authorized: Option<AuthorizedManual>, e: M.Event, at: Time)
    ensures var d := M.Deliver(Some(r), caseId, authorized, e, at);
            d.Written? ==> ManualVersion(r.version) && M.SameIdentity(r, d.record)
  {
    M.CallWrites(Some(r), caseId, authorized, e, at);
    assert M.Deliver(Some(r), caseId, authorized, e, at).Written? ==> M.Valid(r);
    hide M.Deliver;
  }

  lemma WritesItsVersion(caseId: string, e: Event, at: Time, join: Option<J.Execution>, joinEnv: J.Env,
                         disc: Option<D.Execution>, discEnv: D.Env,
                         manual: Option<M.Execution>, authorized: Option<AuthorizedManual>)
    ensures e.JoinCall? && J.Deliver(join, caseId, joinEnv, e.join, at).Written?
        ==> JoinVersion(J.Deliver(join, caseId, joinEnv, e.join, at).record.version)
    ensures e.DiscCall? && D.Deliver(disc, caseId, discEnv, e.disc, at).Written?
        ==> DiscVersion(D.Deliver(disc, caseId, discEnv, e.disc, at).record.version)
    ensures e.ManualCall? && M.Deliver(manual, caseId, authorized, e.manual, at).Written?
        ==> ManualVersion(M.Deliver(manual, caseId, authorized, e.manual, at).record.version)
  {
    hide J.Deliver, D.Deliver, M.Deliver;
    match e
    case JoinCall(event) => JR.ValidatingWrite(join, caseId, joinEnv, event, at); hide J.Shape, J.ValidResult;
    case DiscCall(event) =>
      DR.CallWrites(disc, caseId, discEnv, event, at);
      hide D.ValidDvdStage, D.ValidBlurayStage, D.RemuxShape, D.DvdShape;
    case ManualCall(event) => M.ValidatingWrite(manual, caseId, authorized, event, at);
    case Bind(_) =>
  }

  /**
   A file one machine wrote is refused by the readers of the others, whatever
   decoding makes of it, because their validators check the version first.
   */
  lemma ForeignIsRefused(decoder: Decoder, caseId: string, joinEnv: J.Env, discEnv: D.Env,
                         authorized: Option<AuthorizedManual>, s: Stored, e: Event, at: Time)
    requires Versioned(s)
    ensures e.JoinCall? && !s.JoinFile? ==> JoinStep(decoder, caseId, joinEnv, Some(s), e.join, at) == Some(s)
    ensures e.DiscCall? && !s.DiscFile? ==> DiscStep(decoder, caseId, discEnv, Some(s), e.disc, at) == Some(s)
    ensures e.ManualCall? && !s.ManualFile? ==> ManualStep(decoder, caseId, authorized, Some(s), e.manual, at) == Some(s)
  {
    hide J.Deliver, D.Deliver, M.Deliver;
    match e
    case JoinCall(event) =>
      var r := DecodeJoin(decoder, s);
      if r.Some? { JoinReadsItsVersion(r.value, caseId, joinEnv, event, at); }
    case DiscCall(event) =>
      var r := DecodeDisc(decoder, s);
      if r.Some? { DiscReadsItsVersion(r.value, caseId, discEnv, event, at); }
    case ManualCall(event) =>
      var r := DecodeManual(decoder, s);
      if r.Some? { ManualReadsItsVersion(r.value, caseId, authorized, event, at); }
    case Bind(_) =>
  }

  /** Every file a call writes carries its own machine's version. */
  lemma StepStaysVersioned(
      policy: Policy, decoder: Decoder, caseId: string, base: Option<Planned>, slot: Slot, e: Event, at: Time)
    requires slot.execution.Some? ==> Versioned(slot.execution.value)
    ensures var slot' := Step(policy, decoder, caseId, base, slot, e, at);
            slot'.execution.Some? ==> Versioned(slot'.execution.value)
  {
    hide J.Deliver, D.Deliver, M.Deliver, JoinEnv, DiscEnv, ManualEnv, Bindable;
    var file := slot.execution;
    WritesItsVersion(caseId, e, at,
                     if file.None? then None else DecodeJoin(decoder, file.value), JoinEnv(policy, base, slot),
                     if file.None? then None else DecodeDisc(decoder, file.value), DiscEnv(policy, base, slot),
                     if file.None? then None else DecodeManual(decoder, file.value), ManualEnv(policy, base, slot));
  }

  /** No call changes the kind of repair or the authorised identity once a record exists. */
  lemma StepKeepsIdentity(
      policy: Policy, decoder: Decoder, caseId: string, base: Option<Planned>, slot: Slot, e: Event, at: Time)
    requires slot.execution.Some? && Versioned(slot.execution.value)
    ensures var slot' := Step(policy, decoder, caseId, base, slot, e, at);
            && slot'.execution.Some?
            && IdentityOf(slot'.execution.value) == IdentityOf(slot.execution.value)
            && (slot.plan.Some? ==> slot'.plan == slot.plan)
  {
    hide J.Deliver, D.Deliver, M.Deliver, JoinEnv, DiscEnv, ManualEnv, Bindable, Versioned;
    var s := slot.execution.value;
    ForeignIsRefused(decoder, caseId, JoinEnv(policy, base, slot), DiscEnv(policy, base, slot),
                     ManualEnv(policy, base, slot), s, e, at);
    match (e, s)
    case (JoinCall(event), JoinFile(r)) => JoinReadsItsVersion(r, caseId, JoinEnv(policy, base, slot), event, at);
    case (DiscCall(event), DiscFile(r)) => DiscReadsItsVersion(r, caseId, DiscEnv(policy, base, slot), event, at);
    case (ManualCall(event), ManualFile(r)) =>
      ManualReadsItsVersion(r, caseId, ManualEnv(policy, base, slot), event, at);
    case _ =>
  }

  datatype Call = Call(policy: Policy, decoder: Decoder, base: Option<Planned>, event: Event, at: Time)

  function Made(caseId: string, slot: Slot, call: Call): Slot {
    Step(call.policy, call.decoder, caseId, call.base, slot, call.event, call.at)
  }

  function Run(caseId: string, slot: Slot, calls: seq<Call>): Slot
    decreases |calls|
  {
    if calls == [] then slot else Run(caseId, Made(caseId, slot, calls[0]), calls[1..])
  }

  /**
   Over every interleaving of binding, preparing and all other calls, and
   whatever happens to the stored case and the policy meanwhile: once a bound
   plan and an execution record both exist, the plan, the kind of repair and
   the authorised identity never change. The last two are fixed even without a plan.
   */
  lemma {:induction false} PlanAndIdentityFreeze(caseId: string, slot: Slot, calls: seq<Call>)
    requires slot.execution.Some? && Versioned(slot.execution.value)
    ensures var slot' := Run(caseId, slot, calls);
            && slot'.execution.Some?
            && IdentityOf(slot'.execution.value) == IdentityOf(slot.execution.value)
            && (slot.plan.Some? ==> slot'.plan == slot.plan)
    decreases |calls|
  {
    hide Step;
    if calls != [] {
      var c := calls[0];
      StepKeepsIdentity(c.policy, c.decoder, caseId, c.base, slot, c.event, c.at);
      StepStaysVersioned(c.policy, c.decoder, caseId, c.base, slot, c.event, c.at);
      PlanAndIdentityFreeze(caseId, Made(caseId, slot, c), calls[1..]);
    }
  }

  lemma {:induction false} RunsStayVersioned(caseId: string, slot: Slot, calls: seq<Call>)
    requires slot.execution.Some? ==> Versioned(slot.execution.value)
    ensures var slot' := Run(caseId, slot, calls);
            slot'.execution.Some? ==> Versioned(slot'.execution.value)
    decreases |calls|
  {
    hide Step, Versioned;
    if calls != [] {
      var c := calls[0];
      StepStaysVersioned(c.policy, c.decoder, caseId, c.base, slot, c.event, c.at);
      RunsStayVersioned(caseId, Made(caseId, slot, c), calls[1..]);
    }
  }

  /** The freeze on every run from an empty slot: whatever exists after some calls is fixed for all calls that follow. */
  lemma ReachedIdentityFreezes(caseId: string, plan: Option<PlanRecord>, calls: seq<Call>, later: seq<Call>)
    requires Run(caseId, Slot(plan, None), calls).execution.Some?
    ensures var slot := Run(caseId, Slot(plan, None), calls);
            var slot' := Run(caseId, slot, later);
            && slot'.execution.Some?
            && IdentityOf(slot'.execution.value) == IdentityOf(slot.execution.value)
            && (slot.plan.Some? ==> slot'.plan == slot.plan)
  {
    hide Step, Versioned, IdentityOf;
    RunsStayVersioned(caseId, Slot(plan, None), calls);
    PlanAndIdentityFreeze(caseId, Run(caseId, Slot(plan, None), calls), later);
  }

  /**
   Exactly when binding changes the plan file: the plan is bindable, differs,
   and not both a plan and an execution are there. An execution alone does not stop it.
   */
  lemma BindChangesPlanIff(policy: Policy, base: Option<Planned>, slot: Slot, planned: Planned)
    ensures BindStep(policy, base, slot, planned).plan != slot.plan
            <==> && Bindable(policy, base, slot, planned).Some?
                 && Bindable(policy, base, slot, planned) != slot.plan
                 && !(slot.plan.Some? && slot.execution.Some?)
  {
  }

  /** The stored case with the decision, reconsideration and overrides of the plan asked for. */
  function AsPlanned(base: Planned, planned: Planned): Planned {
    Planned(base.caseId, base.identity, base.assembly, planned.decision, planned.reconsideration, planned.overrides)
  }

  /** The plan is for this case, its fields are acceptable, and any bound plan can be read. */
  ghost predicate Fits(policy: Policy, base: Option<Planned>, slot: Slot, planned: Planned) {
    && base.Some? && planned.caseId == base.value.caseId && planned.identity == base.value.identity
    && Acceptable(policy, base.value, planned.decision, planned.reconsideration, planned.overrides)
    && (slot.plan.Some? ==>
          var bound := slot.plan.value;
          bound.caseId == base.value.caseId
          && Acceptable(policy, base.value, bound.decision, bound.reconsideration, bound.overrides))
  }

  /**
   What binding is for: a fitting plan is the one in force afterwards, decision,
   reconsideration and overrides, unless a bound plan and an execution have
   frozen the slot; every other binding leaves the slot as it is.
   */
  lemma BoundPlanIsInForce(policy: Policy, base: Option<Planned>, slot: Slot, planned: Planned)
    ensures var slot' := BindStep(policy, base, slot, planned);
            && slot'.execution == slot.execution
            && (if Fits(policy, base, slot, planned) && !(slot.plan.Some? && slot.execution.Some?)
                then InForce(policy, base, slot') == Some(AsPlanned(base.value, planned))
                else slot' == slot)
  {
    BindExact(policy, base, slot, planned);
    hide Bindable, Fits, NewPlanRecord, ValidPlan;
  }

  /** The same in the order the source decides it, with an identical plan bound again without error. */
  lemma BindExact(policy: Policy, base: Option<Planned>, slot: Slot, planned: Planned)
    ensures var record := Bindable(policy, base, slot, planned);
            && (record.Some? <==> Fits(policy, base, slot, planned))
            && (record.Some? ==>
                  && (InForce(policy, base, slot.(plan := record)) == Some(AsPlanned(base.value, planned)))
                  && (slot.plan.Some? ==>
                        (slot.plan == record <==> InForce(policy, base, slot) == Some(AsPlanned(base.value, planned)))))
  {
    if base.Some? {
      PlanAcceptedIff(policy, base.value, planned);
      if slot.plan.Some? { PlanReadableIff(policy, base.value, slot.plan.value); }
      PlanReadableIff(policy, base.value,
                      PlanRecord(base.value.caseId, planned.decision, planned.reconsideration, planned.overrides));
    }
    hide NewPlanRecord, ValidPlan, Acceptable;
  }

  /** What is in force is what is bound, on top of the stored case, and the stored case when nothing is. */
  lemma InForceIff(policy: Policy, base: Planned, slot: Slot)
    ensures slot.plan.None? ==> InForce(policy, Some(base), slot) == Some(base)
    ensures slot.plan.Some? ==>
              var bound := slot.plan.value;
              InForce(policy, Some(base), slot)
              == if bound.caseId == base.caseId
                    && Acceptable(policy, base, bound.decision, bound.reconsideration, bound.overrides)
                 then Some(Planned(base.caseId, base.identity, base.assembly, bound.decision, bound.reconsideration,
                                   bound.overrides))
                 else None
  {
    if slot.plan.Some? { PlanReadableIff(policy, base, slot.plan.value); }
    hide ValidPlan, Acceptable;
  }

  /**
   Why the freeze needs both files: a repair prepared under the original
   decision, with no plan bound, can still have a reconsidered plan bound
   beneath it, and the plan then in force is no longer the one it was prepared under.
   */
  lemma LateBindingIsAccepted(policy: Policy, base: Planned, execution: Stored, reconsidered: Planned)
    requires reconsidered.caseId == base.caseId && reconsidered.identity == base.identity
    requires policy.encodable(reconsidered.decision) && reconsidered.decision.caseId == base.caseId
    requires Sha256Id(reconsidered.reconsideration)
    requires reconsidered.overrides.Some? ==> 1 <= reconsidered.overrides.value <= 3600000
    requires reconsidered.decision != base.decision
    ensures var slot := Slot(None, Some(execution));
            var slot' := BindStep(policy, Some(base), slot, reconsidered);
            && InForce(policy, Some(base), slot) == Some(base)
            && InForce(policy, Some(base), slot') == Some(AsPlanned(base, reconsidered))
            && AsPlanned(base, reconsidered) != base
  {
  }

  /** A preparation that creates a record was authorised by the plan in force at that moment. */
  lemma CreatedUnderPlanInForce(
      policy: Policy, decoder: Decoder, caseId: string, base: Option<Planned>, slot: Slot, e: Event, at: Time)
    requires slot.execution.None?
    ensures var slot' := Step(policy, decoder, caseId, base, slot, e, at);
            slot'.execution.Some? ==>
              var plan := InForce(policy, base, slot);
              && plan.Some?
              && match slot'.execution.value
                 case JoinFile(r) => policy.join(plan.value) == Some(r.auth) && r.auth.caseId == caseId
                 case DiscFile(r) =>
                   if r.dvd.Some? then policy.dvd(plan.value) == r.dvd && r.dvd.value.caseId == caseId
                   else policy.bluray(plan.value) == Some(r.auth) && r.auth.caseId == caseId
                 case ManualFile(r) =>
                   && policy.manual(plan.value).Some?
                   && M.SameImport(r, policy.manual(plan.value).value) && r.caseId == caseId
  {
    hide J.Shape, J.ValidResult, D.RemuxShape, D.DvdShape, D.ValidBlurayStage, D.ValidDvdStage, J.Update, D.Update,
         J.InputError, D.GoodInput;
  }

  // ---------------------------------------------------------------- store

  /** The store over given planned cases: every call reads one case's files and replaces at most one of them. */
  class Store {
    const policy: Policy
    const decoder: Decoder
    var cases: map<string, Planned>
    var plans: map<string, PlanRecord>
    var executions: map<string, Stored>

    constructor (policy: Policy, decoder: Decoder, cases: map<string, Planned>)
      ensures this.policy == policy && this.decoder == decoder
      ensures this.cases == cases && plans == map[] && executions == map[]
    {
      this.policy, this.decoder, this.cases := policy, decoder, cases;
      plans, executions := map[], map[];
    }

    function Lookup<V>(m: map<string, V>, caseId: string): Option<V> {
      if caseId in m then Some(m[caseId]) else None
    }

    function SlotOf(caseId: string): Slot
      reads this
    {
      Slot(Lookup(plans, caseId), Lookup(executions, caseId))
    }

    method BindExecutionPlan(planned: Planned) returns (ok: bool)
      modifies this`plans
      ensures var base, slot := Lookup(cases, planned.caseId), old(SlotOf(planned.caseId));
              && (ok <==> && Fits(policy, base, slot, planned)
                          && (slot.plan.Some? && slot.execution.Some? ==>
                                InForce(policy, base, slot) == Some(AsPlanned(base.value, planned))))
              && (if ok then InForce(policy, base, SlotOf(planned.caseId)) == Some(AsPlanned(base.value, planned))
                  else SlotOf(planned.caseId) == slot)
      ensures SlotOf(planned.caseId)
              == Step(policy, decoder, planned.caseId, Lookup(cases, planned.caseId), old(SlotOf(planned.caseId)),
                      Bind(planned), 0)
      ensures forall other :: other != planned.caseId ==> SlotOf(other) == old(SlotOf(other))
    {
      var id := planned.caseId;
      var base := Lookup(cases, id);
      BindExact(policy, base, SlotOf(id), planned);
      hide Fits, NewPlanRecord, ValidPlan;
      if base.None? || id != base.value.caseId || planned.identity != base.value.identity { return false; }
      var record := NewPlanRecord(policy, base.value, planned);
      if record.None? { return false; }
      if id in plans {
        if !ValidPlan(policy, plans[id], base.value) { return false; }
        if plans[id] == record.value { return true; }
        if id in executions { return false; }
      }
      plans := plans[id := record.value];
      ok := true;
    }

    method DeliverJoin(caseId: string, event: J.Event, at: Time)
      requires Addresses(JoinCall(event), caseId)
      modifies this`executions
      ensures SlotOf(caseId)
              == Step(policy, decoder, caseId, Lookup(cases, caseId), old(SlotOf(caseId)), JoinCall(event), at)
      ensures forall other :: other != caseId ==> SlotOf(other) == old(SlotOf(other))
    {
      hide J.Deliver, JoinEnv;
      var found := None;
      if caseId in executions {
        found := DecodeJoin(decoder, executions[caseId]);
        if found.None? { return; }
      }
      var d := J.Deliver(found, caseId, JoinEnv(policy, Lookup(cases, caseId), SlotOf(caseId)), event, at);
      if d.Written? { executions := executions[caseId := JoinFile(d.record)]; }
    }

    method DeliverDisc(caseId: string, event: D.Event, at: Time)
      requires Addresses(DiscCall(event), caseId)
      modifies this`executions
      ensures SlotOf(caseId)
              == Step(policy, decoder, caseId, Lookup(cases, caseId), old(SlotOf(caseId)), DiscCall(event), at)
      ensures forall other :: other != caseId ==> SlotOf(other) == old(SlotOf(other))
    {
      hide D.Deliver, DiscEnv;
      var found := None;
      if caseId in executions {
        found := DecodeDisc(decoder, executions[caseId]);
        if found.None? { return; }
      }
      var d := D.Deliver(found, caseId, DiscEnv(policy, Lookup(cases, caseId), SlotOf(caseId)), event, at);
      if d.Written? { executions := executions[caseId := DiscFile(d.record)]; }
    }

    method DeliverManual(caseId: string, event: M.Event, at: Time)
      requires Addresses(ManualCall(event), caseId)
      modifies this`executions
      ensures SlotOf(caseId)
              == Step(policy, decoder, caseId, Lookup(cases, caseId), old(SlotOf(caseId)), ManualCall(event), at)
      ensures forall other :: other != caseId ==> SlotOf(other) == old(SlotOf(other))
    {
      hide M.Deliver, ManualEnv;
      var found := None;
      if caseId in executions {
        found := DecodeManual(decoder, executions[caseId]);
        if found.None? { return; }
      }
      var d := M.Deliver(found, caseId, ManualEnv(policy, Lookup(cases, caseId), SlotOf(caseId)), event, at);
      if d.Written? { executions := executions[caseId := ManualFile(d.record)]; }
    }
  }
}
