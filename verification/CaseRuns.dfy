/**
 From the machines to the store: the record in a case's slot is the one the
 machine reaches on the calls addressed to it, whatever other calls come between,
 and a repair the plan in force authorises can be prepared.
 */
module CaseRuns {
  import opened Common
  import opened RepairRecords
  import J = JoinMachine
  import D = DiscMachine
  import M = ManualMachine
  import JR = JoinRuns
  import DR = DiscRuns
  import opened CaseStore

  // -------------------------------------------------------------- joins

  /** The join calls of a run that address the case, each with what the plan in force then allowed. */
  function JoinCallsOf(caseId: string, slot: Slot, calls: seq<Call>): seq<JR.Call>
    decreases |calls|
  {
    if calls == [] then []
    else
      var c := calls[0];
      (if c.event.JoinCall? && Addresses(c.event, caseId) then
         [JR.Call(JoinEnv(c.policy, c.base, slot), c.event.join, c.at)]
       else [])
      + JoinCallsOf(caseId, Made(caseId, slot, c), calls[1..])
  }

  lemma {:induction false} JoinRunFirst(file: Option<J.Execution>, caseId: string, c: JR.Call, rest: seq<JR.Call>)
    ensures JR.RunFile(file, caseId, [c] + rest)
         == JR.RunFile(After(file, J.Deliver(file, caseId, c.env, c.event, c.at)), caseId, rest)
    decreases |rest|
  {
    hide J.Deliver;
    var all := [c] + rest;
    if rest == [] {
      assert all[..0] == [];
      assert JR.RunFile(file, caseId, []) == file;
    } else {
      var n := |rest| - 1;
      assert all[..|all| - 1] == [c] + rest[..n] && all[|all| - 1] == rest[n];
      JoinRunFirst(file, caseId, c, rest[..n]);
    }
  }

  predicate IsJoinSlot(slot: Slot) {
    slot.execution.None? || (slot.execution.value.JoinFile? && Versioned(slot.execution.value))
  }

  function JoinOf(slot: Slot): Option<J.Execution>
    requires IsJoinSlot(slot)
  {
    if slot.execution.None? then None else Some(slot.execution.value.join)
  }

  /** One call on a slot that is empty or holds a join: the machine takes its own, and the others leave it or fill it for good. */
  lemma JoinStepInSlot(caseId: string, slot: Slot, c: Call)
    requires IsJoinSlot(slot)
    ensures var slot' := Made(caseId, slot, c);
            if c.event.JoinCall? && Addresses(c.event, caseId) then
              IsJoinSlot(slot') && JoinOf(slot')
              == After(JoinOf(slot), J.Deliver(JoinOf(slot), caseId, JoinEnv(c.policy, c.base, slot), c.event.join, c.at))
            else (IsJoinSlot(slot') && JoinOf(slot') == JoinOf(slot))
                 || (slot'.execution.Some? && Versioned(slot'.execution.value) && !slot'.execution.value.JoinFile?)
  {
    StepStaysVersioned(c.policy, c.decoder, caseId, c.base, slot, c.event, c.at);
    if slot.execution.Some? {
      ForeignIsRefused(c.decoder, caseId, JoinEnv(c.policy, c.base, slot), DiscEnv(c.policy, c.base, slot),
                       ManualEnv(c.policy, c.base, slot), slot.execution.value, c.event, c.at);
    }
    hide J.Deliver, D.Deliver, M.Deliver, JoinEnv, DiscEnv, ManualEnv, Bindable, Versioned;
  }

  /** The join record a run of the store leaves is the one the machine reaches on the run's join calls. */
  lemma {:induction false} StoreJoinIsMachineRun(caseId: string, slot: Slot, calls: seq<Call>)
    requires IsJoinSlot(slot)
    ensures var last := Run(caseId, slot, calls).execution;
            last.Some? && last.value.JoinFile? ==>
              JR.RunFile(JoinOf(slot), caseId, JoinCallsOf(caseId, slot, calls)) == Some(last.value.join)
    decreases |calls|
  {
    if calls != [] {
      var c := calls[0];
      var slot', rest := Made(caseId, slot, c), calls[1..];
      JoinStepInSlot(caseId, slot, c);
      hide Made, J.Deliver, JR.RunFile, JoinEnv, Versioned;
      if IsJoinSlot(slot') {
        StoreJoinIsMachineRun(caseId, slot', rest);
        if c.event.JoinCall? && Addresses(c.event, caseId) {
          JoinRunFirst(JoinOf(slot), caseId, JR.Call(JoinEnv(c.policy, c.base, slot), c.event.join, c.at),
                  JoinCallsOf(caseId, slot', rest));
        } else {
          assert [] + JoinCallsOf(caseId, slot', rest) == JoinCallsOf(caseId, slot', rest);
        }
      } else {
        PlanAndIdentityFreeze(caseId, slot', rest);
      }
    } else {
      assert JR.RunFile(JoinOf(slot), caseId, []) == JoinOf(slot);
    }
  }

  // -------------------------------------------------------------- discs

  /** The disc calls of a run that address the case, each with what the plan in force then allowed. */
  function DiscCallsOf(caseId: string, slot: Slot, calls: seq<Call>): seq<DR.Call>
    decreases |calls|
  {
    if calls == [] then []
    else
      var c := calls[0];
      (if c.event.DiscCall? && Addresses(c.event, caseId) then
         [DR.Call(DiscEnv(c.policy, c.base, slot), c.event.disc, c.at)]
       else [])
      + DiscCallsOf(caseId, Made(caseId, slot, c), calls[1..])
  }

  lemma {:induction false} DiscRunFirst(file: Option<D.Execution>, caseId: string, c: DR.Call, rest: seq<DR.Call>)
    ensures DR.RunFile(file, caseId, [c] + rest)
         == DR.RunFile(After(file, D.Deliver(file, caseId, c.env, c.event, c.at)), caseId, rest)
    decreases |rest|
  {
    hide D.Deliver;
    var all := [c] + rest;
    if rest == [] {
      assert all[..0] == [];
      assert DR.RunFile(file, caseId, []) == file;
    } else {
      var n := |rest| - 1;
      assert all[..|all| - 1] == [c] + rest[..n] && all[|all| - 1] == rest[n];
      DiscRunFirst(file, caseId, c, rest[..n]);
    }
  }

  predicate IsDiscSlot(slot: Slot) {
    slot.execution.None? || (slot.execution.value.DiscFile? && Versioned(slot.execution.value))
  }

  function DiscOf(slot: Slot): Option<D.Execution>
    requires IsDiscSlot(slot)
  {
    if slot.execution.None? then None else Some(slot.execution.value.disc)
  }

  /** One call on a slot that is empty or holds a disc: the machine takes its own, and the others leave it or fill it for good. */
  lemma DiscStepInSlot(caseId: string, slot: Slot, c: Call)
    requires IsDiscSlot(slot)
    ensures var slot' := Made(caseId, slot, c);
            if c.event.DiscCall? && Addresses(c.event, caseId) then
              IsDiscSlot(slot') && DiscOf(slot')
              == After(DiscOf(slot), D.Deliver(DiscOf(slot), caseId, DiscEnv(c.policy, c.base, slot), c.event.disc, c.at))
            else (IsDiscSlot(slot') && DiscOf(slot') == DiscOf(slot))
                 || (slot'.execution.Some? && Versioned(slot'.execution.value) && !slot'.execution.value.DiscFile?)
  {
    StepStaysVersioned(c.policy, c.decoder, caseId, c.base, slot, c.event, c.at);
    if slot.execution.Some? {
      ForeignIsRefused(c.decoder, caseId, JoinEnv(c.policy, c.base, slot), DiscEnv(c.policy, c.base, slot),
                       ManualEnv(c.policy, c.base, slot), slot.execution.value, c.event, c.at);
    }
    hide J.Deliver, D.Deliver, M.Deliver, JoinEnv, DiscEnv, ManualEnv, Bindable, Versioned;
  }

  /** The disc record a run of the store leaves is the one the machine reaches on the run's disc calls. */
  lemma {:induction false} StoreDiscIsMachineRun(caseId: string, slot: Slot, calls: seq<Call>)
    requires IsDiscSlot(slot)
    ensures var last := Run(caseId, slot, calls).execution;
            last.Some? && last.value.DiscFile? ==>
              DR.RunFile(DiscOf(slot), caseId, DiscCallsOf(caseId, slot, calls)) == Some(last.value.disc)
    decreases |calls|
  {
    if calls != [] {
      var c := calls[0];
      var slot', rest := Made(caseId, slot, c), calls[1..];
      DiscStepInSlot(caseId, slot, c);
      hide Made, D.Deliver, DR.RunFile, DiscEnv, Versioned;
      if IsDiscSlot(slot') {
        StoreDiscIsMachineRun(caseId, slot', rest);
        if c.event.DiscCall? && Addresses(c.event, caseId) {
          DiscRunFirst(DiscOf(slot), caseId, DR.Call(DiscEnv(c.policy, c.base, slot), c.event.disc, c.at),
                  DiscCallsOf(caseId, slot', rest));
        } else {
          assert [] + DiscCallsOf(caseId, slot', rest) == DiscCallsOf(caseId, slot', rest);
        }
      } else {
        PlanAndIdentityFreeze(caseId, slot', rest);
      }
    } else {
      assert DR.RunFile(DiscOf(slot), caseId, []) == DiscOf(slot);
    }
  }

  // ------------------------------------------------------------ manuals

  /** The manual calls of a run that address the case, each with what the plan in force then allowed. */
  function ManualCallsOf(caseId: string, slot: Slot, calls: seq<Call>): seq<M.Call>
    decreases |calls|
  {
    if calls == [] then []
    else
      var c := calls[0];
      (if c.event.ManualCall? && Addresses(c.event, caseId) then
         [M.Call(ManualEnv(c.policy, c.base, slot), c.event.manual, c.at)]
       else [])
      + ManualCallsOf(caseId, Made(caseId, slot, c), calls[1..])
  }

  lemma {:induction false} ManualRunFirst(file: Option<M.Execution>, caseId: string, c: M.Call, rest: seq<M.Call>)
    ensures M.RunFile(file, caseId, [c] + rest)
         == M.RunFile(After(file, M.Deliver(file, caseId, c.authorized, c.event, c.at)), caseId, rest)
    decreases |rest|
  {
    hide M.Deliver;
    var all := [c] + rest;
    if rest == [] {
      assert all[..0] == [];
      assert M.RunFile(file, caseId, []) == file;
    } else {
      var n := |rest| - 1;
      assert all[..|all| - 1] == [c] + rest[..n] && all[|all| - 1] == rest[n];
      ManualRunFirst(file, caseId, c, rest[..n]);
    }
  }

  predicate IsManualSlot(slot: Slot) {
    slot.execution.None? || (slot.execution.value.ManualFile? && Versioned(slot.execution.value))
  }

  function ManualOf(slot: Slot): Option<M.Execution>
    requires IsManualSlot(slot)
  {
    if slot.execution.None? then None else Some(slot.execution.value.manual)
  }

  /** One call on a slot that is empty or holds a manual: the machine takes its own, and the others leave it or fill it for good. */
  lemma ManualStepInSlot(caseId: string, slot: Slot, c: Call)
    requires IsManualSlot(slot)
    ensures var slot' := Made(caseId, slot, c);
            if c.event.ManualCall? && Addresses(c.event, caseId) then
              IsManualSlot(slot') && ManualOf(slot')
              == After(ManualOf(slot), M.Deliver(ManualOf(slot), caseId, ManualEnv(c.policy, c.base, slot), c.event.manual, c.at))
            else (IsManualSlot(slot') && ManualOf(slot') == ManualOf(slot))
                 || (slot'.execution.Some? && Versioned(slot'.execution.value) && !slot'.execution.value.ManualFile?)
  {
    StepStaysVersioned(c.policy, c.decoder, caseId, c.base, slot, c.event, c.at);
    if slot.execution.Some? {
      ForeignIsRefused(c.decoder, caseId, JoinEnv(c.policy, c.base, slot), DiscEnv(c.policy, c.base, slot),
                       ManualEnv(c.policy, c.base, slot), slot.execution.value, c.event, c.at);
    }
    hide J.Deliver, D.Deliver, M.Deliver, JoinEnv, DiscEnv, ManualEnv, Bindable, Versioned;
  }

  /** The manual record a run of the store leaves is the one the machine reaches on the run's manual calls. */
  lemma {:induction false} StoreManualIsMachineRun(caseId: string, slot: Slot, calls: seq<Call>)
    requires IsManualSlot(slot)
    ensures var last := Run(caseId, slot, calls).execution;
            last.Some? && last.value.ManualFile? ==>
              M.RunFile(ManualOf(slot), caseId, ManualCallsOf(caseId, slot, calls)) == Some(last.value.manual)
    decreases |calls|
  {
    if calls != [] {
      var c := calls[0];
      var slot', rest := Made(caseId, slot, c), calls[1..];
      ManualStepInSlot(caseId, slot, c);
      hide Made, M.Deliver, M.RunFile, ManualEnv, Versioned;
      if IsManualSlot(slot') {
        StoreManualIsMachineRun(caseId, slot', rest);
        if c.event.ManualCall? && Addresses(c.event, caseId) {
          ManualRunFirst(ManualOf(slot), caseId, M.Call(ManualEnv(c.policy, c.base, slot), c.event.manual, c.at),
                  ManualCallsOf(caseId, slot', rest));
        } else {
          assert [] + ManualCallsOf(caseId, slot', rest) == ManualCallsOf(caseId, slot', rest);
        }
      } else {
        PlanAndIdentityFreeze(caseId, slot', rest);
      }
    } else {
      assert M.RunFile(ManualOf(slot), caseId, []) == ManualOf(slot);
    }
  }

  // --------------------------------------------------------- preparation

  /** What a call is shown: the grants of the plan in force, none without one, and the stored case's own template. */
  lemma ShownToCalls(policy: Policy, base: Option<Planned>, slot: Slot)
    ensures var plan, template := InForce(policy, base, slot), if base.Some? then policy.template(base.value.assembly) else None;
            if plan.Some? then
              && JoinEnv(policy, base, slot) == J.Env(policy.join(plan.value), template)
              && DiscEnv(policy, base, slot) == D.Env(policy.bluray(plan.value), policy.dvd(plan.value), template)
              && ManualEnv(policy, base, slot) == policy.manual(plan.value)
            else
              && JoinEnv(policy, base, slot) == J.Env(None, template)
              && DiscEnv(policy, base, slot) == D.Env(None, None, template) && ManualEnv(policy, base, slot) == None
  {
  }

  /** What the plan in force authorises can be prepared in an empty slot, and is then on record. */
  lemma PlannedRepairIsPrepared(policy: Policy, decoder: Decoder, caseId: string, base: Option<Planned>, slot: Slot, at: Time)
    requires slot.execution.None? && InForce(policy, base, slot).Some? && at != ZERO_TIME
    ensures var plan := InForce(policy, base, slot).value;
            && (policy.join(plan).Some? && J.Shape(policy.join(plan).value) && policy.join(plan).value.caseId == caseId ==>
                  var auth := policy.join(plan).value;
                  Step(policy, decoder, caseId, base, slot, JoinCall(J.Prepare(auth)), at).execution
                  == Some(JoinFile(J.Execution(JoinV2, JoinId(auth), auth, J.Prepared, at, at, None, None, None, None, None, None))))
            && (policy.bluray(plan).Some? && D.RemuxShape(policy.bluray(plan).value) && policy.bluray(plan).value.caseId == caseId ==>
                  var auth := policy.bluray(plan).value;
                  Step(policy, decoder, caseId, base, slot, DiscCall(D.PrepareBluray(auth)), at).execution
                  == Some(DiscFile(D.FreshBluray(auth, at))))
            && (policy.dvd(plan).Some? && D.DvdShape(policy.dvd(plan).value) && policy.dvd(plan).value.caseId == caseId ==>
                  var auth := policy.dvd(plan).value;
                  Step(policy, decoder, caseId, base, slot, DiscCall(D.PrepareDvd(auth)), at).execution
                  == Some(DiscFile(D.FreshDvd(auth, at))))
  {
    hide J.UpdateCall, D.UpdateCall, M.Deliver, D.SumSizes, D.SoundFiles;
  }

  lemma PlannedManualImportIsPrepared(policy: Policy, decoder: Decoder, caseId: string, base: Option<Planned>, slot: Slot,
                                      historyBefore: int, at: Time)
    requires slot.execution.None? && InForce(policy, base, slot).Some? && at != ZERO_TIME && historyBefore >= 0
    ensures var plan := InForce(policy, base, slot).value;
            policy.manual(plan).Some? ==>
              var auth := policy.manual(plan).value;
              M.WellFormed(M.Prepare(auth, historyBefore)) && auth.caseId == caseId && Sha256Id(caseId) ==>
                Step(policy, decoder, caseId, base, slot, ManualCall(M.Prepare(auth, historyBefore)), at).execution
                == Some(ManualFile(M.Execution(ManualV1, caseId, auth.capabilityId, auth.fileId, auth.fingerprint, M.Prepared,
                                               historyBefore, at, at, None, None)))
  {
    hide J.Deliver, D.Deliver;
  }
}
