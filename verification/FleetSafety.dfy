/** Safety of fleet deployments in every interleaving. */
module FleetSafety {
  import opened Common
  import opened FleetProtocol

  /** The process taking the step; outside activity has none. */
  function Actor(a: Action): Option<Pid> {
    match a
    case AddPath(_) | Collect(_) => None
    case _ => Some(a.pid)
  }

  ghost predicate SameRoot(w: World, w': World, r: Root) {
    (r in w'.roots <==> r in w.roots) && (r in w.roots ==> w'.roots[r] == w.roots[r])
  }

  predicate TouchesRoots(a: Action) { a.RemoveRoot? || a.ImportSource? || a.Retain? || a.BuildHelper? }

  lemma OtherStepsKeepRoots(w: World, a: Action, r: Root)
    requires Enabled(w, a) && !TouchesRoots(a)
    ensures SameRoot(w, Apply(w, a), r)
  {
  }

  lemma RootedInScope(w: World, a: Action, r: Root)
    requires Enabled(w, a) && TouchesRoots(a) && ProcInv(w, a.pid)
    ensures !SameRoot(w, Apply(w, a), r) ==> r.host in InScope(w.procs[a.pid])
  {
    match a
    case Retain(pid) => assert w.procs[pid].phase.rest[0] in w.procs[pid].selected;
    case _ =>
  }

  /** The host a step changes a root of is one the acting process has in scope. */
  lemma RootsChangedInScope(w: World, a: Action, r: Root)
    requires Inv(w) && Enabled(w, a)
    ensures !SameRoot(w, Apply(w, a), r) ==> Actor(a).Some? && a.pid in w.procs && r.host in InScope(w.procs[a.pid])
  {
    if TouchesRoots(a) {
      assert ProcInv(w, a.pid);
      RootedInScope(w, a, r);
    } else {
      OtherStepsKeepRoots(w, a, r);
    }
    hide Apply, Inv, ProcInv, InScope;
  }

  /**
   A root link is created, replaced or removed only while the acting process,
   and no other, holds its host's lock. No step that touches links looks at a lock.
   */
  lemma RootsChangedByOwner(w: World, a: Action, r: Root)
    requires Inv(w) && Enabled(w, a)
    ensures !SameRoot(w, Apply(w, a), r) ==>
              && Actor(a).Some? && r.host in w.locked && Holds(w, a.pid, r.host)
              && forall q :: Holds(w, q, r.host) ==> q == a.pid
  {
    RootsChangedInScope(w, a, r);
    if !SameRoot(w, Apply(w, a), r) {
      assert ProcInv(w, a.pid);
      assert Holds(w, a.pid, r.host);
    }
    hide Apply, Enabled;
  }

  // --------------------------------------------------------------- locks

  /** How one step can change the lock files of its process and the kernel's view of them. */
  datatype LockStep = Kept | Taken(host: Host) | Closed(host: Host) | Started | Gone

  ghost predicate Changes(w: World, w': World, pid: Pid, step: LockStep) {
    && (forall q :: q != pid ==> (q in w.procs <==> q in w'.procs) && (q in w.procs ==> w'.procs[q] == w.procs[q]))
    && match step
       case Kept =>
         w'.locked == w.locked && pid in w.procs && pid in w'.procs && w'.procs[pid].held == w.procs[pid].held
       case Taken(h) =>
         && h !in w.locked && w'.locked == w.locked + {h}
         && pid in w.procs && pid in w'.procs && w'.procs[pid].held == w.procs[pid].held + {h}
       case Closed(h) =>
         && w'.locked == w.locked - {h}
         && pid in w.procs && pid in w'.procs && h in w.procs[pid].held && w'.procs[pid].held == w.procs[pid].held - {h}
       case Started => w'.locked == w.locked && pid !in w.procs && pid in w'.procs && w'.procs[pid].held == {}
       case Gone => pid in w.procs && pid !in w'.procs && w'.locked == w.locked - w.procs[pid].held
  }

  lemma TakingStep(w: World, a: Action) returns (step: LockStep)
    requires Inv(w) && Enabled(w, a) && (a.TryLock? || a.SweepVisit? || a.Start?)
    ensures Changes(w, Apply(w, a), a.pid, step)
  {
    hide Inv, ProcInv;
    step := Kept;
    match a
    case Start(_, _, _) => step := Started;
    case TryLock(pid) =>
      var host := w.procs[pid].phase.todo[0];
      if host !in w.locked { step := Taken(host); }
    case SweepVisit(pid) =>
      var host := w.procs[pid].phase.entries[0];
      if host !in w.procs[pid].selected && host !in w.locked { step := Taken(host); }
    case _ =>
  }

  lemma ClosingStep(w: World, a: Action) returns (step: LockStep)
    requires Inv(w) && Enabled(w, a) && (a.Emptied? || a.Unlock?)
    ensures Changes(w, Apply(w, a), a.pid, step)
  {
    assert w.procs[a.pid].held == InScope(w.procs[a.pid]) by { assert ProcInv(w, a.pid); }
    hide Inv, ProcInv;
    if a.Unlock? {
      step := Closed(a.host);
    } else {
      step := if w.procs[a.pid].phase.SweepEmptying? then Closed(w.procs[a.pid].phase.host) else Kept;
    }
  }

  lemma LeavingStep(w: World, a: Action)
    requires Inv(w) && Enabled(w, a) && (a.Exit? || a.Die?)
    ensures Changes(w, Apply(w, a), a.pid, Gone)
  {
    assert w.procs[a.pid].held == InScope(w.procs[a.pid]) by { assert ProcInv(w, a.pid); }
    hide Inv, ProcInv;
  }

  lemma KeepingStep(w: World, a: Action)
    requires Enabled(w, a)
    requires a.RemoveRoot? || a.BeginSweep? || a.EndSweep? || a.ImportSource? || a.Retain? || a.StageReturns?
             || a.BuildHelper? || a.GiveUp?
    ensures Changes(w, Apply(w, a), a.pid, Kept)
  {
  }

  lemma StepOnLocks(w: World, a: Action) returns (step: LockStep)
    requires Inv(w) && Enabled(w, a) && Actor(a).Some?
    ensures Changes(w, Apply(w, a), a.pid, step)
  {
    hide Inv, Changes, Apply, Enabled;
    if a.TryLock? || a.SweepVisit? || a.Start? {
      step := TakingStep(w, a);
    } else if a.Emptied? || a.Unlock? {
      step := ClosingStep(w, a);
    } else if a.Exit? || a.Die? {
      step := Gone;
      LeavingStep(w, a);
    } else {
      step := Kept;
      KeepingStep(w, a);
    }
  }

  lemma HeldAfter(w: World, w': World, pid: Pid, step: LockStep, q: Pid, h: Host)
    requires Changes(w, w', pid, step)
    ensures q != pid ==> (Holds(w', q, h) <==> Holds(w, q, h))
    ensures step.Kept? ==> (Holds(w', pid, h) <==> Holds(w, pid, h))
    ensures step.Taken? ==> (Holds(w', pid, h) <==> Holds(w, pid, h) || h == step.host)
    ensures step.Closed? ==> (Holds(w', pid, h) <==> Holds(w, pid, h) && h != step.host)
    ensures step.Started? || step.Gone? ==> !Holds(w', pid, h)
    ensures step.Started? ==> !Holds(w, pid, h)
  {
  }

  /** Taking only what the kernel says is free, and releasing only what one holds, keeps every lock with one live holder. */
  lemma LocksStayExclusive(w: World, w': World, pid: Pid, step: LockStep)
    requires Exclusive(w) && Accounted(w) && Changes(w, w', pid, step)
    ensures Exclusive(w')
  {
    forall p, q, h | Holds(w', p, h) && Holds(w', q, h) ensures p == q {
      HeldAfter(w, w', pid, step, p, h);
      HeldAfter(w, w', pid, step, q, h);
      if step.Taken? && h == step.host { assert forall r :: !Holds(w, r, h); }
    }
  }

  lemma LocksStayAccounted(w: World, w': World, pid: Pid, step: LockStep)
    requires Exclusive(w) && Accounted(w) && Changes(w, w', pid, step)
    ensures Accounted(w')
  {
    forall h ensures h in w'.locked <==> exists p :: Holds(w', p, h) {
      forall q { HeldAfter(w, w', pid, step, q, h); }
      if h in w'.locked {
        if h in w.locked {
          var p :| Holds(w, p, h);
          assert Holds(w', p, h);
        } else {
          assert Holds(w', pid, h);
        }
      }
      if p :| Holds(w', p, h) {
        assert Holds(w, p, h) || (step.Taken? && h == step.host);
        if !step.Kept? && p != pid { assert !Holds(w, pid, h); }
      }
    }
  }

  /** A step changes a lock only between nobody and the acting process. */
  lemma LocksChangedByActor(w: World, a: Action, h: Host)
    requires Inv(w) && Enabled(w, a)
    ensures var w' := Apply(w, a);
            && (h in w.locked && h !in w'.locked ==> Actor(a).Some? && Holds(w, a.pid, h))
            && (h !in w.locked && h in w'.locked ==> Actor(a).Some? && Holds(w', a.pid, h))
            && forall q: Pid :: Actor(a) != Some(q) ==> (Holds(w', q, h) <==> Holds(w, q, h))
  {
    if Actor(a).Some? {
      var step := StepOnLocks(w, a);
      forall q { HeldAfter(w, Apply(w, a), a.pid, step, q, h); }
      hide Apply, Enabled, Inv;
    }
  }

  /** Every process other than the actor keeps its phase, its locks and the roots of its hosts. */
  lemma OthersUndisturbed(w: World, a: Action, pid: Pid)
    requires Inv(w) && Enabled(w, a) && pid in w.procs && Actor(a) != Some(pid)
    ensures var w' := Apply(w, a);
            && pid in w'.procs && w'.procs[pid] == w.procs[pid]
            && forall r: Root :: r.host in w.procs[pid].held ==> SameRoot(w, w', r)
  {
    var w' := Apply(w, a);
    if Actor(a).Some? {
      var step := StepOnLocks(w, a);
    } else {
      assert w'.procs == w.procs;
    }
    hide Apply, Inv, Enabled;
    forall r: Root | r.host in w.procs[pid].held ensures SameRoot(w, w', r) {
      RootsChangedByOwner(w, a, r);
      assert Holds(w, pid, r.host);
    }
  }

  lemma FrameInv(w: World, w': World, pid: Pid)
    requires pid in w.procs && ProcInv(w, pid)
    requires pid in w'.procs && w'.procs[pid] == w.procs[pid]
    requires forall r: Root :: r.host in w.procs[pid].held ==> SameRoot(w, w', r)
    ensures ProcInv(w', pid)
  {
    assert forall h <- w.procs[pid].held :: NoRoots(w, h) ==> NoRoots(w', h);
  }

  // ------------------------------------------------------ the process itself

  lemma HeadTail(s: seq<Host>)
    requires s != [] && Distinct(s)
    ensures Distinct(s[1..]) && s[0] !in s[1..] && s[0] in s && Hosts(s[1..]) == Hosts(s) - {s[0]}
  {
  }

  lemma LockingInv(w: World, a: Action)
    requires Inv(w) && Enabled(w, a) && (a.Start? || a.TryLock? || a.BeginSweep?)
    ensures ProcInv(Apply(w, a), a.pid)
  {
    hide Exclusive, Accounted;
    if a.TryLock? {
      assert ProcInv(w, a.pid);
      HeadTail(w.procs[a.pid].phase.todo);
    } else if a.BeginSweep? {
      assert ProcInv(w, a.pid);
      assert forall h <- w.procs[a.pid].selected :: h in w.procs[a.pid].held;
    }
  }

  lemma EmptyingInv(w: World, a: Action)
    requires Inv(w) && Enabled(w, a) && (a.RemoveRoot? || a.Emptied?)
    ensures ProcInv(Apply(w, a), a.pid)
  {
    hide Exclusive, Accounted;
    assert ProcInv(w, a.pid);
    assert forall h :: NoRoots(w, h) ==> NoRoots(Apply(w, a), h);
  }

  lemma SweepInv(w: World, a: Action)
    requires Inv(w) && Enabled(w, a) && (a.SweepVisit? || a.EndSweep?)
    ensures ProcInv(Apply(w, a), a.pid)
  {
    hide Exclusive, Accounted;
    assert ProcInv(w, a.pid);
  }

  lemma ImportInv(w: World, a: Action)
    requires Inv(w) && Enabled(w, a) && a.ImportSource?
    ensures ProcInv(Apply(w, a), a.pid)
  {
    var selected := w.procs[a.pid].selected;
    assert ProcInv(w, a.pid);
    hide Inv;
    assert selected[..|selected| - |selected[1..]|] == [selected[0]];
  }

  lemma RetainInv(w: World, a: Action)
    requires Inv(w) && Enabled(w, a) && a.Retain?
    ensures ProcInv(Apply(w, a), a.pid)
  {
    var selected, rest := w.procs[a.pid].selected, w.procs[a.pid].phase.rest;
    assert ProcInv(w, a.pid);
    hide Inv;
    var k := |selected| - |rest|;
    assert selected[..k + 1] == selected[..k] + [selected[k]];
    assert rest[0] == selected[k] && rest[1..] == selected[k + 1..];
  }

  lemma StagedInv(w: World, a: Action)
    requires Inv(w) && Enabled(w, a) && (a.StageReturns? || a.BuildHelper?)
    ensures ProcInv(Apply(w, a), a.pid)
  {
    var selected := w.procs[a.pid].selected;
    assert ProcInv(w, a.pid);
    hide Inv;
    assert selected[..|selected|] == selected;
  }

  lemma ReleasingInv(w: World, a: Action)
    requires Inv(w) && Enabled(w, a) && (a.GiveUp? || a.Unlock?)
    ensures ProcInv(Apply(w, a), a.pid)
  {
    assert ProcInv(w, a.pid);
    hide Inv;
  }

  lemma ActorInv(w: World, a: Action)
    requires Inv(w) && Enabled(w, a) && Actor(a).Some? && a.pid in Apply(w, a).procs
    ensures ProcInv(Apply(w, a), a.pid)
  {
    hide ProcInv, Inv;
    match a
    case Start(_, _, _) => LockingInv(w, a);
    case TryLock(_) => LockingInv(w, a);
    case BeginSweep(_, _) => LockingInv(w, a);
    case RemoveRoot(_, _) => EmptyingInv(w, a);
    case Emptied(_) => EmptyingInv(w, a);
    case SweepVisit(_) => SweepInv(w, a);
    case EndSweep(_) => SweepInv(w, a);
    case ImportSource(_, _) => ImportInv(w, a);
    case Retain(_) => RetainInv(w, a);
    case StageReturns(_) => StagedInv(w, a);
    case BuildHelper(_, _, _, _) => StagedInv(w, a);
    case GiveUp(_) => ReleasingInv(w, a);
    case Unlock(_, _) => ReleasingInv(w, a);
    case _ =>
  }

  /** The locks stay with one live holder each and rooted paths stay in the store. */
  lemma GlobalInv(w: World, a: Action)
    requires Inv(w) && Enabled(w, a)
    ensures var w' := Apply(w, a);
            Exclusive(w') && Accounted(w') && forall r <- w'.roots :: w'.roots[r] in w'.store
  {
    hide ProcInv;
    var w' := Apply(w, a);
    if Actor(a).Some? {
      var step := StepOnLocks(w, a);
      LocksStayExclusive(w, w', a.pid, step);
      LocksStayAccounted(w, w', a.pid, step);
    } else {
      assert forall p, h :: Holds(w', p, h) <==> Holds(w, p, h);
    }
    hide Exclusive, Accounted;
  }

  lemma StepKeepsInv(w: World, a: Action)
    requires Inv(w) && Enabled(w, a)
    ensures Inv(Apply(w, a))
  {
    var w' := Apply(w, a);
    GlobalInv(w, a);
    forall pid <- w'.procs ensures ProcInv(w', pid) {
      if Actor(a) == Some(pid) {
        ActorInv(w, a);
      } else {
        NoNewcomers(w, a, pid);
        OthersUndisturbed(w, a, pid);
        FrameInv(w, w', pid);
      }
    }
    hide Apply, ProcInv, Enabled, Exclusive, Accounted;
  }

  lemma NoNewcomers(w: World, a: Action, pid: Pid)
    requires Enabled(w, a) && pid in Apply(w, a).procs && Actor(a) != Some(pid)
    ensures pid in w.procs
  {
  }

  // ---------------------------------------------------------------- runs

  /** `trace` is a run: every action is enabled where it happens. */
  ghost predicate IsRun(trace: seq<World>, actions: seq<Action>) {
    && |trace| == |actions| + 1
    && forall i :: 0 <= i < |actions| ==> Enabled(trace[i], actions[i]) && trace[i + 1] == Apply(trace[i], actions[i])
  }

  lemma {:induction false} RunsKeepInv(trace: seq<World>, actions: seq<Action>, k: nat)
    requires IsRun(trace, actions) && Init(trace[0]) && k < |trace|
    ensures Inv(trace[k])
  {
    hide Apply, Enabled, ProcInv;
    if k > 0 {
      RunsKeepInv(trace, actions, k - 1);
      StepKeepsInv(trace[k - 1], actions[k - 1]);
    }
  }

  /**
   In every interleaving of any number of deployments, sweeps, collections,
   failures and deaths: from the return of stage_source until its deployment
   lock is dropped, a process holds exactly its selected hosts, each of them
   roots the staged source, and the source is in the store.
   */
  lemma StagedSourceSurvives(trace: seq<World>, actions: seq<Action>, k: nat, pid: Pid)
    requires IsRun(trace, actions) && Init(trace[0]) && k < |trace|
    requires pid in trace[k].procs && trace[k].procs[pid].phase.Staged?
    ensures var w := trace[k];
            var path := w.procs[pid].phase.path;
            && path in w.store && w.procs[pid].held == Hosts(w.procs[pid].selected)
            && Rooted(w, w.procs[pid].selected, path)
    ensures forall garbage :: Enabled(trace[k], Collect(garbage)) ==> trace[k].procs[pid].phase.path !in garbage
  {
    RunsKeepInv(trace, actions, k);
    var w := trace[k];
    assert ProcInv(w, pid);
    var selected := w.procs[pid].selected;
    assert Root(selected[0], SOURCE) in w.roots;
  }

  /** The staged path never changes: the same process stays staged with the same source until it gives up or dies. */
  lemma StagedUntilReleased(w: World, a: Action, pid: Pid)
    requires Inv(w) && Enabled(w, a) && pid in w.procs && w.procs[pid].phase.Staged?
    requires a != GiveUp(pid) && a != Die(pid)
    ensures pid in Apply(w, a).procs && Apply(w, a).procs[pid] == w.procs[pid]
  {
    if Actor(a) != Some(pid) { OthersUndisturbed(w, a, pid); }
  }

  /**
   In every interleaving, although the kernel records no holder and each process
   consults only the kernel: no two processes hold the same host, the locked files
   are exactly those that live processes hold, and each process holds the lock
   values in scope where it is.
   */
  lemma LocksAreExclusive(trace: seq<World>, actions: seq<Action>, k: nat)
    requires IsRun(trace, actions) && Init(trace[0]) && k < |trace|
    ensures var w := trace[k];
            && (forall p, q | p in w.procs && q in w.procs && p != q :: w.procs[p].held !! w.procs[q].held)
            && w.locked == (set p, h | p in w.procs && h in w.procs[p].held :: h)
            && (forall p <- w.procs :: w.procs[p].held == InScope(w.procs[p]))
  {
    RunsKeepInv(trace, actions, k);
    var w := trace[k];
    forall p, q | p in w.procs && q in w.procs && p != q ensures w.procs[p].held !! w.procs[q].held {
      forall h | h in w.procs[p].held ensures h !in w.procs[q].held {
        assert Holds(w, p, h) && (Holds(w, q, h) <==> h in w.procs[q].held);
      }
    }
    forall h ensures h in w.locked <==> exists p :: p in w.procs && h in w.procs[p].held {
      assert forall p :: Holds(w, p, h) <==> p in w.procs && h in w.procs[p].held;
    }
    forall p <- w.procs ensures w.procs[p].held == InScope(w.procs[p]) { assert ProcInv(w, p); }
  }

  /** Over a whole run: a staged process stays staged with the same source through every step until it gives up or dies. */
  lemma {:induction false} StagedThroughout(trace: seq<World>, actions: seq<Action>, k: nat, m: nat, pid: Pid)
    requires IsRun(trace, actions) && Init(trace[0]) && k <= m < |trace|
    requires pid in trace[k].procs && trace[k].procs[pid].phase.Staged?
    requires forall i :: k <= i < m ==> actions[i] != GiveUp(pid) && actions[i] != Die(pid)
    ensures pid in trace[m].procs && trace[m].procs[pid] == trace[k].procs[pid]
    ensures trace[k].procs[pid].phase.path in trace[m].store
  {
    hide Apply, Enabled, ProcInv, Inv;
    if k < m {
      StagedThroughout(trace, actions, k, m - 1, pid);
      RunsKeepInv(trace, actions, m - 1);
      StagedUntilReleased(trace[m - 1], actions[m - 1], pid);
    }
    StagedSourceSurvives(trace, actions, m, pid);
  }

  /** lock() returns holding exactly the distinct requested hosts, with no root left over in any of them. */
  lemma LockReturnsExactly(trace: seq<World>, actions: seq<Action>, k: nat, pid: Pid)
    requires IsRun(trace, actions) && Init(trace[0]) && k < |trace|
    requires pid in trace[k].procs && trace[k].procs[pid].phase.Ready?
    ensures trace[k].procs[pid].held == Hosts(trace[k].procs[pid].selected)
    ensures forall h <- trace[k].procs[pid].selected :: NoRoots(trace[k], h)
  {
    RunsKeepInv(trace, actions, k);
    assert ProcInv(trace[k], pid);
  }

  /** A process that gave up, because a host was busy or anything else failed, has nothing locked when it leaves. */
  lemma LeavesHoldingNothing(trace: seq<World>, actions: seq<Action>, k: nat, pid: Pid)
    requires IsRun(trace, actions) && Init(trace[0]) && k < |trace| && Enabled(trace[k], Exit(pid))
    ensures trace[k].procs[pid].held == {}
  {
    RunsKeepInv(trace, actions, k);
    assert ProcInv(trace[k], pid);
  }

  /** A host the sweep passes by was requested by the process itself or held by another live one at that moment. */
  lemma SweepSkipsOnlyBusyHosts(w: World, pid: Pid)
    requires Inv(w) && Enabled(w, SweepVisit(pid))
    requires var host := w.procs[pid].phase.entries[0];
             host !in w.procs[pid].selected && Apply(w, SweepVisit(pid)).procs[pid].phase.Sweeping?
    ensures var host := w.procs[pid].phase.entries[0];
            host in w.locked && exists q :: q != pid && Holds(w, q, host)
  {
    assert ProcInv(w, pid);
    var host := w.procs[pid].phase.entries[0];
    assert !Holds(w, pid, host);
  }

  /** Over a whole run: every host a sweep visits was requested, is held by another live process, or is now being emptied. */
  lemma SweepsSkipOnlyBusyHosts(trace: seq<World>, actions: seq<Action>, k: nat, pid: Pid)
    requires IsRun(trace, actions) && Init(trace[0]) && k < |actions| && actions[k] == SweepVisit(pid)
    ensures var w, host := trace[k], trace[k].procs[pid].phase.entries[0];
            || host in w.procs[pid].selected
            || (exists q :: q != pid && Holds(w, q, host))
            || trace[k + 1].procs[pid].phase == SweepEmptying(host, w.procs[pid].phase.entries[1..])
  {
    RunsKeepInv(trace, actions, k);
    var w, host := trace[k], trace[k].procs[pid].phase.entries[0];
    if host !in w.procs[pid].selected && trace[k + 1].procs[pid].phase.Sweeping? { SweepSkipsOnlyBusyHosts(w, pid); }
  }

  /** The sweep's own short-lived lock: a failed try-lock does not mean that a deployment is running. */
  lemma BusyNeedNotBeADeployment(w: World, sweeper: Pid, other: Pid, host: Host)
    requires Inv(w) && Enabled(w, TryLock(other)) && w.procs[other].phase.todo[0] == host
    requires sweeper in w.procs && w.procs[sweeper].phase.SweepEmptying? && w.procs[sweeper].phase.host == host
    ensures Apply(w, TryLock(other)).procs[other].phase.Releasing? && host !in w.procs[sweeper].selected
  {
    assert ProcInv(w, sweeper);
    assert Holds(w, sweeper, host);
  }
}
