/**
 What a deployment can do: from every state in which its hosts are free it can
 lock them, stage its source and leave again, and it gives up only on busy hosts.
 */
module FleetProgress {
  import opened Common
  import opened FleetProtocol
  import opened FleetSafety

  predicate Possible(w: World, actions: seq<Action>)
    decreases |actions|
  {
    actions == [] || (Enabled(w, actions[0]) && Possible(Apply(w, actions[0]), actions[1..]))
  }

  function End(w: World, actions: seq<Action>): World
    requires Possible(w, actions)
    decreases |actions|
  {
    if actions == [] then w else End(Apply(w, actions[0]), actions[1..])
  }

  /** Nobody but this process acts. */
  predicate Alone(actions: seq<Action>, pid: Pid) { forall a <- actions :: Actor(a) == Some(pid) }

  /** The process can get from here to there by itself. */
  ghost predicate Gets(w: World, pid: Pid, actions: seq<Action>, w': World) {
    Possible(w, actions) && Alone(actions, pid) && End(w, actions) == w'
  }

  lemma {:induction false} Then(w: World, pid: Pid, a: seq<Action>, v: World, b: seq<Action>, u: World)
    requires Gets(w, pid, a, v) && Gets(v, pid, b, u)
    ensures Gets(w, pid, a + b, u)
    decreases |a|
  {
    hide Apply, Enabled;
    if a == [] {
      assert a + b == b;
    } else {
      assert (a + b)[0] == a[0] && (a + b)[1..] == a[1..] + b;
      assert a[0] in a && forall x <- a[1..] :: x in a;
      Then(Apply(w, a[0]), pid, a[1..], v, b, u);
      assert forall x <- a + b :: x == a[0] || x in a[1..] + b;
    }
  }

  lemma One(w: World, pid: Pid, a: Action)
    requires Enabled(w, a) && Actor(a) == Some(pid)
    ensures Gets(w, pid, [a], Apply(w, a))
  {
    hide Apply, Enabled;
    assert [a][1..] == [] && Possible(Apply(w, a), []) && End(Apply(w, a), []) == Apply(w, a);
  }

  lemma {:induction false} GetsKeepsInv(w: World, pid: Pid, actions: seq<Action>, w': World)
    requires Inv(w) && Gets(w, pid, actions, w')
    ensures Inv(w')
    decreases |actions|
  {
    hide Apply, Enabled, Inv;
    if actions != [] {
      StepKeepsInv(w, actions[0]);
      assert forall x <- actions[1..] :: x in actions;
      GetsKeepsInv(Apply(w, actions[0]), pid, actions[1..], w');
    }
  }

  // ------------------------------------------------------------- clearing

  function LinksOf(w: World, host: Host): set<Root> { set r | r in w.roots && r.host == host }

  function Cleared(w: World, host: Host): World { w.(roots := w.roots - LinksOf(w, host)) }

  /** Where it clears a host, it can remove all of its links and no other. */
  lemma {:induction false} CanClear(w: World, pid: Pid, host: Host) returns (actions: seq<Action>)
    requires Clearing(w, pid, host)
    ensures Gets(w, pid, actions, Cleared(w, host)) && NoRoots(Cleared(w, host), host)
    decreases |LinksOf(w, host)|
  {
    if LinksOf(w, host) == {} {
      actions := [];
      assert Cleared(w, host) == w;
    } else {
      var r :| r in LinksOf(w, host);
      var next := Apply(w, RemoveRoot(pid, r));
      assert LinksOf(next, host) == LinksOf(w, host) - {r};
      var rest := CanClear(next, pid, host);
      assert Cleared(next, host).roots == Cleared(w, host).roots;
      One(w, pid, RemoveRoot(pid, r));
      Then(w, pid, [RemoveRoot(pid, r)], next, rest, Cleared(w, host));
      actions := [RemoveRoot(pid, r)] + rest;
    }
  }

  // -------------------------------------------------------------- locking

  /** A free host is taken and emptied. */
  lemma CanTake(w: World, pid: Pid) returns (actions: seq<Action>, v: World)
    requires pid in w.procs && w.procs[pid].phase.Acquiring? && w.procs[pid].phase.todo != []
    requires w.procs[pid].phase.todo[0] !in w.locked
    ensures Gets(w, pid, actions, v)
    ensures var p, host := w.procs[pid], w.procs[pid].phase.todo[0];
            && v.locked == w.locked + {host}
            && v.procs == w.procs[pid := Proc(p.selected, Acquiring(p.phase.todo[1..]), p.held + {host})]
  {
    var host := w.procs[pid].phase.todo[0];
    var taken := Apply(w, TryLock(pid));
    One(w, pid, TryLock(pid));
    var clearing := CanClear(taken, pid, host);
    var cleared := Cleared(taken, host);
    v := Apply(cleared, Emptied(pid));
    One(cleared, pid, Emptied(pid));
    Then(w, pid, [TryLock(pid)], taken, clearing, cleared);
    Then(w, pid, [TryLock(pid)] + clearing, cleared, [Emptied(pid)], v);
    actions := [TryLock(pid)] + clearing + [Emptied(pid)];
  }

  lemma {:induction false} CanAcquire(w: World, pid: Pid) returns (actions: seq<Action>, v: World)
    requires pid in w.procs && w.procs[pid].phase.Acquiring?
    requires Distinct(w.procs[pid].phase.todo) && forall h <- w.procs[pid].phase.todo :: h !in w.locked
    ensures Gets(w, pid, actions, v)
    ensures pid in v.procs && v.procs[pid].selected == w.procs[pid].selected && v.procs[pid].phase == Acquiring([])
    decreases |w.procs[pid].phase.todo|
  {
    var todo := w.procs[pid].phase.todo;
    if todo == [] {
      actions, v := [], w;
    } else {
      var first, next := CanTake(w, pid);
      HeadTail(todo);
      var rest;
      rest, v := CanAcquire(next, pid);
      Then(w, pid, first, next, rest, v);
      actions := first + rest;
    }
  }

  /** A visited entry is passed by or emptied and let go. */
  lemma CanVisit(w: World, pid: Pid) returns (actions: seq<Action>, v: World)
    requires pid in w.procs && w.procs[pid].phase.Sweeping? && w.procs[pid].phase.entries != []
    ensures Gets(w, pid, actions, v)
    ensures pid in v.procs && v.procs[pid].selected == w.procs[pid].selected
    ensures v.procs[pid].phase == Sweeping(w.procs[pid].phase.entries[1..])
  {
    var next := Apply(w, SweepVisit(pid));
    One(w, pid, SweepVisit(pid));
    if next.procs[pid].phase.Sweeping? {
      actions, v := [SweepVisit(pid)], next;
    } else {
      var host := next.procs[pid].phase.host;
      var clearing := CanClear(next, pid, host);
      var cleared := Cleared(next, host);
      v := Apply(cleared, Emptied(pid));
      One(cleared, pid, Emptied(pid));
      Then(w, pid, [SweepVisit(pid)], next, clearing, cleared);
      Then(w, pid, [SweepVisit(pid)] + clearing, cleared, [Emptied(pid)], v);
      actions := [SweepVisit(pid)] + clearing + [Emptied(pid)];
    }
  }

  lemma {:induction false} CanSweep(w: World, pid: Pid) returns (actions: seq<Action>, v: World)
    requires pid in w.procs && w.procs[pid].phase.Sweeping?
    ensures Gets(w, pid, actions, v)
    ensures pid in v.procs && v.procs[pid].selected == w.procs[pid].selected && v.procs[pid].phase == Sweeping([])
    decreases |w.procs[pid].phase.entries|
  {
    if w.procs[pid].phase.entries == [] {
      actions, v := [], w;
    } else {
      var first, next := CanVisit(w, pid);
      var rest;
      rest, v := CanSweep(next, pid);
      Then(w, pid, first, next, rest, v);
      actions := first + rest;
    }
  }

  /** lock() returns when the requested hosts are free, whatever entries its sweep finds. */
  lemma CanLock(w: World, pid: Pid, selected: seq<Host>, order: seq<Host>, entries: seq<Host>)
    returns (actions: seq<Action>, v: World)
    requires Enabled(w, Start(pid, selected, order)) && forall h <- selected :: h !in w.locked
    ensures Gets(w, pid, actions, v)
    ensures pid in v.procs && v.procs[pid].selected == selected && v.procs[pid].phase == Ready
  {
    var started := Apply(w, Start(pid, selected, order));
    One(w, pid, Start(pid, selected, order));
    forall h <- order ensures h in selected {
      assert h in Hosts(order);
      assert h in Hosts(selected);
    }
    var taking, held := CanAcquire(started, pid);
    var sweeping := Apply(held, BeginSweep(pid, entries));
    One(held, pid, BeginSweep(pid, entries));
    var visiting, swept := CanSweep(sweeping, pid);
    v := Apply(swept, EndSweep(pid));
    One(swept, pid, EndSweep(pid));
    hide Apply, Enabled, Gets;
    Then(w, pid, [Start(pid, selected, order)], started, taking, held);
    Then(w, pid, [Start(pid, selected, order)] + taking, held, [BeginSweep(pid, entries)], sweeping);
    Then(w, pid, [Start(pid, selected, order)] + taking + [BeginSweep(pid, entries)], sweeping, visiting, swept);
    Then(w, pid, [Start(pid, selected, order)] + taking + [BeginSweep(pid, entries)] + visiting, swept, [EndSweep(pid)], v);
    actions := [Start(pid, selected, order)] + taking + [BeginSweep(pid, entries)] + visiting + [EndSweep(pid)];
  }

  // -------------------------------------------------------------- staging

  lemma {:induction false} CanRetain(w: World, pid: Pid) returns (actions: seq<Action>, v: World)
    requires pid in w.procs && w.procs[pid].phase.Staging? && w.procs[pid].phase.path in w.store
    ensures Gets(w, pid, actions, v)
    ensures pid in v.procs && v.procs[pid].selected == w.procs[pid].selected
    ensures v.procs[pid].phase == Staging(w.procs[pid].phase.path, [])
    decreases |w.procs[pid].phase.rest|
  {
    if w.procs[pid].phase.rest == [] {
      actions, v := [], w;
    } else {
      var next := Apply(w, Retain(pid));
      One(w, pid, Retain(pid));
      var rest;
      rest, v := CanRetain(next, pid);
      Then(w, pid, [Retain(pid)], next, rest, v);
      actions := [Retain(pid)] + rest;
    }
  }

  lemma CanStage(w: World, pid: Pid, path: Path) returns (actions: seq<Action>, v: World)
    requires pid in w.procs && w.procs[pid].phase == Ready && w.procs[pid].selected != []
    ensures Gets(w, pid, actions, v)
    ensures pid in v.procs && v.procs[pid].selected == w.procs[pid].selected && v.procs[pid].phase == Staged(path)
  {
    var imported := Apply(w, ImportSource(pid, path));
    One(w, pid, ImportSource(pid, path));
    var retaining, retained := CanRetain(imported, pid);
    v := Apply(retained, StageReturns(pid));
    One(retained, pid, StageReturns(pid));
    hide Apply, Enabled, Gets;
    Then(w, pid, [ImportSource(pid, path)], imported, retaining, retained);
    Then(w, pid, [ImportSource(pid, path)] + retaining, retained, [StageReturns(pid)], v);
    actions := [ImportSource(pid, path)] + retaining + [StageReturns(pid)];
  }

  /**
   From every state a run can be in, a process whose requested hosts are free can
   by itself reach the end of stage_source: holding exactly the selected hosts,
   each of which roots the imported path.
   */
  lemma CanDeploy(w: World, pid: Pid, selected: seq<Host>, order: seq<Host>, entries: seq<Host>, path: Path)
    returns (actions: seq<Action>, v: World)
    requires Inv(w) && pid !in w.procs && selected != []
    requires Distinct(order) && Hosts(order) == Hosts(selected) && forall h <- selected :: h !in w.locked
    ensures Gets(w, pid, actions, v) && Inv(v)
    ensures pid in v.procs && v.procs[pid] == Proc(selected, Staged(path), Hosts(selected))
    ensures path in v.store && Rooted(v, selected, path)
  {
    var locking, ready := CanLock(w, pid, selected, order, entries);
    var staging;
    staging, v := CanStage(ready, pid, path);
    Then(w, pid, locking, ready, staging, v);
    actions := locking + staging;
    GetsKeepsInv(w, pid, actions, v);
    hide Gets;
    assert ProcInv(v, pid);
    assert Root(selected[0], SOURCE) in v.roots;
  }

  // -------------------------------------------------------------- leaving

  lemma CanDropOne(w: World, pid: Pid, host: Host) returns (actions: seq<Action>, v: World)
    requires pid in w.procs && w.procs[pid].phase.Releasing? && host in w.procs[pid].phase.hosts
    ensures Gets(w, pid, actions, v)
    ensures var p := w.procs[pid];
            && v.procs == w.procs[pid := Proc(p.selected, Releasing(p.phase.hosts - {host}), p.held - {host})]
            && v.locked == w.locked - {host} && v.roots == w.roots - LinksOf(w, host)
  {
    var clearing := CanClear(w, pid, host);
    var cleared := Cleared(w, host);
    v := Apply(cleared, Unlock(pid, host));
    One(cleared, pid, Unlock(pid, host));
    Then(w, pid, clearing, cleared, [Unlock(pid, host)], v);
    actions := clearing + [Unlock(pid, host)];
  }

  lemma {:induction false} CanDropAll(w: World, pid: Pid) returns (actions: seq<Action>, v: World)
    requires pid in w.procs && w.procs[pid].phase.Releasing?
    ensures Gets(w, pid, actions, v)
    ensures v.procs.Keys == w.procs.Keys && v.procs[pid].phase == Releasing({})
    ensures v.locked == w.locked - w.procs[pid].phase.hosts
    ensures forall r :: r in v.roots <==> r in w.roots && r.host !in w.procs[pid].phase.hosts
    ensures forall r <- v.roots :: v.roots[r] == w.roots[r]
    decreases |w.procs[pid].phase.hosts|
  {
    var hosts := w.procs[pid].phase.hosts;
    if hosts == {} {
      actions, v := [], w;
    } else {
      var host :| host in hosts;
      var first, next := CanDropOne(w, pid, host);
      var rest;
      rest, v := CanDropAll(next, pid);
      Then(w, pid, first, next, rest, v);
      actions := first + rest;
      hide Gets;
    }
  }

  /** From wherever it is, a process can leave with its hosts unlocked and without a root, and no other host touched. */
  lemma CanLeave(w: World, pid: Pid) returns (actions: seq<Action>, v: World)
    requires Inv(w) && pid in w.procs
    ensures Gets(w, pid, actions, v) && pid !in v.procs
    ensures v.locked == w.locked - w.procs[pid].held
    ensures forall r :: r in v.roots <==> r in w.roots && r.host !in w.procs[pid].held
    ensures forall r <- v.roots :: v.roots[r] == w.roots[r]
  {
    var releasing := Apply(w, GiveUp(pid));
    One(w, pid, GiveUp(pid));
    assert w.procs[pid].held == InScope(w.procs[pid]) by { assert ProcInv(w, pid); }
    var dropping, dropped := CanDropAll(releasing, pid);
    v := Apply(dropped, Exit(pid));
    One(dropped, pid, Exit(pid));
    Then(w, pid, [GiveUp(pid)], releasing, dropping, dropped);
    Then(w, pid, [GiveUp(pid)] + dropping, dropped, [Exit(pid)], v);
    actions := [GiveUp(pid)] + dropping + [Exit(pid)];
    hide Gets, Inv;
  }

  /** Once a deployment has left, its source can be collected unless a root elsewhere keeps it. */
  lemma LeftSourceIsCollectable(w: World, pid: Pid, path: Path) returns (actions: seq<Action>, v: World)
    requires Inv(w) && pid in w.procs
    requires forall r <- w.roots :: w.roots[r] == path ==> r.host in w.procs[pid].held
    ensures Gets(w, pid, actions, v) && pid !in v.procs
    ensures Enabled(v, Collect({path})) && path !in Apply(v, Collect({path})).store
    ensures Apply(v, Collect({path})).store == v.store - {path} && Apply(v, Collect({path})).roots == v.roots
  {
    actions, v := CanLeave(w, pid);
    hide Gets, Inv;
  }

  // ---------------------------------------------------------------- giving up

  /** Over every run: short of an error of its own, a process stops acquiring only on a host another live process holds. */
  lemma GivesUpOnlyOnBusyHosts(trace: seq<World>, actions: seq<Action>, k: nat, pid: Pid)
    requires IsRun(trace, actions) && Init(trace[0]) && k < |actions| && actions[k] != GiveUp(pid)
    requires pid in trace[k].procs && trace[k].procs[pid].phase.Acquiring?
    requires pid in trace[k + 1].procs && trace[k + 1].procs[pid].phase.Releasing?
    ensures actions[k] == TryLock(pid)
    ensures exists q :: q != pid && Holds(trace[k], q, trace[k].procs[pid].phase.todo[0])
  {
    RunsKeepInv(trace, actions, k);
    var w, a := trace[k], actions[k];
    if Actor(a) != Some(pid) { OthersUndisturbed(w, a, pid); }
    assert ProcInv(w, pid);
    var host := w.procs[pid].phase.todo[0];
    assert host in w.procs[pid].phase.todo && !Holds(w, pid, host);
    assert host in w.locked;
  }

  // ------------------------------------------------------------------ helpers

  /** A built helper is in the store and rooted in its host until the deployment ends or rebuilds it. */
  lemma {:induction false} HelperStaysRooted(
      trace: seq<World>, actions: seq<Action>, k: nat, m: nat, pid: Pid, host: Host, name: string, path: Path)
    requires IsRun(trace, actions) && Init(trace[0]) && k < m < |trace|
    requires actions[k] == BuildHelper(pid, host, name, path)
    requires forall i :: k < i < m ==>
               && actions[i] != GiveUp(pid) && actions[i] != Die(pid)
               && !(actions[i].BuildHelper? && actions[i].pid == pid && actions[i].host == host && actions[i].name == name)
    ensures Root(host, name) in trace[m].roots && trace[m].roots[Root(host, name)] == path && path in trace[m].store
    decreases m
  {
    hide Apply, Enabled, ProcInv, Inv;
    BuildKeepsStaged(trace, actions, k, pid, host, name, path);
    if m > k + 1 {
      HelperStaysRooted(trace, actions, k, m - 1, pid, host, name, path);
      StagedThroughout(trace, actions, k + 1, m - 1, pid);
      RunsKeepInv(trace, actions, m - 1);
      HelperStep(trace[m - 1], actions[m - 1], pid, host, name);
    }
    RunsKeepInv(trace, actions, m);
    RootedIsStored(trace[m], Root(host, name));
  }

  lemma RootedIsStored(w: World, r: Root)
    requires Inv(w) && r in w.roots
    ensures w.roots[r] in w.store
  {
  }

  lemma BuildKeepsStaged(
      trace: seq<World>, actions: seq<Action>, k: nat, pid: Pid, host: Host, name: string, path: Path)
    requires IsRun(trace, actions) && k < |actions| && actions[k] == BuildHelper(pid, host, name, path)
    ensures pid in trace[k].procs && trace[k].procs[pid].phase.Staged? && host in trace[k].procs[pid].selected
    ensures Root(host, name) in trace[k + 1].roots && trace[k + 1].roots[Root(host, name)] == path && name != SOURCE
    ensures pid in trace[k + 1].procs && trace[k + 1].procs[pid] == trace[k].procs[pid]
  {
  }

  lemma HelperStep(w: World, a: Action, pid: Pid, host: Host, name: string)
    requires Inv(w) && Enabled(w, a) && pid in w.procs && w.procs[pid].phase.Staged? && host in w.procs[pid].selected
    requires a != GiveUp(pid) && a != Die(pid) && name != SOURCE
    requires !(a.BuildHelper? && a.pid == pid && a.host == host && a.name == name)
    ensures SameRoot(w, Apply(w, a), Root(host, name))
  {
    assert ProcInv(w, pid);
    assert Holds(w, pid, host);
    if Actor(a) != Some(pid) {
      OthersUndisturbed(w, a, pid);
    }
  }
}
