/**
 Fleet deployments as interleaved processes over the host locks, the GC root
 links and the Nix store. Any number of processes try-lock hosts, sweep the
 roots of idle hosts, root a source once per host, collect garbage, fail or die.
 */
module FleetProtocol {
  type Host = string
  type Pid = nat
  type Path = string

  /** A root link in a host's state directory. */
  datatype Root = Root(host: Host, name: string)

  const SOURCE := "source"

  datatype Phase =
    | Acquiring(todo: seq<Host>)                  // lock(): requested hosts not yet taken
    | Emptying(host: Host, todo: seq<Host>)       // just locked `host`, removing its leftovers
    | Sweeping(entries: seq<Host>)                // directory entries not yet visited
    | SweepEmptying(host: Host, entries: seq<Host>)
    | Ready                                       // lock() has returned
    | Staging(path: Path, rest: seq<Host>)        // hosts that do not root the source yet
    | Staged(path: Path)                          // stage_source has returned
    | Releasing(hosts: set<Host>)                 // lock values still to be dropped

  /** `selected` lists the targets in deployment order; `held` are the lock files it has open and locked. */
  datatype Proc = Proc(selected: seq<Host>, phase: Phase, held: set<Host>)

  /** `locked` is what the kernel knows: which lock files are locked, not by whom. */
  datatype World = World(locked: set<Host>, roots: map<Root, Path>, store: set<Path>, procs: map<Pid, Proc>)

  datatype Action =
    | Start(pid: Pid, selected: seq<Host>, order: seq<Host>)
    | TryLock(pid: Pid)
    | RemoveRoot(pid: Pid, root: Root)
    | Emptied(pid: Pid)
    | BeginSweep(pid: Pid, entries: seq<Host>)
    | SweepVisit(pid: Pid)
    | EndSweep(pid: Pid)
    | ImportSource(pid: Pid, path: Path)
    | Retain(pid: Pid)
    | StageReturns(pid: Pid)
    | BuildHelper(pid: Pid, host: Host, name: string, path: Path)
    | GiveUp(pid: Pid)
    | Unlock(pid: Pid, host: Host)
    | Exit(pid: Pid)
    | Die(pid: Pid)
    | AddPath(path: Path)
    | Collect(garbage: set<Path>)

  predicate Holds(w: World, pid: Pid, host: Host) { pid in w.procs && host in w.procs[pid].held }

  predicate NoRoots(w: World, host: Host) { forall r <- w.roots :: r.host != host }

  predicate Distinct(s: seq<Host>) { forall i, j :: 0 <= i < j < |s| ==> s[i] != s[j] }

  function Hosts(s: seq<Host>): set<Host> { set h | h in s }

  /** The lock values in scope where the program is; leaving early drops exactly these. */
  function InScope(p: Proc): set<Host> {
    match p.phase
    case Acquiring(todo) => Hosts(p.selected) - Hosts(todo)
    case Emptying(_, todo) => Hosts(p.selected) - Hosts(todo)
    case SweepEmptying(host, _) => Hosts(p.selected) + {host}
    case Releasing(hosts) => hosts
    case _ => Hosts(p.selected)
  }

  function In(w: World, pid: Pid, phase: Phase): World
    requires pid in w.procs
  {
    w.(procs := w.procs[pid := w.procs[pid].(phase := phase)])
  }

  /** The kernel locks a file that nobody has locked; the process keeps it open. */
  function Take(w: World, pid: Pid, host: Host, phase: Phase): World
    requires pid in w.procs
  {
    var p := w.procs[pid];
    w.(locked := w.locked + {host}, procs := w.procs[pid := p.(held := p.held + {host}, phase := phase)])
  }

  /** The process closes a lock file, which unlocks it. */
  function Close(w: World, pid: Pid, host: Host, phase: Phase): World
    requires pid in w.procs
  {
    var p := w.procs[pid];
    w.(locked := w.locked - {host}, procs := w.procs[pid := p.(held := p.held - {host}, phase := phase)])
  }

  /** Where the program removes root links: no lock is looked at there. */
  predicate Clearing(w: World, pid: Pid, host: Host) {
    && pid in w.procs
    && match w.procs[pid].phase
       case Emptying(h, _) => host == h
       case SweepEmptying(h, _) => host == h
       case Releasing(hosts) => host in hosts
       case _ => false
  }

  /** May this step happen now? */
  predicate Enabled(w: World, a: Action) {
    match a
    case Start(pid, selected, order) => pid !in w.procs && Distinct(order) && Hosts(order) == Hosts(selected)
    case TryLock(pid) => pid in w.procs && w.procs[pid].phase.Acquiring? && w.procs[pid].phase.todo != []
    case RemoveRoot(pid, root) => Clearing(w, pid, root.host)
    case Emptied(pid) =>
      && pid in w.procs
      && (match w.procs[pid].phase
          case Emptying(h, _) => NoRoots(w, h)
          case SweepEmptying(h, _) => NoRoots(w, h)
          case _ => false)
    case BeginSweep(pid, _) => pid in w.procs && w.procs[pid].phase == Acquiring([])
    case SweepVisit(pid) => pid in w.procs && w.procs[pid].phase.Sweeping? && w.procs[pid].phase.entries != []
    case EndSweep(pid) => pid in w.procs && w.procs[pid].phase == Sweeping([])
    case ImportSource(pid, _) => pid in w.procs && w.procs[pid].phase == Ready && w.procs[pid].selected != []
    case Retain(pid) =>
      && pid in w.procs && w.procs[pid].phase.Staging? && w.procs[pid].phase.rest != []
      && w.procs[pid].phase.path in w.store
    case StageReturns(pid) => pid in w.procs && w.procs[pid].phase.Staging? && w.procs[pid].phase.rest == []
    case BuildHelper(pid, host, name, _) =>
      pid in w.procs && w.procs[pid].phase.Staged? && host in w.procs[pid].selected && name != SOURCE
    case GiveUp(pid) => pid in w.procs
    case Unlock(pid, host) =>
      pid in w.procs && w.procs[pid].phase.Releasing? && host in w.procs[pid].phase.hosts
    case Exit(pid) => pid in w.procs && w.procs[pid].phase == Releasing({})
    case Die(pid) => pid in w.procs
    case AddPath(_) => true
    case Collect(garbage) => forall r <- w.roots :: w.roots[r] !in garbage
  }

  function Apply(w: World, a: Action): World
    requires Enabled(w, a)
  {
    match a
    case Start(pid, selected, order) => w.(procs := w.procs[pid := Proc(selected, Acquiring(order), {})])
    case TryLock(pid) =>
      var todo := w.procs[pid].phase.todo;
      if todo[0] in w.locked then In(w, pid, Releasing(InScope(w.procs[pid])))
      else Take(w, pid, todo[0], Emptying(todo[0], todo[1..]))
    case RemoveRoot(pid, root) => w.(roots := w.roots - {root})
    case Emptied(pid) =>
      (match w.procs[pid].phase
       case Emptying(_, todo) => In(w, pid, Acquiring(todo))
       case SweepEmptying(h, entries) => Close(w, pid, h, Sweeping(entries))
       case _ => w)
    case BeginSweep(pid, entries) => In(w, pid, Sweeping(entries))
    case SweepVisit(pid) =>
      var entries := w.procs[pid].phase.entries;
      var host := entries[0];
      if host in w.procs[pid].selected || host in w.locked then In(w, pid, Sweeping(entries[1..]))
      else Take(w, pid, host, SweepEmptying(host, entries[1..]))
    case EndSweep(pid) => In(w, pid, Ready)
    case ImportSource(pid, path) =>
      var selected := w.procs[pid].selected;
      In(w.(store := w.store + {path}, roots := w.roots[Root(selected[0], SOURCE) := path]), pid,
         Staging(path, selected[1..]))
    case Retain(pid) =>
      var phase := w.procs[pid].phase;
      In(w.(roots := w.roots[Root(phase.rest[0], SOURCE) := phase.path]), pid, Staging(phase.path, phase.rest[1..]))
    case StageReturns(pid) => In(w, pid, Staged(w.procs[pid].phase.path))
    case BuildHelper(_, host, name, path) =>
      w.(store := w.store + {path}, roots := w.roots[Root(host, name) := path])
    case GiveUp(pid) => In(w, pid, Releasing(InScope(w.procs[pid])))
    case Unlock(pid, host) => Close(w, pid, host, Releasing(w.procs[pid].phase.hosts - {host}))
    case Exit(pid) => w.(procs := w.procs - {pid})
    case Die(pid) => w.(locked := w.locked - w.procs[pid].held, procs := w.procs - {pid})
    case AddPath(path) => w.(store := w.store + {path})
    case Collect(garbage) => w.(store := w.store - garbage)
  }

  // ----------------------------------------------------------- invariant

  /** The selected hosts a staging process has rooted so far. */
  predicate Rooted(w: World, hosts: seq<Host>, path: Path) {
    forall h <- hosts :: Root(h, SOURCE) in w.roots && w.roots[Root(h, SOURCE)] == path
  }

  /** What a process has established in each phase, the lock files it holds being those in scope. */
  predicate ProcInv(w: World, pid: Pid)
    requires pid in w.procs
  {
    var p := w.procs[pid];
    && p.held == InScope(p)
    && match p.phase
       case Acquiring(todo) =>
         Distinct(todo) && Hosts(todo) <= Hosts(p.selected) && forall h <- p.held :: NoRoots(w, h)
       case Emptying(host, todo) =>
         && Distinct(todo) && host in p.selected && host !in todo && Hosts(todo) <= Hosts(p.selected)
         && forall h <- p.held :: h != host ==> NoRoots(w, h)
       case Sweeping(_) => forall h <- p.selected :: NoRoots(w, h)
       case SweepEmptying(host, _) => host !in p.selected && forall h <- p.selected :: NoRoots(w, h)
       case Ready => forall h <- p.selected :: NoRoots(w, h)
       case Staging(path, rest) =>
         && |rest| < |p.selected| && rest == p.selected[|p.selected| - |rest|..]
         && Rooted(w, p.selected[..|p.selected| - |rest|], path)
       case Staged(path) => p.selected != [] && Rooted(w, p.selected, path)
       case Releasing(_) => true
  }

  /** No lock file is held twice. */
  ghost predicate Exclusive(w: World) {
    forall p, q, h :: Holds(w, p, h) && Holds(w, q, h) ==> p == q
  }

  /** The kernel's locked files are those some process holds. */
  ghost predicate Accounted(w: World) {
    forall h :: h in w.locked <==> exists p :: Holds(w, p, h)
  }

  ghost predicate Inv(w: World) {
    && Exclusive(w) && Accounted(w)
    && (forall r <- w.roots :: w.roots[r] in w.store)
    && (forall pid <- w.procs :: ProcInv(w, pid))
  }

  ghost predicate Init(w: World) {
    w.locked == {} && w.procs == map[] && forall r <- w.roots :: w.roots[r] in w.store
  }
}
