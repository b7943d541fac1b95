/**
 Collecting the locked inputs of a flake lock: a walk over a graph that may
 have cycles, recorded under slash-joined input names.
 */
module LockGraph {
  import opened Common

  /** An input names a node, or follows another input's path. */
  datatype Target = Direct(node: string) | Follows(path: seq<string>)
  datatype Edge = Edge(name: string, target: Target)
  datatype LockedInput = LockedInput(content: string)
  datatype Node = Node(inputs: seq<Edge>, locked: Option<LockedInput>)
  datatype Lock = Lock(nodes: map<string, Node>, root: string)

  /** Node inputs are a dictionary, so names differ; the root is checked on load. */
  predicate Valid(lock: Lock) {
    && lock.root in lock.nodes
    && forall n <- lock.nodes :: UniqueNames(lock.nodes[n].inputs)
  }

  predicate UniqueNames(edges: seq<Edge>) {
    forall i, j :: 0 <= i < j < |edges| ==> edges[i].name != edges[j].name
  }

  // ----------------------------------------------------------- the visit

  datatype Entry = Entry(path: seq<string>, locked: LockedInput)

  function Child(lock: Lock, edge: Edge, ancestors: set<string>): (child: Option<string>)
    ensures child.Some? ==> child.value in lock.nodes && child.value !in ancestors
  {
    if edge.target.Direct? && edge.target.node !in ancestors && edge.target.node in lock.nodes
    then Some(edge.target.node) else None
  }

  function Own(lock: Lock, child: string, path: seq<string>): seq<Entry>
    requires child in lock.nodes
  {
    match lock.nodes[child].locked
    case Some(locked) => [Entry(path, locked)]
    case None => []
  }

  /** What visiting a node records, from its i-th input on, in order. */
  function Visited(lock: Lock, node: string, i: nat, path: seq<string>, ancestors: set<string>): seq<Entry>
    requires node in lock.nodes && i <= |lock.nodes[node].inputs|
    decreases |lock.nodes.Keys - ancestors|, |lock.nodes[node].inputs| - i
  {
    var edges := lock.nodes[node].inputs;
    if i == |edges| then []
    else
      var rest := Visited(lock, node, i + 1, path, ancestors);
      match Child(lock, edges[i], ancestors)
      case None => rest
      case Some(child) =>
        Shrinks(lock.nodes.Keys, ancestors, child);
        var here := path + [edges[i].name];
        Own(lock, child, here) + Visited(lock, child, 0, here, ancestors + {child}) + rest
  }

  lemma Shrinks(all: set<string>, ancestors: set<string>, child: string)
    requires child in all && child !in ancestors
    ensures |all - (ancestors + {child})| < |all - ancestors|
  {
    assert all - ancestors == (all - (ancestors + {child})) + {child};
  }

  function Join(names: seq<string>): string
    requires names != []
  {
    if |names| == 1 then names[0] else names[0] + "/" + Join(names[1..])
  }

  predicate Named(entries: seq<Entry>) { forall e <- entries :: e.path != [] }

  /** Assigning the entries one after another; later ones overwrite. */
  function Record(inputs: map<string, LockedInput>, entries: seq<Entry>): map<string, LockedInput>
    requires Named(entries)
    decreases |entries|
  {
    if entries == [] then inputs
    else
      assert entries[0] in entries && forall e <- entries[1..] :: e in entries;
      Record(inputs[Join(entries[0].path) := entries[0].locked], entries[1..])
  }

  lemma {:induction false} RecordAppend(inputs: map<string, LockedInput>, a: seq<Entry>, b: seq<Entry>)
    requires Named(a) && Named(b)
    ensures Named(a + b) && Record(inputs, a + b) == Record(Record(inputs, a), b)
    decreases |a|
  {
    assert forall e <- a + b :: e in a || e in b;
    if a == [] {
      assert a + b == b;
    } else {
      assert a[0] in a && forall e <- a[1..] :: e in a;
      assert (a + b)[0] == a[0] && (a + b)[1..] == a[1..] + b;
      RecordAppend(inputs[Join(a[0].path) := a[0].locked], a[1..], b);
    }
  }

  lemma {:induction false} VisitedNamed(lock: Lock, node: string, i: nat, path: seq<string>, ancestors: set<string>)
    requires node in lock.nodes && i <= |lock.nodes[node].inputs|
    ensures Named(Visited(lock, node, i, path, ancestors))
    decreases |lock.nodes.Keys - ancestors|, |lock.nodes[node].inputs| - i
  {
    var edges := lock.nodes[node].inputs;
    if i < |edges| {
      VisitedNamed(lock, node, i + 1, path, ancestors);
      match Child(lock, edges[i], ancestors)
      case None =>
      case Some(child) =>
        Shrinks(lock.nodes.Keys, ancestors, child);
        VisitedNamed(lock, child, 0, path + [edges[i].name], ancestors + {child});
    }
  }

  function Inputs(lock: Lock): map<string, LockedInput>
    requires Valid(lock)
  {
    VisitedNamed(lock, lock.root, 0, [], {lock.root});
    Record(map[], Visited(lock, lock.root, 0, [], {lock.root}))
  }

  /** What one turn of the visit's loop adds: the child's own lock, then everything below the child. */
  lemma VisitTurn(lock: Lock, node: string, i: nat, path: seq<string>, ancestors: set<string>,
                  inputs: map<string, LockedInput>)
    requires node in lock.nodes && i < |lock.nodes[node].inputs|
    ensures var edge := lock.nodes[node].inputs[i];
            var rest := Visited(lock, node, i + 1, path, ancestors);
            var all := Visited(lock, node, i, path, ancestors);
            && Named(rest) && Named(all)
            && match Child(lock, edge, ancestors)
               case None => all == rest
               case Some(child) =>
                 var here := path + [edge.name];
                 var deep := Visited(lock, child, 0, here, ancestors + {child});
                 var next := if lock.nodes[child].locked.Some? then inputs[Join(here) := lock.nodes[child].locked.value] else inputs;
                 Named(deep) && Record(inputs, all) == Record(Record(next, deep), rest)
  {
    VisitedNamed(lock, node, i, path, ancestors);
    VisitedNamed(lock, node, i + 1, path, ancestors);
    var edge := lock.nodes[node].inputs[i];
    match Child(lock, edge, ancestors)
    case None =>
    case Some(child) =>
      var here := path + [edge.name];
      var own, deep := Own(lock, child, here), Visited(lock, child, 0, here, ancestors + {child});
      VisitedNamed(lock, child, 0, here, ancestors + {child});
      OwnRecorded(lock, child, here, inputs);
      RecordAppend(inputs, own + deep, Visited(lock, node, i + 1, path, ancestors));
      RecordAppend(inputs, own, deep);
  }

  lemma OwnRecorded(lock: Lock, child: string, here: seq<string>, inputs: map<string, LockedInput>)
    requires child in lock.nodes && here != []
    ensures Named(Own(lock, child, here))
    ensures Record(inputs, Own(lock, child, here))
         == if lock.nodes[child].locked.Some? then inputs[Join(here) := lock.nodes[child].locked.value] else inputs
  {
  }

  /** The dictionary the nested visits share and fill. */
  class Collector {
    var inputs: map<string, LockedInput>

    constructor ()
      ensures inputs == map[]
    {
      inputs := map[];
    }

    /** A visit ends on every graph, since no branch enters a node twice. */
    method Visit(lock: Lock, node: string, path: seq<string>, ancestors: set<string>)
      requires node in lock.nodes
      requires Named(Visited(lock, node, 0, path, ancestors))
      modifies this
      ensures inputs == Record(old(inputs), Visited(lock, node, 0, path, ancestors))
      decreases |lock.nodes.Keys - ancestors|
    {
      hide Visited, Record;
      var edges := lock.nodes[node].inputs;
      ghost var goal := Record(inputs, Visited(lock, node, 0, path, ancestors));
      var i := 0;
      while i < |edges|
        invariant 0 <= i <= |edges|
        invariant Named(Visited(lock, node, i, path, ancestors))
        invariant Record(inputs, Visited(lock, node, i, path, ancestors)) == goal
      {
        VisitTurn(lock, node, i, path, ancestors, inputs);
        var child := Child(lock, edges[i], ancestors);
        if child.Some? {
          Shrinks(lock.nodes.Keys, ancestors, child.value);
          var here := path + [edges[i].name];
          if lock.nodes[child.value].locked.Some? {
            inputs := inputs[Join(here) := lock.nodes[child.value].locked.value];
          }
          Visit(lock, child.value, here, ancestors + {child.value});
        }
        i := i + 1;
      }
      VisitEnd(lock, node, path, ancestors, inputs);
    }
  }

  lemma VisitEnd(lock: Lock, node: string, path: seq<string>, ancestors: set<string>, inputs: map<string, LockedInput>)
    requires node in lock.nodes
    ensures var none := Visited(lock, node, |lock.nodes[node].inputs|, path, ancestors);
            Named(none) && Record(inputs, none) == inputs
  {
  }

  method LockedInputs(lock: Lock) returns (inputs: map<string, LockedInput>)
    requires Valid(lock)
    ensures inputs == Inputs(lock)
  {
    var collector := new Collector();
    VisitedNamed(lock, lock.root, 0, [], {lock.root});
    collector.Visit(lock, lock.root, [], {lock.root});
    inputs := collector.inputs;
  }

  // ---------------------------------------------------------- the walks

  datatype Hop = Hop(name: string, node: string)

  predicate Linked(lock: Lock, from: string, hop: Hop) {
    from in lock.nodes && hop.node in lock.nodes && Edge(hop.name, Direct(hop.node)) in lock.nodes[from].inputs
  }

  predicate Chained(lock: Lock, start: string, hops: seq<Hop>)
    decreases |hops|
  {
    hops == [] || (Linked(lock, start, hops[0]) && Chained(lock, hops[0].node, hops[1..]))
  }

  function Nodes(hops: seq<Hop>): seq<string> { if hops == [] then [] else [hops[0].node] + Nodes(hops[1..]) }

  predicate Distinct(nodes: seq<string>) { forall i, j :: 0 <= i < j < |nodes| ==> nodes[i] != nodes[j] }

  /** A walk along direct inputs that never meets a node twice. */
  predicate SimpleWalk(lock: Lock, start: string, hops: seq<Hop>) {
    Chained(lock, start, hops) && Distinct([start] + Nodes(hops))
  }

  function Names(hops: seq<Hop>): seq<string> { seq(|hops|, i requires 0 <= i < |hops| => hops[i].name) }

  /** A walk from the root whose last node is locked. */
  ghost predicate Locates(lock: Lock, hops: seq<Hop>, locked: LockedInput) {
    && hops != [] && SimpleWalk(lock, lock.root, hops)
    && hops[|hops| - 1].node in lock.nodes && lock.nodes[hops[|hops| - 1].node].locked == Some(locked)
  }

  /** The same in the visit's terms: one hop at a time, past the ancestors. */
  ghost predicate Avoiding(lock: Lock, start: string, hops: seq<Hop>, ancestors: set<string>)
    decreases |hops|
  {
    hops == [] || (Linked(lock, start, hops[0]) && hops[0].node !in ancestors
                   && Avoiding(lock, hops[0].node, hops[1..], ancestors + {hops[0].node}))
  }

  lemma DistinctCons(node: string, nodes: seq<string>)
    ensures Distinct([node] + nodes) <==> node !in nodes && Distinct(nodes)
  {
    var all := [node] + nodes;
    assert forall i :: 0 <= i < |nodes| ==> nodes[i] == all[i + 1];
    assert forall i :: 0 < i < |all| ==> all[i] == nodes[i - 1];
    if Distinct(all) {
      forall i, j | 0 <= i < j < |nodes| ensures nodes[i] != nodes[j] { assert all[i + 1] != all[j + 1]; }
      assert forall i :: 0 <= i < |nodes| ==> all[0] != nodes[i];
    }
  }

  lemma {:induction false} AvoidingIsSimple(lock: Lock, start: string, hops: seq<Hop>, ancestors: set<string>)
    requires start in ancestors
    ensures Avoiding(lock, start, hops, ancestors)
       <==> SimpleWalk(lock, start, hops) && forall n <- Nodes(hops) :: n !in ancestors
    decreases |hops|
  {
    DistinctCons(start, Nodes(hops));
    if hops != [] {
      var next, tail := hops[0].node, hops[1..];
      DistinctCons(next, Nodes(tail));
      AvoidingIsSimple(lock, next, tail, ancestors + {next});
      hide Linked, Distinct;
      assert forall n <- Nodes(hops) :: n == next || n in Nodes(tail);
      assert next in Nodes(hops) && forall n <- Nodes(tail) :: n in Nodes(hops);
    }
  }

  /** A walk past the ancestors, written under `path`, to a node with this lock. */
  ghost predicate Reaches(lock: Lock, node: string, path: seq<string>, ancestors: set<string>, hops: seq<Hop>, e: Entry) {
    && hops != [] && Avoiding(lock, node, hops, ancestors) && e.path == path + Names(hops)
    && hops[|hops| - 1].node in lock.nodes && lock.nodes[hops[|hops| - 1].node].locked == Some(e.locked)
  }

  lemma OwnReaches(lock: Lock, node: string, edge: Edge, path: seq<string>, ancestors: set<string>, e: Entry)
    requires node in lock.nodes && edge in lock.nodes[node].inputs && Child(lock, edge, ancestors).Some?
    requires e in Own(lock, edge.target.node, path + [edge.name])
    ensures Reaches(lock, node, path, ancestors, [Hop(edge.name, edge.target.node)], e)
  {
    var hops := [Hop(edge.name, edge.target.node)];
    assert Names(hops) == [edge.name] && hops[1..] == [];
  }

  lemma DeeperReaches(
      lock: Lock, node: string, edge: Edge, path: seq<string>, ancestors: set<string>, tail: seq<Hop>, e: Entry)
    requires node in lock.nodes && edge in lock.nodes[node].inputs && Child(lock, edge, ancestors).Some?
    requires Reaches(lock, edge.target.node, path + [edge.name], ancestors + {edge.target.node}, tail, e)
    ensures Reaches(lock, node, path, ancestors, [Hop(edge.name, edge.target.node)] + tail, e)
  {
    var hops := [Hop(edge.name, edge.target.node)] + tail;
    assert hops[1..] == tail && Names(hops) == [edge.name] + Names(tail);
    assert path + [edge.name] + Names(tail) == path + Names(hops);
  }

  /** An entry comes from a later input, from the child itself or from below it. */
  lemma VisitedCases(lock: Lock, node: string, i: nat, path: seq<string>, ancestors: set<string>, e: Entry)
    requires node in lock.nodes && i <= |lock.nodes[node].inputs|
    ensures e in Visited(lock, node, i, path, ancestors) <==>
            && i < |lock.nodes[node].inputs|
            && var edge := lock.nodes[node].inputs[i];
               || e in Visited(lock, node, i + 1, path, ancestors)
               || (&& Child(lock, edge, ancestors).Some?
                   && (|| e in Own(lock, edge.target.node, path + [edge.name])
                       || e in Visited(lock, edge.target.node, 0, path + [edge.name], ancestors + {edge.target.node})))
  {
  }

  /** Everything recorded was reached by such a walk. */
  lemma {:induction false} VisitedSound(
      lock: Lock, node: string, i: nat, path: seq<string>, ancestors: set<string>, e: Entry) returns (hops: seq<Hop>)
    requires node in lock.nodes && i <= |lock.nodes[node].inputs|
    requires e in Visited(lock, node, i, path, ancestors)
    ensures Reaches(lock, node, path, ancestors, hops, e)
    decreases |lock.nodes.Keys - ancestors|, |lock.nodes[node].inputs| - i
  {
    hide Visited, Reaches, Own;
    VisitedCases(lock, node, i, path, ancestors, e);
    var edge := lock.nodes[node].inputs[i];
    if e in Visited(lock, node, i + 1, path, ancestors) {
      hops := VisitedSound(lock, node, i + 1, path, ancestors, e);
    } else {
      var child, here := edge.target.node, path + [edge.name];
      if e in Own(lock, child, here) {
        hops := [Hop(edge.name, child)];
        OwnReaches(lock, node, edge, path, ancestors, e);
      } else {
        Shrinks(lock.nodes.Keys, ancestors, child);
        var tail := VisitedSound(lock, child, 0, here, ancestors + {child}, e);
        hops := [Hop(edge.name, child)] + tail;
        DeeperReaches(lock, node, edge, path, ancestors, tail, e);
      }
    }
  }

  /** The first hop of a walk leads to the locked node itself, or on from the child by its input `next`. */
  lemma ReachesStep(lock: Lock, node: string, path: seq<string>, ancestors: set<string>, hops: seq<Hop>, e: Entry)
    returns (next: nat)
    requires Reaches(lock, node, path, ancestors, hops, e)
    ensures hops != [] && hops[0].node in lock.nodes && hops[0].node !in ancestors
    ensures var child, here, tail := hops[0].node, path + [hops[0].name], hops[1..];
            if tail == [] then e in Own(lock, child, here)
            else
              && Reaches(lock, child, here, ancestors + {child}, tail, e)
              && next < |lock.nodes[child].inputs|
              && lock.nodes[child].inputs[next] == Edge(tail[0].name, Direct(tail[0].node))
  {
    var child, here, tail := hops[0].node, path + [hops[0].name], hops[1..];
    assert Names(hops) == [hops[0].name] + Names(tail);
    assert here + Names(tail) == path + Names(hops);
    next := 0;
    if tail == [] {
      assert here + Names(tail) == here;
    } else {
      assert Avoiding(lock, child, tail, ancestors + {child});
      assert Edge(tail[0].name, Direct(tail[0].node)) in lock.nodes[child].inputs;
      next :| 0 <= next < |lock.nodes[child].inputs|
              && lock.nodes[child].inputs[next] == Edge(tail[0].name, Direct(tail[0].node));
    }
  }

  /** Every such walk to a locked node is recorded. */
  lemma {:induction false} VisitedComplete(
      lock: Lock, node: string, i: nat, path: seq<string>, ancestors: set<string>, hops: seq<Hop>, at: nat, e: Entry)
    requires node in lock.nodes && i <= at < |lock.nodes[node].inputs|
    requires Reaches(lock, node, path, ancestors, hops, e)
    requires lock.nodes[node].inputs[at] == Edge(hops[0].name, Direct(hops[0].node))
    ensures e in Visited(lock, node, i, path, ancestors)
    decreases |lock.nodes.Keys - ancestors|, at - i
  {
    hide Visited, Reaches, Own;
    VisitedCases(lock, node, i, path, ancestors, e);
    if i < at {
      VisitedComplete(lock, node, i + 1, path, ancestors, hops, at, e);
    } else {
      var next := ReachesStep(lock, node, path, ancestors, hops, e);
      var child, tail := hops[0].node, hops[1..];
      if tail != [] {
        Shrinks(lock.nodes.Keys, ancestors, child);
        VisitedComplete(lock, child, 0, path + [hops[0].name], ancestors + {child}, tail, next, e);
      }
    }
  }

  /** The entries of a lock are exactly its simple walks to locked nodes. */
  lemma EntriesAreWalks(lock: Lock, path: seq<string>, locked: LockedInput)
    requires Valid(lock)
    ensures Entry(path, locked) in Visited(lock, lock.root, 0, [], {lock.root})
       <==> exists hops :: Locates(lock, hops, locked) && Names(hops) == path
  {
    if Entry(path, locked) in Visited(lock, lock.root, 0, [], {lock.root}) {
      var hops := VisitedSound(lock, lock.root, 0, [], {lock.root}, Entry(path, locked));
      AvoidingIsSimple(lock, lock.root, hops, {lock.root});
      assert Locates(lock, hops, locked) && Names(hops) == path;
    }
    if hops: seq<Hop> :| Locates(lock, hops, locked) && Names(hops) == path {
      RootWalkAvoids(lock, hops);
      var at :| 0 <= at < |lock.nodes[lock.root].inputs|
                && lock.nodes[lock.root].inputs[at] == Edge(hops[0].name, Direct(hops[0].node));
      assert [] + Names(hops) == path;
      VisitedComplete(lock, lock.root, 0, [], {lock.root}, hops, at, Entry(path, locked));
    }
  }

  lemma RootWalkAvoids(lock: Lock, hops: seq<Hop>)
    requires hops != [] && SimpleWalk(lock, lock.root, hops)
    ensures Avoiding(lock, lock.root, hops, {lock.root})
    ensures Linked(lock, lock.root, hops[0])
  {
    DistinctCons(lock.root, Nodes(hops));
    AvoidingIsSimple(lock, lock.root, hops, {lock.root});
  }

  // ----------------------------------------------------- the dictionary

  /** Every key was assigned by an entry, and the last one decides its value. */
  lemma {:induction false} RecordedKeys(inputs: map<string, LockedInput>, entries: seq<Entry>, key: string)
    requires Named(entries)
    ensures key in Record(inputs, entries) <==> key in inputs || exists e <- entries :: Join(e.path) == key
    ensures key in Record(inputs, entries) ==>
              || (key in inputs && Record(inputs, entries)[key] == inputs[key])
              || exists e <- entries :: Join(e.path) == key && e.locked == Record(inputs, entries)[key]
    decreases |entries|
  {
    if entries != [] {
      assert entries[0] in entries && forall e <- entries[1..] :: e in entries;
      assert forall e <- entries :: e == entries[0] || e in entries[1..];
      RecordedKeys(inputs[Join(entries[0].path) := entries[0].locked], entries[1..], key);
    }
  }

  predicate SlashFree(s: string) { forall c <- s :: c != '/' }

  predicate SlashFreeNames(lock: Lock) {
    forall n <- lock.nodes :: forall e <- lock.nodes[n].inputs :: SlashFree(e.name)
  }

  lemma {:induction false} JoinInjective(a: seq<string>, b: seq<string>)
    requires a != [] && b != [] && Join(a) == Join(b)
    requires (forall s <- a :: SlashFree(s)) && forall s <- b :: SlashFree(s)
    ensures a == b
    decreases |a|
  {
    var x, y := if |a| == 1 then [] else "/" + Join(a[1..]), if |b| == 1 then [] else "/" + Join(b[1..]);
    assert a[0] in a && b[0] in b;
    assert Join(a) == a[0] + x && Join(b) == b[0] + y;
    SlashSplit(a[0], x, b[0], y);
    if |a| > 1 {
      assert x[1..] == Join(a[1..]) && y[1..] == Join(b[1..]);
      assert (forall s <- a[1..] :: s in a) && forall s <- b[1..] :: s in b;
      JoinInjective(a[1..], b[1..]);
    }
    assert a == [a[0]] + a[1..] && b == [b[0]] + b[1..];
  }

  lemma SlashSplit(a: string, x: string, b: string, y: string)
    requires SlashFree(a) && SlashFree(b) && a + x == b + y
    requires (x == [] || x[0] == '/') && (y == [] || y[0] == '/')
    ensures a == b && x == y
  {
    SlashFreePrefix(a, x, |b|);
    SlashFreePrefix(b, y, |a|);
    assert (a + x)[..|a|] == a && (b + y)[..|b|] == b;
    assert (a + x)[|a|..] == x && (b + y)[|b|..] == y;
  }

  lemma SlashFreePrefix(a: string, x: string, k: nat)
    requires k <= |a + x| && (x == [] || x[0] == '/')
    ensures SlashFree((a + x)[..k]) ==> k <= |a|
  {
    var prefix := (a + x)[..k];
    if |a| < k { assert prefix[|a|] == x[0] && prefix[|a|] in prefix; }
  }

  lemma EdgeUnique(edges: seq<Edge>, e: Edge, f: Edge)
    requires UniqueNames(edges) && e in edges && f in edges && e.name == f.name
    ensures e == f
  {
  }

  /** Names differ within a node, so a path of names leads to one node only. */
  lemma {:induction false} WalkUnique(lock: Lock, start: string, a: seq<Hop>, b: seq<Hop>, ancestors: set<string>)
    requires Valid(lock) && Avoiding(lock, start, a, ancestors) && Avoiding(lock, start, b, ancestors)
    requires Names(a) == Names(b)
    ensures a == b
    decreases |a|
  {
    assert |Names(a)| == |a| && |Names(b)| == |b|;
    if a != [] {
      assert Names(a)[0] == a[0].name && Names(b)[0] == b[0].name;
      EdgeUnique(lock.nodes[start].inputs, Edge(a[0].name, Direct(a[0].node)), Edge(b[0].name, Direct(b[0].node)));
      assert Names(a[1..]) == Names(a)[1..] && Names(b[1..]) == Names(b)[1..];
      WalkUnique(lock, a[0].node, a[1..], b[1..], ancestors + {a[0].node});
      assert a == [a[0]] + a[1..] && b == [b[0]] + b[1..];
    }
  }

  ghost predicate LocatesKey(lock: Lock, hops: seq<Hop>, key: string, locked: LockedInput) {
    Locates(lock, hops, locked) && Join(Names(hops)) == key
  }

  /** Whatever the names, the keys are those of the walks and no value is made up. */
  lemma KeysAreWalks(lock: Lock, key: string)
    requires Valid(lock)
    ensures key in Inputs(lock) <==> exists hops, locked :: LocatesKey(lock, hops, key, locked)
    ensures key in Inputs(lock) ==> exists hops :: LocatesKey(lock, hops, key, Inputs(lock)[key])
  {
    var entries := Visited(lock, lock.root, 0, [], {lock.root});
    VisitedNamed(lock, lock.root, 0, [], {lock.root});
    RecordedKeys(map[], entries, key);
    if key in Inputs(lock) {
      var e :| e in entries && Join(e.path) == key && e.locked == Inputs(lock)[key];
      EntriesAreWalks(lock, e.path, e.locked);
      var hops :| Locates(lock, hops, e.locked) && Names(hops) == e.path;
      assert LocatesKey(lock, hops, key, Inputs(lock)[key]);
    }
    if hops, locked :| LocatesKey(lock, hops, key, locked) {
      EntriesAreWalks(lock, Names(hops), locked);
      assert Entry(Names(hops), locked) in entries;
    }
  }

  lemma {:induction false} WalkNamesSlashFree(lock: Lock, start: string, hops: seq<Hop>)
    requires SlashFreeNames(lock) && Chained(lock, start, hops)
    ensures forall s <- Names(hops) :: SlashFree(s)
    decreases |hops|
  {
    if hops != [] {
      WalkNamesSlashFree(lock, hops[0].node, hops[1..]);
      assert Names(hops) == [hops[0].name] + Names(hops[1..]);
    }
  }

  /** With slash-free names the dictionary is exactly the walks and their nodes' locks. */
  lemma InputsExact(lock: Lock, key: string, locked: LockedInput)
    requires Valid(lock) && SlashFreeNames(lock)
    ensures key in Inputs(lock) && Inputs(lock)[key] == locked
       <==> exists hops :: LocatesKey(lock, hops, key, locked)
  {
    KeysAreWalks(lock, key);
    if hops: seq<Hop> :| LocatesKey(lock, hops, key, locked) {
      assert key in Inputs(lock);
      var other :| LocatesKey(lock, other, key, Inputs(lock)[key]);
      WalkNamesSlashFree(lock, lock.root, hops);
      WalkNamesSlashFree(lock, lock.root, other);
      JoinInjective(Names(hops), Names(other));
      RootWalkAvoids(lock, hops);
      RootWalkAvoids(lock, other);
      WalkUnique(lock, lock.root, hops, other, {lock.root});
    }
  }

  /** Two inputs whose names join alike: the lock of one of them overwrites the other's. */
  function Colliding(x: LockedInput, y: LockedInput): Lock {
    Lock(map["root" := Node([Edge("a/b", Direct("p")), Edge("a", Direct("q"))], None),
             "p" := Node([], Some(x)),
             "q" := Node([Edge("b", Direct("r"))], None),
             "r" := Node([], Some(y))],
         "root")
  }

  /** A slash in a name can join to another walk's key, and then one of the two locks is lost. */
  lemma SlashedNamesCollide(x: LockedInput, y: LockedInput)
    ensures var lock := Colliding(x, y);
            && Valid(lock)
            && LocatesKey(lock, [Hop("a/b", "p")], "a/b", x)
            && LocatesKey(lock, [Hop("a", "q"), Hop("b", "r")], "a/b", y)
            && Inputs(lock) == map["a/b" := y]
  {
    CollidingWalks(x, y);
    CollidingVisit(x, y);
    hide Visited, LocatesKey;
    CollidingRecord(x, y);
  }

  lemma CollidingRecord(x: LockedInput, y: LockedInput)
    ensures Named([Entry(["a/b"], x), Entry(["a", "b"], y)])
    ensures Record(map[], [Entry(["a/b"], x), Entry(["a", "b"], y)]) == map["a/b" := y]
  {
    var first, second := Entry(["a/b"], x), Entry(["a", "b"], y);
    assert [first, second][1..] == [second] && [second][1..] == [];
    assert Join(first.path) == "a/b";
    assert Join(second.path) == "a/b" by { assert second.path[1..] == ["b"]; }
    assert Record(map["a/b" := y], []) == map["a/b" := y];
    assert map["a/b" := x]["a/b" := y] == map["a/b" := y];
    assert Record(map["a/b" := x], [second]) == map["a/b" := y];
    assert map[]["a/b" := x] == map["a/b" := x];
  }

  lemma CollidingWalks(x: LockedInput, y: LockedInput)
    ensures LocatesKey(Colliding(x, y), [Hop("a/b", "p")], "a/b", x)
    ensures LocatesKey(Colliding(x, y), [Hop("a", "q"), Hop("b", "r")], "a/b", y)
  {
    assert Names([Hop("a/b", "p")]) == ["a/b"];
    assert Names([Hop("a", "q"), Hop("b", "r")]) == ["a", "b"];
    assert Join(["a", "b"]) == "a/b" by { assert ["a", "b"][1..] == ["b"]; }
    assert [Hop("a", "q"), Hop("b", "r")][1..] == [Hop("b", "r")];
    assert Nodes([Hop("b", "r")]) == ["r"] && Nodes([Hop("a/b", "p")]) == ["p"];
    assert ["root"] + ["p"] == ["root", "p"];
    assert ["root"] + (["q"] + ["r"]) == ["root", "q", "r"];
  }

  lemma CollidingVisit(x: LockedInput, y: LockedInput)
    ensures Visited(Colliding(x, y), "root", 0, [], {"root"}) == [Entry(["a/b"], x), Entry(["a", "b"], y)]
  {
    var lock := Colliding(x, y);
    var from := ["a"];
    assert Visited(lock, "p", 0, [] + ["a/b"], {"root"} + {"p"}) == [];
    assert Visited(lock, "r", 0, from + ["b"], {"root"} + {"q"} + {"r"}) == [];
    assert Visited(lock, "q", 1, from, {"root"} + {"q"}) == [];
    assert from + ["b"] == ["a", "b"];
    assert Visited(lock, "q", 0, from, {"root"} + {"q"}) == [Entry(["a", "b"], y)];
    assert Visited(lock, "root", 2, [], {"root"}) == [];
    assert [] + ["a"] == from;
    assert Visited(lock, "root", 1, [], {"root"}) == [Entry(["a", "b"], y)];
    assert [] + ["a/b"] == ["a/b"];
  }

  /** An input is reported exactly when both locks have it with different contents. */
  function Updated(before: Lock, after: Lock): set<string>
    requires Valid(before) && Valid(after)
  {
    var old_, new_ := Inputs(before), Inputs(after);
    set name <- old_.Keys * new_.Keys | old_[name] != new_[name]
  }

  /** Walks of both locks that have this name and lead to different locks. */
  ghost predicate Differ(before: Lock, after: Lock, name: string, x: LockedInput, y: LockedInput) {
    x != y && (exists a :: LocatesKey(before, a, name, x)) && exists b :: LocatesKey(after, b, name, y)
  }

  /** Every reported name has walks to different locks, and with slash-free names every such name is reported. */
  lemma UpdatedExact(before: Lock, after: Lock, name: string)
    requires Valid(before) && Valid(after)
    ensures name in Updated(before, after) ==> exists x, y :: Differ(before, after, name, x, y)
    ensures SlashFreeNames(before) && SlashFreeNames(after) ==>
              (name in Updated(before, after) <==> exists x, y :: Differ(before, after, name, x, y))
  {
    KeysAreWalks(before, name);
    KeysAreWalks(after, name);
    if name in Updated(before, after) {
      assert Differ(before, after, name, Inputs(before)[name], Inputs(after)[name]);
    }
    if x, y :| Differ(before, after, name, x, y) && SlashFreeNames(before) && SlashFreeNames(after) {
      InputsExact(before, name, x);
      InputsExact(after, name, y);
    }
  }
}
