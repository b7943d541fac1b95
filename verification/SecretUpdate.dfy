/**
 Updating a host's secret from its templates: what one run writes, why no run
 loses a value, and after how many runs nothing changes any more.
 */
module SecretUpdate {
  import opened Common
  import opened SecretMerge

  /** What setting one value by key path does to an encrypted document, intermediate objects included. */
  function SetValue(doc: Json, path: Path, value: Json): Json
    requires KeysOnly(path)
    decreases |path|
  {
    if path == [] then value
    else
      assert path[0] in path && forall s <- path[1..] :: s in path;
      var members := if doc.Object? then doc.members else map[];
      var inner := if path[0].name in members then members[path[0].name] else Object(map[]);
      Object(members[path[0].name := SetValue(inner, path[1..], value)])
  }

  predicate Settable(leaves: seq<Leaf>) { forall leaf <- leaves :: KeysOnly(leaf.path) }

  function SetAll(doc: Json, leaves: seq<Leaf>): Json
    requires Settable(leaves)
    decreases |leaves|
  {
    if leaves == [] then doc
    else
      assert leaves[0] in leaves && forall leaf <- leaves[1..] :: leaf in leaves;
      SetAll(SetValue(doc, leaves[0].path, Scalar(leaves[0].value)), leaves[1..])
  }

  /** The leaves the document lacks, in any order. */
  ghost predicate Enumerates(missing: seq<Leaf>, current: Json, desired: Json) {
    forall leaf :: leaf in missing <==> IsLeaf(desired, leaf) && !HasPath(current, leaf.path)
  }

  datatype Outcome = Unchanged | Failed | Changed(doc: Json, reencrypted: bool)

  function After(outcome: Outcome, current: Json): Json {
    if outcome.Changed? then outcome.doc else current
  }

  function Wanted(template: Json, host: Option<Json>): Json {
    match host case None => template case Some(overrides) => DeepMerge(template, overrides)
  }

  function Update(wanted: Json, current: Json, force: bool, missing: seq<Leaf>): Outcome
    requires Settable(missing)
  {
    var desired := DeepMerge(wanted, current);
    if !force && current == desired then Unchanged
    else if force then Changed(desired, true)
    else if HasEmptyKey(desired) then Failed
    else if missing != [] then Changed(SetAll(current, missing), false)
    else Changed(desired, true)
  }

  // ------------------------------------------------------------ one value

  lemma {:induction false} SetValueFinds(doc: Json, path: Path, value: Json)
    requires KeysOnly(path)
    ensures ValueAt(SetValue(doc, path, value), path) == Some(value)
    decreases |path|
  {
    if path != [] {
      assert path[0] in path && forall s <- path[1..] :: s in path;
      var members := if doc.Object? then doc.members else map[];
      SetValueFinds(if path[0].name in members then members[path[0].name] else Object(map[]), path[1..], value);
    }
  }

  /** Setting a value adds no more than a fuller document with that value has. */
  lemma {:induction false} SetValueLeast(doc: Json, fuller: Json, path: Path, value: Json)
    requires KeysOnly(path) && Extends(doc, fuller) && ValueAt(fuller, path) == Some(value)
    ensures Extends(SetValue(doc, path, value), fuller)
    decreases |path|
  {
    ExtendsItself(value);
    if path != [] {
      assert path[0] in path && forall s <- path[1..] :: s in path;
      var key, rest := path[0].name, path[1..];
      assert doc.Object? && fuller.Object?;
      if rest != [] {
        SetValueLeast(if key in doc.members then doc.members[key] else Object(map[]), fuller.members[key], rest, value);
      }
    }
  }

  /** Setting a scalar that a fuller document has loses nothing. */
  lemma {:induction false} SetValueKeeps(doc: Json, fuller: Json, path: Path, value: Json)
    requires KeysOnly(path) && Extends(doc, fuller) && ValueAt(fuller, path) == Some(value) && value.Scalar?
    ensures Extends(doc, SetValue(doc, path, value))
    decreases |path|
  {
    ExtendsItself(doc);
    if path != [] {
      assert path[0] in path && forall s <- path[1..] :: s in path;
      var key := path[0].name;
      forall other <- doc.members { ExtendsItself(doc.members[other]); }
      if key in doc.members { SetValueKeeps(doc.members[key], fuller.members[key], path[1..], value); }
    }
  }

  /** The only new paths are those on the way to the value set. */
  lemma {:induction false} SetValueAdds(doc: Json, path: Path, value: Json, other: Path)
    requires KeysOnly(path) && value.Scalar? && doc.Object?
    requires HasPath(SetValue(doc, path, value), other)
    ensures HasPath(doc, other) || other <= path
    decreases |path|, 0
  {
    if path != [] && other != [] {
      assert path[0] in path && forall s <- path[1..] :: s in path;
      var key := path[0].name;
      if other[0] == path[0] && other[1..] != [] {
        var inner := if key in doc.members then doc.members[key] else Object(map[]);
        InnerAdds(inner, path[1..], value, other[1..]);
        if other[1..] <= path[1..] { assert other == [path[0]] + other[1..] && path == [path[0]] + path[1..]; }
      }
    }
  }

  lemma InnerAdds(inner: Json, path: Path, value: Json, other: Path)
    requires KeysOnly(path) && value.Scalar? && other != []
    requires HasPath(SetValue(inner, path, value), other)
    ensures HasPath(inner, other) || other <= path
    decreases |path|, 1
  {
    if inner.Object? {
      SetValueAdds(inner, path, value, other);
    } else if path != [] {
      assert SetValue(inner, path, value) == SetValue(Object(map[]), path, value);
      SetValueAdds(Object(map[]), path, value, other);
    }
  }

  // ------------------------------------------------------------ one run

  lemma {:induction false} SetAllBetween(doc: Json, leaves: seq<Leaf>, fuller: Json)
    requires Settable(leaves) && Extends(doc, fuller) && forall leaf <- leaves :: IsLeaf(fuller, leaf)
    ensures Extends(doc, SetAll(doc, leaves)) && Extends(SetAll(doc, leaves), fuller)
    ensures forall leaf <- leaves :: IsLeaf(SetAll(doc, leaves), leaf)
    decreases |leaves|
  {
    ExtendsItself(doc);
    if leaves != [] {
      var first, rest := leaves[0], leaves[1..];
      assert first in leaves && forall leaf <- rest :: leaf in leaves;
      var next := SetValue(doc, first.path, Scalar(first.value));
      SetValueLeast(doc, fuller, first.path, Scalar(first.value));
      SetValueKeeps(doc, fuller, first.path, Scalar(first.value));
      SetValueFinds(doc, first.path, Scalar(first.value));
      SetAllBetween(next, rest, fuller);
      ExtendsChain(doc, next, SetAll(next, rest));
      ExtendsKeepsValues(next, SetAll(next, rest), first.path);
      assert forall leaf <- leaves :: leaf == first || leaf in rest;
    }
  }

  /** A run that sets leaves keeps all it had, adds nothing undesired, and leaves no leaf missing. */
  lemma LeavesFilled(current: Json, desired: Json, missing: seq<Leaf>)
    requires Extends(current, desired) && Enumerates(missing, current, desired) && Settable(missing)
    ensures Extends(current, SetAll(current, missing)) && Extends(SetAll(current, missing), desired)
    ensures forall leaf :: IsLeaf(desired, leaf) ==> IsLeaf(SetAll(current, missing), leaf)
  {
    SetAllBetween(current, missing, desired);
    forall leaf | IsLeaf(desired, leaf) ensures IsLeaf(SetAll(current, missing), leaf) {
      if HasPath(current, leaf.path) {
        ExtendsKeepsValues(current, SetAll(current, missing), leaf.path);
        ExtendsKeepsValues(SetAll(current, missing), desired, leaf.path);
      }
    }
  }

  /** The order in which the leaves are set makes no difference. */
  lemma OrderIrrelevant(current: Json, desired: Json, a: seq<Leaf>, b: seq<Leaf>)
    requires Extends(current, desired)
    requires Enumerates(a, current, desired) && Enumerates(b, current, desired) && Settable(a) && Settable(b)
    ensures SetAll(current, a) == SetAll(current, b)
  {
    LeavesFilled(current, desired, a);
    LeavesFilled(current, desired, b);
    SetAllBetween(current, a, SetAll(current, b));
    SetAllBetween(current, b, SetAll(current, a));
    ExtendsEachOther(SetAll(current, a), SetAll(current, b));
  }

  /** No run, forced or not, loses or changes an existing value. */
  lemma UpdateKeepsValues(wanted: Json, current: Json, force: bool, missing: seq<Leaf>)
    requires Settable(missing) && Enumerates(missing, current, DeepMerge(wanted, current))
    ensures Extends(current, After(Update(wanted, current, force, missing), current))
    ensures Extends(After(Update(wanted, current, force, missing), current), DeepMerge(wanted, current))
  {
    MergeKeepsOverrides(wanted, current);
    ExtendsItself(DeepMerge(wanted, current));
    ExtendsItself(current);
    LeavesFilled(current, DeepMerge(wanted, current), missing);
    hide DeepMerge, SetAll, Extends, Enumerates, HasEmptyKey, Settable;
  }

  /** The scalar the templates give at a key path: the host's own, or the common one where the host's leaves room. */
  predicate Supplies(template: Json, host: Option<Json>, path: Path, text: string) {
    || (host.Some? && ValueAt(host.value, path) == Some(Scalar(text)))
    || (ValueAt(template, path) == Some(Scalar(text))
        && (host.Some? ==> Open(host.value, path) && !HasPath(host.value, path)))
  }

  lemma WantedSupplies(template: Json, host: Option<Json>, path: Path, text: string)
    requires KeysOnly(path)
    ensures ValueAt(Wanted(template, host), path) == Some(Scalar(text)) <==> Supplies(template, host, path, text)
  {
    if host.Some? { MergedValueAt(template, host.value, path); }
  }

  /** What a completed run leaves: all it had, nothing undesired, and no scalar missing. */
  ghost predicate Complete(current: Json, doc: Json, desired: Json) {
    Extends(current, doc) && Extends(doc, desired) && forall leaf :: IsLeaf(desired, leaf) ==> IsLeaf(doc, leaf)
  }

  /** When a run changes nothing, when it fails, and when it writes the whole document. */
  lemma OutcomeIff(wanted: Json, current: Json, force: bool, missing: seq<Leaf>)
    requires Settable(missing)
    ensures var outcome, desired := Update(wanted, current, force, missing), DeepMerge(wanted, current);
            && (outcome == Unchanged <==> !force && current == desired)
            && (outcome == Failed <==> !force && current != desired && exists path :: LeadsThroughEmptyKey(desired, path))
            && (outcome.Changed? ==> (outcome.reencrypted <==> force || missing == []) && (outcome.reencrypted ==> outcome.doc == desired))
  {
    EmptyKeyIff(DeepMerge(wanted, current));
    hide DeepMerge, HasEmptyKey, SetAll, LeadsThroughEmptyKey;
  }

  lemma CompletedRun(wanted: Json, current: Json, force: bool, missing: seq<Leaf>)
    requires Settable(missing) && Enumerates(missing, current, DeepMerge(wanted, current))
    requires Update(wanted, current, force, missing) != Failed
    ensures Complete(current, After(Update(wanted, current, force, missing), current), DeepMerge(wanted, current))
  {
    MergeKeepsOverrides(wanted, current);
    ExtendsItself(DeepMerge(wanted, current));
    LeavesFilled(current, DeepMerge(wanted, current), missing);
    hide DeepMerge, SetAll, Extends, Enumerates, HasEmptyKey, Settable;
  }

  /** Where the old document leaves room, a completed run leaves exactly the scalars the templates supply. */
  lemma RunSupplies(template: Json, host: Option<Json>, current: Json, doc: Json, path: Path, text: string)
    requires Complete(current, doc, DeepMerge(Wanted(template, host), current))
    requires KeysOnly(path) && Open(current, path) && !HasPath(current, path)
    ensures ValueAt(doc, path) == Some(Scalar(text)) <==> Supplies(template, host, path, text)
  {
    var desired := DeepMerge(Wanted(template, host), current);
    WantedSupplies(template, host, path, text);
    MergedValueAt(Wanted(template, host), current, path);
    if ValueAt(doc, path) == Some(Scalar(text)) { ExtendsKeepsValues(doc, desired, path); }
    assert IsLeaf(desired, Leaf(path, text)) <==> ValueAt(desired, path) == Some(Scalar(text));
    hide Wanted, Supplies, DeepMerge, Open;
  }

  lemma RunSuppliesAll(template: Json, host: Option<Json>, current: Json, doc: Json)
    requires Complete(current, doc, DeepMerge(Wanted(template, host), current))
    ensures forall path, text :: KeysOnly(path) && Open(current, path) && !HasPath(current, path) ==>
              (ValueAt(doc, path) == Some(Scalar(text)) <==> Supplies(template, host, path, text))
  {
    hide Complete, Wanted, DeepMerge;
    forall path, text | KeysOnly(path) && Open(current, path) && !HasPath(current, path)
      ensures ValueAt(doc, path) == Some(Scalar(text)) <==> Supplies(template, host, path, text)
    {
      RunSupplies(template, host, current, doc, path, text);
    }
  }

  // --------------------------------------------------------- several runs

  /** What the templates ask for does not move while runs are made. */
  lemma DesiredIsStable(wanted: Json, current: Json, force: bool, missing: seq<Leaf>)
    requires Settable(missing) && Enumerates(missing, current, DeepMerge(wanted, current))
    ensures DeepMerge(wanted, After(Update(wanted, current, force, missing), current)) == DeepMerge(wanted, current)
  {
    UpdateKeepsValues(wanted, current, force, missing);
    MergeBetween(wanted, current, After(Update(wanted, current, force, missing), current));
  }

  lemma NothingMissing(missing: seq<Leaf>, current: Json, desired: Json)
    requires Enumerates(missing, current, desired)
    ensures (forall leaf :: IsLeaf(desired, leaf) ==> HasPath(current, leaf.path)) ==> missing == []
  {
    if missing != [] { assert missing[0] in missing; }
  }

  /** The second run reaches the merged document. */
  lemma SettledAfterTwo(wanted: Json, current: Json, first: seq<Leaf>, second: seq<Leaf>)
    requires Settable(first) && Settable(second) && !HasEmptyKey(DeepMerge(wanted, current))
    requires Enumerates(first, current, DeepMerge(wanted, current))
    requires var one := After(Update(wanted, current, false, first), current);
             Enumerates(second, one, DeepMerge(wanted, one))
    ensures var one := After(Update(wanted, current, false, first), current);
            After(Update(wanted, one, false, second), one) == DeepMerge(wanted, current)
  {
    var desired := DeepMerge(wanted, current);
    var one := After(Update(wanted, current, false, first), current);
    DesiredIsStable(wanted, current, false, first);
    MergeKeepsOverrides(wanted, current);
    LeavesFilled(current, desired, first);
    assert one == current ==> first == [] || current == desired;
    if one != desired {
      assert forall leaf :: IsLeaf(desired, leaf) ==> HasPath(one, leaf.path);
      NothingMissing(second, one, desired);
    }
  }

  /**
   Unless an empty key stops the run, the second run reaches the merged document
   and every later run reports no change.
   */
  lemma TwoRunsSettle(wanted: Json, current: Json, first: seq<Leaf>, second: seq<Leaf>, third: seq<Leaf>)
    requires Settable(first) && Settable(second) && Settable(third)
    requires Enumerates(first, current, DeepMerge(wanted, current))
    requires var one := After(Update(wanted, current, false, first), current);
             && Enumerates(second, one, DeepMerge(wanted, one))
             && Enumerates(third, After(Update(wanted, one, false, second), one),
                           DeepMerge(wanted, After(Update(wanted, one, false, second), one)))
    requires !HasEmptyKey(DeepMerge(wanted, current))
    ensures var one := After(Update(wanted, current, false, first), current);
            var two := After(Update(wanted, one, false, second), one);
            two == DeepMerge(wanted, current) && Update(wanted, two, false, third) == Unchanged
  {
    SettledAfterTwo(wanted, current, first, second);
    MergeTwice(wanted, current);
  }

  /** Leaves a run had set when it was stopped: some of those the document lacked. */
  ghost predicate SetSoFar(leaves: seq<Leaf>, wanted: Json, current: Json) {
    Settable(leaves) && forall leaf <- leaves :: IsLeaf(DeepMerge(wanted, current), leaf) && !HasPath(current, leaf.path)
  }

  /** A run stopped between two writes leaves a document between the old and the merged one, and asks for the same next time. */
  lemma InterruptedRunKeepsValues(wanted: Json, current: Json, leaves: seq<Leaf>)
    requires SetSoFar(leaves, wanted, current)
    ensures var doc := SetAll(current, leaves);
            && Extends(current, doc) && Extends(doc, DeepMerge(wanted, current))
            && DeepMerge(wanted, doc) == DeepMerge(wanted, current)
  {
    MergeKeepsOverrides(wanted, current);
    SetAllBetween(current, leaves, DeepMerge(wanted, current));
    MergeBetween(wanted, current, SetAll(current, leaves));
  }

  /** The document after any number of runs, each stopped somewhere. */
  ghost predicate Interrupted(wanted: Json, current: Json, stops: seq<seq<Leaf>>, doc: Json)
    decreases |stops|
  {
    if stops == [] then doc == current
    else SetSoFar(stops[0], wanted, current) && Interrupted(wanted, SetAll(current, stops[0]), stops[1..], doc)
  }

  /**
   However many runs were stopped between two writes, no value is lost or
   changed, and what the templates ask for is what it was at the start.
   */
  lemma {:induction false} InterruptedRunsSettle(wanted: Json, current: Json, stops: seq<seq<Leaf>>, doc: Json)
    requires Interrupted(wanted, current, stops, doc)
    ensures Extends(current, doc) && Extends(doc, DeepMerge(wanted, current))
    ensures DeepMerge(wanted, doc) == DeepMerge(wanted, current)
    decreases |stops|
  {
    if stops == [] {
      ExtendsItself(current);
      MergeKeepsOverrides(wanted, current);
    } else {
      var next := SetAll(current, stops[0]);
      InterruptedRunKeepsValues(wanted, current, stops[0]);
      InterruptedRunsSettle(wanted, next, stops[1..], doc);
      ExtendsChain(current, next, doc);
    }
  }

  /** Two complete runs after any interruptions reach the document an uninterrupted start would have. */
  lemma InterruptedThenTwoRuns(wanted: Json, current: Json, stops: seq<seq<Leaf>>, doc: Json,
                               first: seq<Leaf>, second: seq<Leaf>)
    requires Interrupted(wanted, current, stops, doc) && !HasEmptyKey(DeepMerge(wanted, current))
    requires Settable(first) && Settable(second) && Enumerates(first, doc, DeepMerge(wanted, doc))
    requires var one := After(Update(wanted, doc, false, first), doc); Enumerates(second, one, DeepMerge(wanted, one))
    ensures var one := After(Update(wanted, doc, false, first), doc);
            After(Update(wanted, one, false, second), one) == DeepMerge(wanted, current)
  {
    InterruptedRunsSettle(wanted, current, stops, doc);
    SettledAfterTwo(wanted, doc, first, second);
  }

  predicate Empty(doc: Json) { doc == List([]) || doc == Object(map[]) }

  /** A scalar or an empty container: where a document ends. */
  predicate EndsAt(doc: Json, path: Path) {
    HasPath(doc, path) && (ValueAt(doc, path).value.Scalar? || Empty(ValueAt(doc, path).value))
  }

  lemma {:induction false} EndExists(doc: Json) returns (path: Path)
    ensures EndsAt(doc, path)
  {
    match doc
    case Scalar(_) => path := [];
    case List(items) =>
      if items == [] {
        path := [];
      } else {
        var rest := EndExists(items[0]);
        path := [Index(0)] + rest;
        assert path[1..] == rest;
      }
    case Object(members) =>
      if members == map[] {
        path := [];
      } else {
        var key :| key in members;
        var rest := EndExists(members[key]);
        path := [Key(key)] + rest;
        assert path[1..] == rest;
      }
  }

  /** A document that reaches every end of a fuller one is that document. */
  lemma {:induction false} ReachesEveryEnd(doc: Json, fuller: Json)
    requires Extends(doc, fuller) && forall path :: EndsAt(fuller, path) ==> HasPath(doc, path)
    ensures doc == fuller
    decreases doc
  {
    if doc.Object? {
      forall key <- fuller.members ensures key in doc.members && doc.members[key] == fuller.members[key] {
        var rest := EndExists(fuller.members[key]);
        EndBelow(fuller, key, rest);
        assert HasPath(doc, [Key(key)] + rest);
        forall path | EndsAt(fuller.members[key], path) ensures HasPath(doc.members[key], path) {
          EndBelow(fuller, key, path);
          assert HasPath(doc, [Key(key)] + path);
          assert ([Key(key)] + path)[1..] == path;
        }
        ReachesEveryEnd(doc.members[key], fuller.members[key]);
      }
      assert doc.members == fuller.members;
    }
  }

  lemma EndBelow(doc: Json, key: string, path: Path)
    requires doc.Object? && key in doc.members && EndsAt(doc.members[key], path)
    ensures EndsAt(doc, [Key(key)] + path)
  {
  }

  lemma {:induction false} NoEmptyOnTheWay(doc: Json, path: Path, prefix: Path)
    requires prefix <= path && HasPath(doc, path) && ValueAt(doc, path).value.Scalar?
    ensures HasPath(doc, prefix) && !Empty(ValueAt(doc, prefix).value)
    decreases |path|
  {
    if prefix != [] {
      NoEmptyOnTheWay(Step(doc, path[0]).value, path[1..], prefix[1..]);
    }
  }

  lemma {:induction false} SettingAddsNoEmpty(doc: Json, leaves: seq<Leaf>, fuller: Json, path: Path)
    requires doc.Object? && Settable(leaves) && Extends(doc, fuller) && forall leaf <- leaves :: IsLeaf(fuller, leaf)
    requires HasPath(SetAll(doc, leaves), path) && HasPath(fuller, path) && Empty(ValueAt(fuller, path).value)
    ensures HasPath(doc, path)
    decreases |leaves|
  {
    if leaves != [] {
      var first, rest := leaves[0], leaves[1..];
      assert first in leaves && forall leaf <- rest :: leaf in leaves;
      var next := SetValue(doc, first.path, Scalar(first.value));
      SetValueLeast(doc, fuller, first.path, Scalar(first.value));
      SettingAddsNoEmpty(next, rest, fuller, path);
      SetValueAdds(doc, first.path, Scalar(first.value), path);
      if path <= first.path { NoEmptyOnTheWay(fuller, first.path, path); }
    }
  }

  /** A run that sets leaves finishes the job exactly when no empty list or object was missing. */
  lemma OneRunSuffices(current: Json, desired: Json, missing: seq<Leaf>)
    requires current.Object? && Extends(current, desired) && Enumerates(missing, current, desired) && Settable(missing)
    ensures SetAll(current, missing) == desired <==>
            forall path :: HasPath(desired, path) && Empty(ValueAt(desired, path).value) ==> HasPath(current, path)
  {
    LeavesFilled(current, desired, missing);
    var one := SetAll(current, missing);
    if forall path :: HasPath(desired, path) && Empty(ValueAt(desired, path).value) ==> HasPath(current, path) {
      forall path | EndsAt(desired, path) ensures HasPath(one, path) {
        if Empty(ValueAt(desired, path).value) {
          ExtendsKeepsValues(current, one, path);
        } else if path != [] {
          assert IsLeaf(desired, Leaf(path, ValueAt(desired, path).value.text));
        }
      }
      ReachesEveryEnd(one, desired);
    }
    if one == desired {
      forall path | HasPath(desired, path) && Empty(ValueAt(desired, path).value) ensures HasPath(current, path) {
        SettingAddsNoEmpty(current, missing, desired, path);
      }
    }
  }

  // --------------------------------------------------------- the document

  /** The loop that keeps the leaves the document does not have yet. */
  method MissingLeaves(current: Json, leaves: seq<Leaf>) returns (missing: seq<Leaf>)
    ensures forall leaf :: leaf in missing <==> leaf in leaves && !HasPath(current, leaf.path)
  {
    missing := [];
    for i := 0 to |leaves|
      invariant forall leaf :: leaf in missing <==> leaf in leaves[..i] && !HasPath(current, leaf.path)
    {
      var found := FindValue(current, leaves[i].path);
      if found.None? { missing := missing + [leaves[i]]; }
    }
    assert leaves[..|leaves|] == leaves;
  }

  /** A host's secret, read and written in place. */
  class Secret {
    var document: Json

    constructor (initial: Json)
      ensures document == initial
    {
      document := initial;
    }

    method Set(path: Path, value: Json)
      requires KeysOnly(path)
      modifies this
      ensures document == SetValue(old(document), path, value)
    {
      document := SetValue(document, path, value);
    }

    method SetLeaves(missing: seq<Leaf>)
      requires Settable(missing)
      modifies this
      ensures document == SetAll(old(document), missing)
    {
      var i := 0;
      while i < |missing|
        invariant 0 <= i <= |missing| && Settable(missing[i..])
        invariant SetAll(document, missing[i..]) == SetAll(old(document), missing)
      {
        assert missing[i..][0] == missing[i] && missing[i..][1..] == missing[i + 1..];
        assert missing[i] in missing && forall leaf <- missing[i + 1..] :: leaf in missing;
        Set(missing[i].path, Scalar(missing[i].value));
        i := i + 1;
      }
    }

    method Run(template: Json, host: Option<Json>, force: bool) returns (outcome: Outcome)
      requires var desired := DeepMerge(Wanted(template, host), document);
               forall leaf :: IsLeaf(desired, leaf) && !HasPath(document, leaf.path) ==> KeysOnly(leaf.path)
      modifies this
      ensures document == After(outcome, old(document)) && Extends(old(document), document)
      ensures outcome != Failed ==> forall path, text ::
                KeysOnly(path) && Open(old(document), path) && !HasPath(old(document), path) ==>
                  (ValueAt(document, path) == Some(Scalar(text)) <==> Supplies(template, host, path, text))
      ensures var desired := DeepMerge(Wanted(template, host), old(document));
              && (outcome == Unchanged <==> !force && old(document) == desired)
              && (outcome == Failed <==> !force && old(document) != desired && HasEmptyKey(desired))
              && (force ==> outcome == Changed(desired, true))
      ensures !force && outcome.Changed? ==> exists missing ::
                && Settable(missing) && Enumerates(missing, old(document), DeepMerge(Wanted(template, host), old(document)))
                && outcome == Update(Wanted(template, host), old(document), false, missing)
    {
      var current := document;
      var wanted := template;
      if host.Some? { wanted := MergeInto(template, host.value); }
      var desired := MergeInto(wanted, current);
      ExtendsItself(current);
      if !force && current == desired {
        RunSuppliesAll(template, host, current, current);
        return Unchanged;
      }
      if force {
        document := desired;
        MergeKeepsOverrides(wanted, current);
        ExtendsItself(desired);
        RunSuppliesAll(template, host, current, desired);
        return Changed(desired, true);
      }
      var leaves := ScalarLeaves(desired, []);
      if leaves.None? { return Failed; }
      var missing := MissingLeaves(current, leaves.value);
      assert Enumerates(missing, current, desired);
      assert Settable(missing);
      CompletedRun(wanted, current, false, missing);
      hide DeepMerge, Enumerates, HasEmptyKey, Extends, Open, SetAll;
      if missing != [] {
        SetLeaves(missing);
        assert Changed(document, false) == Update(wanted, current, false, missing);
        RunSuppliesAll(template, host, current, document);
        return Changed(document, false);
      }
      document := desired;
      outcome := Changed(desired, true);
      RunSuppliesAll(template, host, current, desired);
    }
  }
}
