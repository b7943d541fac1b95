/**
 Secret documents: looking up key paths, merging template defaults under
 existing values, and bringing a host's secret up to date with its template.
 */
module SecretMerge {
  import opened Common

  /** Scalars stand for null, booleans, numbers and strings. */
  datatype Json = Scalar(text: string) | List(items: seq<Json>) | Object(members: map<string, Json>)
  datatype Segment = Key(name: string) | Index(at: nat)
  type Path = seq<Segment>

  // -------------------------------------------------------------- lookup

  function Step(doc: Json, segment: Segment): Option<Json> {
    match segment
    case Key(name) => if doc.Object? && name in doc.members then Some(doc.members[name]) else None
    case Index(at) => if doc.List? && at < |doc.items| then Some(doc.items[at]) else None
  }

  function ValueAt(doc: Json, path: Path): Option<Json> {
    if path == [] then Some(doc)
    else match Step(doc, path[0]) case None => None case Some(value) => ValueAt(value, path[1..])
  }

  predicate HasPath(doc: Json, path: Path) { ValueAt(doc, path).Some? }

  /** Walking the segments in a loop finds the value the recursion does. */
  method FindValue(document: Json, path: Path) returns (found: Option<Json>)
    ensures found == ValueAt(document, path)
  {
    var current := document;
    var i := 0;
    while i < |path|
      invariant 0 <= i <= |path|
      invariant ValueAt(current, path[i..]) == ValueAt(document, path)
    {
      assert path[i..][0] == path[i] && path[i..][1..] == path[i + 1..];
      match Step(current, path[i]) {
        case None => return None;
        case Some(value) => current := value;
      }
      i := i + 1;
    }
    found := Some(current);
  }

  // --------------------------------------------------------------- merge

  function DeepMerge(defaults: Json, overrides: Json): Json
    decreases overrides
  {
    if defaults.Object? && overrides.Object? then
      Object(map key <- defaults.members.Keys + overrides.members.Keys ::
               if key !in overrides.members then defaults.members[key]
               else if key !in defaults.members then overrides.members[key]
               else DeepMerge(defaults.members[key], overrides.members[key]))
    else overrides
  }

  /** The loop's state: keys still to come hold their default, the others their merged value. */
  ghost predicate PartlyMerged(defaults: Json, overrides: Json, merged: map<string, Json>, todo: set<string>)
    requires defaults.Object? && overrides.Object?
  {
    && todo <= overrides.members.Keys
    && merged.Keys == defaults.members.Keys + (overrides.members.Keys - todo)
    && forall key <- merged ::
      merged[key] == (if key in todo then defaults else DeepMerge(defaults, overrides)).members[key]
  }

  lemma MergeOne(defaults: Json, overrides: Json, merged: map<string, Json>, todo: set<string>, key: string)
    requires defaults.Object? && overrides.Object? && PartlyMerged(defaults, overrides, merged, todo) && key in todo
    ensures var next := if key in merged then DeepMerge(merged[key], overrides.members[key]) else overrides.members[key];
            PartlyMerged(defaults, overrides, merged[key := next], todo - {key})
  {
  }

  lemma AllMerged(defaults: Json, overrides: Json, merged: map<string, Json>)
    requires defaults.Object? && overrides.Object? && PartlyMerged(defaults, overrides, merged, {})
    ensures Object(merged) == DeepMerge(defaults, overrides)
  {
    assert merged == DeepMerge(defaults, overrides).members;
  }

  /** The copy-and-overwrite loop computes that merge, in whatever order it meets the keys. */
  method MergeInto(defaults: Json, overrides: Json) returns (result: Json)
    ensures result == DeepMerge(defaults, overrides)
    decreases overrides
  {
    if !defaults.Object? || !overrides.Object? { return overrides; }
    var merged := defaults.members;
    var todo := overrides.members.Keys;
    assert PartlyMerged(defaults, overrides, merged, todo);
    hide DeepMerge, PartlyMerged;
    while todo != {}
      invariant todo <= overrides.members.Keys && PartlyMerged(defaults, overrides, merged, todo)
      decreases |todo|
    {
      var key :| key in todo;
      MergeOne(defaults, overrides, merged, todo, key);
      if key in merged {
        var value := MergeInto(merged[key], overrides.members[key]);
        merged := merged[key := value];
      } else {
        merged := merged[key := overrides.members[key]];
      }
      todo := todo - {key};
    }
    AllMerged(defaults, overrides, merged);
    result := Object(merged);
  }

  /** `fuller` has everything `doc` has: the same leaves, and objects only grown. */
  predicate Extends(doc: Json, fuller: Json) {
    if doc.Object? then
      fuller.Object? && forall key <- doc.members :: key in fuller.members && Extends(doc.members[key], fuller.members[key])
    else fuller == doc
  }

  lemma {:induction false} ExtendsItself(doc: Json)
    ensures Extends(doc, doc)
  {
    if doc.Object? {
      forall key <- doc.members { ExtendsItself(doc.members[key]); }
    }
  }

  lemma {:induction false} ExtendsEachOther(a: Json, b: Json)
    requires Extends(a, b) && Extends(b, a)
    ensures a == b
  {
    if a.Object? {
      forall key <- a.members ensures a.members[key] == b.members[key] {
        ExtendsEachOther(a.members[key], b.members[key]);
      }
      assert a.members.Keys == b.members.Keys;
      assert a.members == b.members;
    }
  }

  lemma {:induction false} ExtendsChain(a: Json, b: Json, c: Json)
    requires Extends(a, b) && Extends(b, c)
    ensures Extends(a, c)
  {
    if a.Object? {
      forall key <- a.members { ExtendsChain(a.members[key], b.members[key], c.members[key]); }
    }
  }

  /** Nothing the fuller document was grown from is lost or changed. */
  lemma {:induction false} ExtendsKeepsValues(doc: Json, fuller: Json, path: Path)
    requires Extends(doc, fuller) && HasPath(doc, path)
    ensures HasPath(fuller, path) && Extends(ValueAt(doc, path).value, ValueAt(fuller, path).value)
    decreases |path|
  {
    if path != [] {
      if doc.Object? {
        ExtendsKeepsValues(doc.members[path[0].name], fuller.members[path[0].name], path[1..]);
      } else {
        ExtendsItself(ValueAt(doc, path).value);
      }
    }
  }

  /** Defaults never displace an existing value. */
  lemma {:induction false} MergeKeepsOverrides(defaults: Json, overrides: Json)
    ensures Extends(overrides, DeepMerge(defaults, overrides))
    decreases overrides
  {
    if defaults.Object? && overrides.Object? {
      forall key <- overrides.members
        ensures Extends(overrides.members[key], DeepMerge(defaults, overrides).members[key])
      {
        ExtendsItself(overrides.members[key]);
        if key in defaults.members { MergeKeepsOverrides(defaults.members[key], overrides.members[key]); }
      }
    } else {
      ExtendsItself(overrides);
    }
  }

  predicate KeysOnly(path: Path) { forall s <- path :: s.Key? }

  /** Nothing but objects on the way down `path`, as far as the document goes. */
  predicate Open(doc: Json, path: Path) {
    path == [] || (doc.Object? && (Step(doc, path[0]).Some? ==> Open(Step(doc, path[0]).value, path[1..])))
  }

  /**
   What stands at a key path after a merge: the two values merged, whichever one
   exists, or nothing where an existing non-object cuts the default off.
   */
  lemma {:induction false} MergedValueAt(defaults: Json, overrides: Json, path: Path)
    requires KeysOnly(path)
    ensures var d, o := ValueAt(defaults, path), ValueAt(overrides, path);
            ValueAt(DeepMerge(defaults, overrides), path) ==
            if o.Some? then (if d.Some? then Some(DeepMerge(d.value, o.value)) else o)
            else if Open(overrides, path) then d else None
    decreases |path|
  {
    if path != [] {
      assert path[0] in path && forall s <- path[1..] :: s in path;
      var key, rest := path[0].name, path[1..];
      if defaults.Object? && overrides.Object? && key in defaults.members && key in overrides.members {
        MergedValueAt(defaults.members[key], overrides.members[key], rest);
      }
    }
  }

  /** A document that already holds all of its defaults is left alone. */
  lemma {:induction false} MergeAbsorbs(defaults: Json, doc: Json)
    requires Extends(doc, defaults)
    ensures DeepMerge(defaults, doc) == defaults
    decreases doc
  {
    if doc.Object? {
      forall key <- doc.members ensures DeepMerge(defaults.members[key], doc.members[key]) == defaults.members[key] {
        MergeAbsorbs(defaults.members[key], doc.members[key]);
      }
      assert DeepMerge(defaults, doc).members == defaults.members;
    }
  }

  /** Any document between the old one and the merged one merges to the same result. */
  lemma {:induction false} MergeBetween(defaults: Json, doc: Json, between: Json)
    requires Extends(doc, between) && Extends(between, DeepMerge(defaults, doc))
    ensures DeepMerge(defaults, between) == DeepMerge(defaults, doc)
    decreases doc
  {
    var goal := DeepMerge(defaults, doc);
    if !defaults.Object? || !doc.Object? {
      ExtendsEachOther(doc, between);
    } else {
      forall key | key in defaults.members.Keys + between.members.Keys
        ensures key in goal.members && DeepMerge(defaults, between).members[key] == goal.members[key]
      {
        if key in between.members {
          if key in doc.members {
            if key in defaults.members {
              MergeBetween(defaults.members[key], doc.members[key], between.members[key]);
            } else {
              ExtendsEachOther(doc.members[key], between.members[key]);
            }
          } else {
            MergeAbsorbs(defaults.members[key], between.members[key]);
          }
        }
      }
      assert DeepMerge(defaults, between).members == goal.members;
    }
  }

  /** Merging the same defaults again changes nothing. */
  lemma MergeTwice(defaults: Json, doc: Json)
    ensures DeepMerge(defaults, DeepMerge(defaults, doc)) == DeepMerge(defaults, doc)
  {
    MergeKeepsOverrides(defaults, doc);
    ExtendsItself(DeepMerge(defaults, doc));
    MergeBetween(defaults, doc, DeepMerge(defaults, doc));
  }

  // -------------------------------------------------------------- leaves

  datatype Leaf = Leaf(path: Path, value: string)

  predicate IsLeaf(doc: Json, leaf: Leaf) {
    leaf.path != [] && ValueAt(doc, leaf.path) == Some(Scalar(leaf.value))
  }

  predicate HasEmptyKey(doc: Json) {
    match doc
    case Scalar(_) => false
    case List(items) => exists item <- items :: HasEmptyKey(item)
    case Object(members) => exists key <- members :: key == "" || HasEmptyKey(members[key])
  }

  /** A path of the document with an empty key on it. */
  ghost predicate LeadsThroughEmptyKey(doc: Json, path: Path) { HasPath(doc, path) && Key("") in path }

  /** A document has an empty key exactly when one of its paths goes through one. */
  lemma {:induction false} EmptyKeyIff(doc: Json)
    ensures HasEmptyKey(doc) <==> exists path :: LeadsThroughEmptyKey(doc, path)
  {
    if HasEmptyKey(doc) { var path := EmptyKeyFound(doc); assert LeadsThroughEmptyKey(doc, path); }
    forall path | LeadsThroughEmptyKey(doc, path) ensures HasEmptyKey(doc) { EmptyKeyMet(doc, path); }
  }

  lemma {:induction false} EmptyKeyFound(doc: Json) returns (path: Path)
    requires HasEmptyKey(doc)
    ensures LeadsThroughEmptyKey(doc, path)
  {
    match doc
    case List(items) =>
      var i :| 0 <= i < |items| && HasEmptyKey(items[i]);
      var rest := EmptyKeyFound(items[i]);
      path := [Index(i)] + rest;
      assert path[1..] == rest;
    case Object(members) =>
      var key :| key in members && (key == "" || HasEmptyKey(members[key]));
      var rest: Path := [];
      if key != "" { rest := EmptyKeyFound(members[key]); }
      path := [Key(key)] + rest;
      assert path[0] == Key(key) && path[1..] == rest;
  }

  lemma {:induction false} EmptyKeyMet(doc: Json, path: Path)
    requires LeadsThroughEmptyKey(doc, path)
    ensures HasEmptyKey(doc)
    decreases |path|
  {
    if path[0] != Key("") { EmptyKeyMet(Step(doc, path[0]).value, path[1..]); }
  }

  ghost predicate LeafBelow(doc: Json, path: Path, leaf: Leaf) {
    path <= leaf.path && ValueAt(doc, leaf.path[|path|..]) == Some(Scalar(leaf.value)) && leaf.path != []
  }

  lemma LeafBelowStep(doc: Json, path: Path, leaf: Leaf)
    requires !doc.Scalar?
    ensures LeafBelow(doc, path, leaf) <==>
            && path < leaf.path && Step(doc, leaf.path[|path|]).Some?
            && LeafBelow(Step(doc, leaf.path[|path|]).value, path + [leaf.path[|path|]], leaf)
  {
  }

  /**
   Collecting the scalar leaves fails exactly on an empty key; otherwise the
   list is exactly the scalars and where they stand.
   */
  method ScalarLeaves(value: Json, path: Path) returns (leaves: Option<seq<Leaf>>)
    ensures leaves.None? <==> HasEmptyKey(value)
    ensures leaves.Some? ==> forall leaf :: leaf in leaves.value <==> LeafBelow(value, path, leaf)
    decreases value
  {
    match value {
      case Scalar(text) =>
        assert forall leaf :: LeafBelow(value, path, leaf) ==> leaf.path[|path|..] == [] && leaf.path == path;
        return Some(if path == [] then [] else [Leaf(path, text)]);
      case List(items) =>
        var all: seq<Leaf> := [];
        for i := 0 to |items|
          invariant forall item <- items[..i] :: !HasEmptyKey(item)
          invariant forall leaf :: leaf in all <==>
            LeafBelow(value, path, leaf) && leaf.path[|path|].Index? && leaf.path[|path|].at < i
        {
          var more := ScalarLeaves(items[i], path + [Index(i)]);
          if more.None? { assert items[i] in items; return None; }
          forall leaf: Leaf { LeafBelowStep(value, path, leaf); }
          all := all + more.value;
        }
        leaves := Some(all);
      case Object(members) =>
        var all: seq<Leaf> := [];
        var todo := members.Keys;
        while todo != {}
          invariant todo <= members.Keys
          invariant forall key <- members.Keys - todo :: key != "" && !HasEmptyKey(members[key])
          invariant forall leaf :: leaf in all <==>
            LeafBelow(value, path, leaf) && leaf.path[|path|].Key? && leaf.path[|path|].name !in todo
          decreases |todo|
        {
          var key :| key in todo;
          if key == "" { return None; }
          var more := ScalarLeaves(members[key], path + [Key(key)]);
          if more.None? { return None; }
          forall leaf: Leaf { LeafBelowStep(value, path, leaf); }
          all := all + more.value;
          todo := todo - {key};
        }
        leaves := Some(all);
    }
  }
}
