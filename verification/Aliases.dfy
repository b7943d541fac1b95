/**
 Short aliases for the opaque ids of a repair case: building the alias table,
 rewriting an encoded case with it, and undoing that on the reply.
 */
module Aliases {
  import opened Common
  import OpaqueIdentity

  datatype Value = Text(text: string) | Other(raw: string) | Array(items: seq<Value>) | Object(fields: seq<Field>)
  datatype Field = Field(key: string, value: Value)

  type Table = map<string, string>

  function Lookup(table: Table, s: string): string { if s in table then table[s] else s }

  // --------------------------------------------------------- rewriting

  function Transform(v: Value, table: Table, omitted: set<string>): Value {
    match v
    case Text(s) => Text(Lookup(table, s))
    case Other(_) => v
    case Array(items) => Array(TransformItems(items, table, omitted))
    case Object(fields) => Object(TransformFields(fields, table, omitted))
  }

  function TransformItems(items: seq<Value>, table: Table, omitted: set<string>): (r: seq<Value>)
    ensures |r| == |items|
  {
    if items == [] then []
    else [Transform(items[0], table, omitted)] + TransformItems(items[1..], table, omitted)
  }

  function TransformFields(fields: seq<Field>, table: Table, omitted: set<string>): (r: seq<Field>)
    ensures |r| <= |fields|
  {
    if fields == [] then []
    else
      var rest := TransformFields(fields[1..], table, omitted);
      if fields[0].key in omitted then rest
      else [Field(fields[0].key, Transform(fields[0].value, table, omitted))] + rest
  }

  /** One step into a value. */
  datatype Step = Member(key: string) | Item(at: nat)

  /** The first field with that key. */
  function FieldValue(fields: seq<Field>, key: string): Option<Value> {
    if fields == [] then None
    else if fields[0].key == key then Some(fields[0].value)
    else FieldValue(fields[1..], key)
  }

  function At(v: Value, path: seq<Step>): Option<Value>
    decreases |path|
  {
    if path == [] then Some(v)
    else
      match path[0]
      case Item(i) => if v.Array? && i < |v.items| then At(v.items[i], path[1..]) else None
      case Member(key) =>
        if !v.Object? then None
        else match FieldValue(v.fields, key) case None => None case Some(w) => At(w, path[1..])
  }

  predicate Shown(path: seq<Step>, omitted: set<string>) { forall s <- path :: s.Member? ==> s.key !in omitted }

  /** What the projection shows: the rewritten value at every path with no omitted key, and nothing anywhere else. */
  lemma {:induction false} TransformAt(v: Value, table: Table, omitted: set<string>, path: seq<Step>)
    ensures At(Transform(v, table, omitted), path)
         == match At(v, path)
            case None => None
            case Some(w) => if Shown(path, omitted) then Some(Transform(w, table, omitted)) else None
    decreases |path|
  {
    if path != [] {
      assert path[0] in path && forall s <- path :: s == path[0] || s in path[1..];
      match path[0]
      case Item(i) =>
        if v.Array? && i < |v.items| {
          ItemTransformed(v.items, table, omitted, i);
          TransformAt(v.items[i], table, omitted, path[1..]);
        }
      case Member(key) =>
        if v.Object? {
          FieldTransformed(v.fields, table, omitted, key);
          var w := FieldValue(v.fields, key);
          if w.Some? { TransformAt(w.value, table, omitted, path[1..]); }
        }
    }
  }

  lemma {:induction false} ItemTransformed(items: seq<Value>, table: Table, omitted: set<string>, i: nat)
    requires i < |items|
    ensures TransformItems(items, table, omitted)[i] == Transform(items[i], table, omitted)
  {
    if i > 0 { ItemTransformed(items[1..], table, omitted, i - 1); }
  }

  lemma {:induction false} FieldTransformed(fields: seq<Field>, table: Table, omitted: set<string>, key: string)
    ensures FieldValue(TransformFields(fields, table, omitted), key)
         == if key in omitted || FieldValue(fields, key).None? then None
            else Some(Transform(FieldValue(fields, key).value, table, omitted))
  {
    if fields != [] {
      FieldTransformed(fields[1..], table, omitted, key);
      hide Transform;
      var rest := TransformFields(fields[1..], table, omitted);
      if fields[0].key !in omitted {
        var there := TransformFields(fields, table, omitted);
        assert there == [Field(fields[0].key, Transform(fields[0].value, table, omitted))] + rest;
        assert there[0].key == fields[0].key && there[1..] == rest;
      }
    }
  }

  /** Fields are rewritten one by one and keep their order. */
  lemma {:induction false} FieldsInOrder(a: seq<Field>, b: seq<Field>, table: Table, omitted: set<string>)
    ensures TransformFields(a + b, table, omitted) == TransformFields(a, table, omitted) + TransformFields(b, table, omitted)
    ensures |a| == 1 ==> TransformFields(a, table, omitted)
                         == if a[0].key in omitted then [] else [Field(a[0].key, Transform(a[0].value, table, omitted))]
  {
    if a == [] {
      assert a + b == b;
    } else {
      assert (a + b)[0] == a[0] && (a + b)[1..] == a[1..] + b;
      FieldsInOrder(a[1..], b, table, omitted);
      hide Transform;
    }
  }

  predicate Injective(table: Table) {
    forall a, b :: a in table && b in table && table[a] == table[b] ==> a == b
  }

  /** The table read backwards. */
  ghost function Canonical(table: Table): (canonical: Table)
    requires Injective(table)
    ensures forall s <- table :: table[s] in canonical && canonical[table[s]] == s
    ensures forall alias <- canonical :: canonical[alias] in table && table[canonical[alias]] == alias
  {
    map s | s in table :: table[s] := s
  }

  ghost predicate PartlyInverted(table: Table, canonical: Table, done: set<string>) {
    && done <= table.Keys
    && (forall s <- done :: table[s] in canonical)
    && (forall alias <- canonical :: canonical[alias] in table && table[canonical[alias]] == alias)
  }

  lemma InvertOne(table: Table, canonical: Table, done: set<string>, s: string)
    requires PartlyInverted(table, canonical, done) && s in table
    ensures PartlyInverted(table, canonical[table[s] := s], done + {s})
  {
  }

  /** Reading any table backwards: an alias given to several ids leads to one of them. */
  method Invert(table: Table) returns (canonical: Table)
    ensures canonical.Keys == table.Values
    ensures forall alias <- canonical :: canonical[alias] in table && table[canonical[alias]] == alias
    ensures Injective(table) ==> canonical == Canonical(table)
  {
    canonical := map[];
    var todo := table.Keys;
    assert PartlyInverted(table, canonical, table.Keys - todo);
    hide Injective, Canonical, PartlyInverted;
    while todo != {}
      invariant todo <= table.Keys && PartlyInverted(table, canonical, table.Keys - todo)
      decreases |todo|
    {
      var s :| s in todo;
      InvertOne(table, canonical, table.Keys - todo, s);
      assert table.Keys - todo + {s} == table.Keys - (todo - {s});
      canonical := canonical[table[s] := s];
      todo := todo - {s};
    }
    assert table.Keys - todo == table.Keys;
    Inverted(table, canonical);
  }

  lemma Inverted(table: Table, inverse: Table)
    requires PartlyInverted(table, inverse, table.Keys)
    ensures inverse.Keys == table.Values
    ensures forall alias <- inverse :: inverse[alias] in table && table[inverse[alias]] == alias
    ensures Injective(table) ==> inverse == Canonical(table)
  {
    if Injective(table) {
      var canonical := Canonical(table);
      assert forall alias <- inverse :: alias in canonical && canonical[alias] == inverse[alias];
      assert forall alias <- canonical :: alias in inverse;
    }
  }

  /** A text survives the trip exactly when it is an id with an alias, or no alias. */
  predicate TextRestorable(s: string, table: Table) { s in table || s !in table.Values }

  predicate Restorable(v: Value, table: Table, omitted: set<string>) {
    match v
    case Text(s) => TextRestorable(s, table)
    case Other(_) => true
    case Array(items) => forall item <- items :: Restorable(item, table, omitted)
    case Object(fields) => forall f <- fields :: f.key !in omitted && Restorable(f.value, table, omitted)
  }

  lemma TextRoundTrip(s: string, table: Table)
    requires Injective(table)
    ensures Lookup(Canonical(table), Lookup(table, s)) == s <==> TextRestorable(s, table)
  {
  }

  /** Restoring undoes projecting on exactly the values in which nothing is omitted or mistaken for an alias. */
  lemma {:induction false} RoundTrip(v: Value, table: Table, omitted: set<string>)
    requires Injective(table)
    ensures Transform(Transform(v, table, omitted), Canonical(table), {}) == v <==> Restorable(v, table, omitted)
  {
    match v
    case Text(s) => TextRoundTrip(s, table);
    case Other(_) =>
    case Array(items) => ItemsRoundTrip(items, table, omitted);
    case Object(fields) => FieldsRoundTrip(fields, table, omitted);
  }

  lemma {:induction false} ItemsRoundTrip(items: seq<Value>, table: Table, omitted: set<string>)
    requires Injective(table)
    ensures TransformItems(TransformItems(items, table, omitted), Canonical(table), {}) == items
       <==> forall item <- items :: Restorable(item, table, omitted)
  {
    if items != [] {
      RoundTrip(items[0], table, omitted);
      ItemsRoundTrip(items[1..], table, omitted);
      hide Restorable, Canonical;
      var there := TransformItems(items, table, omitted);
      var back := TransformItems(there, Canonical(table), {});
      assert there[1..] == TransformItems(items[1..], table, omitted);
      assert back[1..] == TransformItems(there[1..], Canonical(table), {});
      assert items == [items[0]] + items[1..] && back == [back[0]] + back[1..];
      assert items[0] in items && forall item <- items :: item == items[0] || item in items[1..];
    }
  }

  lemma {:induction false} FieldsShorter(fields: seq<Field>, table: Table, omitted: set<string>, again: Table)
    ensures |TransformFields(TransformFields(fields, table, omitted), again, {})| <= |fields|
  {
  }

  lemma {:induction false} FieldsRoundTrip(fields: seq<Field>, table: Table, omitted: set<string>)
    requires Injective(table)
    ensures TransformFields(TransformFields(fields, table, omitted), Canonical(table), {}) == fields
       <==> forall f <- fields :: f.key !in omitted && Restorable(f.value, table, omitted)
  {
    if fields != [] {
      var first, rest := fields[0], fields[1..];
      RoundTrip(first.value, table, omitted);
      FieldsRoundTrip(rest, table, omitted);
      FieldsShorter(rest, table, omitted, Canonical(table));
      hide Restorable, Canonical;
      assert first in fields && forall f <- fields :: f == first || f in rest;
      assert fields == [first] + rest;
      if first.key !in omitted {
        var there := TransformFields(fields, table, omitted);
        var back := TransformFields(there, Canonical(table), {});
        assert there[1..] == TransformFields(rest, table, omitted);
        assert back == [back[0]] + back[1..] && back[1..] == TransformFields(there[1..], Canonical(table), {});
      }
    }
  }

  // ------------------------------------------------------- evidence ids

  /** Evidence ids in first-seen order, each once, after those already collected. */
  function Collect(v: Value, ids: seq<string>): seq<string> {
    match v
    case Text(_) => ids
    case Other(_) => ids
    case Array(items) => CollectItems(items, ids)
    case Object(fields) => CollectFields(fields, ids)
  }

  function CollectItems(items: seq<Value>, ids: seq<string>): seq<string>
    decreases items
  {
    if items == [] then ids else CollectItems(items[1..], Collect(items[0], ids))
  }

  function Note(f: Field, ids: seq<string>): seq<string> {
    if f.key == "evidence_id" && f.value.Text? && f.value.text !in ids then ids + [f.value.text] else ids
  }

  function CollectFields(fields: seq<Field>, ids: seq<string>): seq<string>
    decreases fields
  {
    if fields == [] then ids else CollectFields(fields[1..], Collect(fields[0].value, Note(fields[0], ids)))
  }

  predicate Evidence(v: Value, id: string) {
    match v
    case Text(_) => false
    case Other(_) => false
    case Array(items) => exists item <- items :: Evidence(item, id)
    case Object(fields) => exists f <- fields :: (f.key == "evidence_id" && f.value == Text(id)) || Evidence(f.value, id)
  }

  predicate NoRepeats(ids: seq<string>) { forall i, j :: 0 <= i < j < |ids| ==> ids[i] != ids[j] }

  /** Collecting finds exactly the evidence ids, wherever they are nested, and none twice. */
  lemma {:induction false} CollectExact(v: Value, ids: seq<string>, id: string)
    ensures id in Collect(v, ids) <==> id in ids || Evidence(v, id)
    ensures NoRepeats(ids) ==> NoRepeats(Collect(v, ids))
    decreases v, 1
  {
    match v
    case Text(_) =>
    case Other(_) =>
    case Array(items) => CollectItemsExact(items, ids, id);
    case Object(fields) => CollectFieldsExact(fields, ids, id);
  }

  lemma {:induction false} CollectItemsExact(items: seq<Value>, ids: seq<string>, id: string)
    ensures id in CollectItems(items, ids) <==> id in ids || exists item <- items :: Evidence(item, id)
    ensures NoRepeats(ids) ==> NoRepeats(CollectItems(items, ids))
    decreases items
  {
    if items != [] {
      CollectExact(items[0], ids, id);
      CollectItemsExact(items[1..], Collect(items[0], ids), id);
      assert items[0] in items && forall item <- items :: item == items[0] || item in items[1..];
    }
  }

  lemma {:induction false} CollectFieldsExact(fields: seq<Field>, ids: seq<string>, id: string)
    ensures id in CollectFields(fields, ids) 
       <==> id in ids || Evidence(Object(fields), id)
    ensures NoRepeats(ids) ==> NoRepeats(CollectFields(fields, ids))
    decreases fields
  {
    if fields != [] {
      CollectExact(fields[0].value, Note(fields[0], ids), id);
      CollectFieldsExact(fields[1..], Collect(fields[0].value, Note(fields[0], ids)), id);
      assert fields[0] in fields && forall f <- fields :: f == fields[0] || f in fields[1..];
    }
  }

  /** Ids are only ever appended, and every value appends its own after those of the values before it. */
  lemma {:induction false} CollectAppends(v: Value, ids: seq<string>)
    ensures ids <= Collect(v, ids)
    decreases v, 1
  {
    match v
    case Text(_) =>
    case Other(_) =>
    case Array(items) => CollectItemsInOrder(items, [], ids);
    case Object(fields) => CollectFieldsInOrder(fields, [], ids);
  }

  lemma {:induction false} CollectItemsInOrder(a: seq<Value>, b: seq<Value>, ids: seq<string>)
    ensures ids <= CollectItems(a, ids) && CollectItems(a + b, ids) == CollectItems(b, CollectItems(a, ids))
    decreases a
  {
    if a == [] {
      assert a + b == b;
    } else {
      assert (a + b)[0] == a[0] && (a + b)[1..] == a[1..] + b;
      CollectAppends(a[0], ids);
      CollectItemsInOrder(a[1..], b, Collect(a[0], ids));
    }
  }

  lemma {:induction false} CollectFieldsInOrder(a: seq<Field>, b: seq<Field>, ids: seq<string>)
    ensures ids <= CollectFields(a, ids) && CollectFields(a + b, ids) == CollectFields(b, CollectFields(a, ids))
    decreases a
  {
    if a == [] {
      assert a + b == b;
    } else {
      assert (a + b)[0] == a[0] && (a + b)[1..] == a[1..] + b;
      CollectAppends(a[0].value, Note(a[0], ids));
      CollectFieldsInOrder(a[1..], b, Collect(a[0].value, Note(a[0], ids)));
    }
  }

  /** The list the nested calls append to. */
  class EvidenceList {
    var identifiers: seq<string>

    constructor ()
      ensures identifiers == []
    {
      identifiers := [];
    }

    method Gather(v: Value)
      modifies this
      ensures identifiers == Collect(v, old(identifiers))
      decreases v
    {
      match v {
        case Object(fields) =>
          var i := 0;
          while i < |fields|
            invariant 0 <= i <= |fields|
            invariant CollectFields(fields[i..], identifiers) == CollectFields(fields, old(identifiers))
          {
            var f := fields[i];
            assert fields[i..][1..] == fields[i + 1..];
            if f.key == "evidence_id" && f.value.Text? && f.value.text !in identifiers {
              identifiers := identifiers + [f.value.text];
            }
            Gather(f.value);
            i := i + 1;
          }
        case Array(items) =>
          var i := 0;
          while i < |items|
            invariant 0 <= i <= |items|
            invariant CollectItems(items[i..], identifiers) == CollectItems(items, old(identifiers))
          {
            assert items[i..][1..] == items[i + 1..];
            Gather(items[i]);
            i := i + 1;
          }
        case Text(_) =>
        case Other(_) =>
      }
    }
  }

  // ---------------------------------------------------------- the table

  datatype Pair = Pair(id: string, alias: string)

  function ZeroDigits(n: nat): string { if n == 0 then "" else "0" + ZeroDigits(n - 1) }

  function ModelCaseId(): string { "sha256:" + ZeroDigits(64) }

  function Alias(kind: string, i: nat): string { kind + OpaqueIdentity.Itoa(i) }

  function Numbered(kind: string, ids: seq<string>, from: nat): (r: seq<Pair>)
    ensures |r| == |ids|
    ensures forall i :: 0 <= i < |ids| ==> r[i] == Pair(ids[i], Alias(kind, from + i))
    decreases |ids|
  {
    if ids == [] then [] else [Pair(ids[0], Alias(kind, from))] + Numbered(kind, ids[1..], from + 1)
  }

  /** The assignments in the order they are made. */
  function Assignments(caseId: string, files: seq<string>, capabilities: seq<string>, evidence: seq<string>): seq<Pair> {
    [Pair(caseId, ModelCaseId())] + Numbered("file:", files, 1) + Numbered("capability:", capabilities, 1)
    + Numbered("evidence:", evidence, 1)
  }

  function Assign(table: Table, pairs: seq<Pair>): Table
    decreases |pairs|
  {
    if pairs == [] then table else Assign(table[pairs[0].id := pairs[0].alias], pairs[1..])
  }

  lemma {:induction false} AssignSource(table: Table, pairs: seq<Pair>, id: string)
    ensures id in Assign(table, pairs) <==> id in table || exists p <- pairs :: p.id == id
    ensures id in Assign(table, pairs) ==>
            (id in table && Assign(table, pairs)[id] == table[id]) || Pair(id, Assign(table, pairs)[id]) in pairs
    decreases |pairs|
  {
    if pairs != [] {
      AssignSource(table[pairs[0].id := pairs[0].alias], pairs[1..], id);
      assert pairs[0] in pairs && forall p <- pairs :: p == pairs[0] || p in pairs[1..];
    }
  }

  /** An id assigned several times keeps its last alias. */
  lemma {:induction false} LastAssignmentWins(table: Table, pairs: seq<Pair>, i: nat)
    requires i < |pairs| && forall j :: i < j < |pairs| ==> pairs[j].id != pairs[i].id
    ensures pairs[i].id in Assign(table, pairs) && Assign(table, pairs)[pairs[i].id] == pairs[i].alias
    decreases |pairs|
  {
    var next := table[pairs[0].id := pairs[0].alias];
    if i > 0 {
      LastAssignmentWins(next, pairs[1..], i - 1);
    } else {
      AssignSource(next, pairs[1..], pairs[0].id);
      assert forall p <- pairs[1..] :: p.id != pairs[0].id;
    }
  }

  /** The alias each id of a case is given: by its kind and its place, the last one if it is listed more than once. */
  lemma CaseAlias(caseId: string, files: seq<string>, capabilities: seq<string>, evidence: seq<string>)
    requires caseId !in files && caseId !in capabilities && caseId !in evidence
    ensures var table := Assign(map[], Assignments(caseId, files, capabilities, evidence));
            caseId in table && table[caseId] == "sha256:" + ZeroDigits(64)
  {
    var one := [Pair(caseId, ModelCaseId())];
    var f, c, e := Numbered("file:", files, 1), Numbered("capability:", capabilities, 1), Numbered("evidence:", evidence, 1);
    assert Assignments(caseId, files, capabilities, evidence) == one + f + c + e;
    hide Assign, Numbered, Assignments, ZeroDigits;
    LastAssignmentWins(map[], one + f + c + e, 0);
  }

  lemma FileAlias(caseId: string, files: seq<string>, capabilities: seq<string>, evidence: seq<string>, i: nat)
    requires i < |files| && files[i] !in files[i + 1..] && files[i] !in capabilities && files[i] !in evidence
    ensures var table := Assign(map[], Assignments(caseId, files, capabilities, evidence));
            files[i] in table && table[files[i]] == "file:" + OpaqueIdentity.Itoa(i + 1)
  {
    var one := [Pair(caseId, ModelCaseId())];
    var f, c, e := Numbered("file:", files, 1), Numbered("capability:", capabilities, 1), Numbered("evidence:", evidence, 1);
    assert Assignments(caseId, files, capabilities, evidence) == one + f + c + e;
    hide Assign, Numbered, Assignments, OpaqueIdentity.Itoa, ModelCaseId;
    Regroup(one + f, c, e);
    NotIn(c, e, files[i]);
    NumberedAlias(one, "file:", files, c + e, i);
  }

  lemma CapabilityAlias(caseId: string, files: seq<string>, capabilities: seq<string>, evidence: seq<string>, i: nat)
    requires i < |capabilities| && capabilities[i] !in capabilities[i + 1..] && capabilities[i] !in evidence
    ensures var table := Assign(map[], Assignments(caseId, files, capabilities, evidence));
            capabilities[i] in table && table[capabilities[i]] == "capability:" + OpaqueIdentity.Itoa(i + 1)
  {
    var one := [Pair(caseId, ModelCaseId())];
    var f, c, e := Numbered("file:", files, 1), Numbered("capability:", capabilities, 1), Numbered("evidence:", evidence, 1);
    assert Assignments(caseId, files, capabilities, evidence) == one + f + c + e;
    hide Assign, Numbered, Assignments, OpaqueIdentity.Itoa, ModelCaseId;
    NumberedAlias(one + f, "capability:", capabilities, e, i);
  }

  lemma EvidenceAlias(caseId: string, files: seq<string>, capabilities: seq<string>, evidence: seq<string>, i: nat)
    requires i < |evidence| && evidence[i] !in evidence[i + 1..]
    ensures var table := Assign(map[], Assignments(caseId, files, capabilities, evidence));
            evidence[i] in table && table[evidence[i]] == "evidence:" + OpaqueIdentity.Itoa(i + 1)
  {
    var one := [Pair(caseId, ModelCaseId())];
    var f, c, e := Numbered("file:", files, 1), Numbered("capability:", capabilities, 1), Numbered("evidence:", evidence, 1);
    assert Assignments(caseId, files, capabilities, evidence) == one + f + c + e;
    hide Assign, Numbered, Assignments, OpaqueIdentity.Itoa, ModelCaseId;
    assert one + f + c + e == one + f + c + e + [];
    NumberedAlias(one + f + c, "evidence:", evidence, [], i);
  }

  lemma Regroup(a: seq<Pair>, b: seq<Pair>, c: seq<Pair>)
    ensures a + b + c == a + (b + c)
  {
  }

  lemma NotIn(a: seq<Pair>, b: seq<Pair>, id: string)
    requires (forall i :: 0 <= i < |a| ==> a[i].id != id) && forall i :: 0 <= i < |b| ==> b[i].id != id
    ensures forall p <- a + b :: p.id != id
  {
  }

  /** An id in a numbered block that nothing later assigns again. */
  lemma NumberedAlias(before: seq<Pair>, kind: string, ids: seq<string>, after: seq<Pair>, i: nat)
    requires i < |ids| && ids[i] !in ids[i + 1..] && forall p <- after :: p.id != ids[i]
    ensures var table := Assign(map[], before + Numbered(kind, ids, 1) + after);
            ids[i] in table && table[ids[i]] == kind + OpaqueIdentity.Itoa(i + 1)
  {
    var block := Numbered(kind, ids, 1);
    var pairs := before + block + after;
    var at := |before| + i;
    assert pairs[at] == block[i] && forall j :: i < j < |ids| ==> ids[j] == ids[i + 1..][j - i - 1];
    hide Numbered, Assign, OpaqueIdentity.Itoa;
    forall j | at < j < |pairs| ensures pairs[j].id != ids[i] {
      if j < |before| + |ids| { assert pairs[j] == block[j - |before|]; } else { assert pairs[j] in after; }
    }
    LastAssignmentWins(map[], pairs, at);
  }

  predicate DistinctAliases(pairs: seq<Pair>) {
    forall i, j :: 0 <= i < j < |pairs| ==> pairs[i].alias != pairs[j].alias
  }

  /** Aliases given out once each make the table injective, whatever ids repeat. */
  lemma AssignInjective(pairs: seq<Pair>)
    requires DistinctAliases(pairs)
    ensures Injective(Assign(map[], pairs))
  {
    var table := Assign(map[], pairs);
    forall a, b | a in table && b in table && table[a] == table[b] ensures a == b {
      AssignSource(map[], pairs, a);
      AssignSource(map[], pairs, b);
      var i :| 0 <= i < |pairs| && pairs[i] == Pair(a, table[a]);
      var j :| 0 <= j < |pairs| && pairs[j] == Pair(b, table[b]);
    }
  }

  lemma AliasInjective(kind: string, i: nat, j: nat)
    ensures Alias(kind, i) == Alias(kind, j) ==> i == j
  {
    assert Alias(kind, i)[|kind|..] == OpaqueIdentity.Itoa(i) && Alias(kind, j)[|kind|..] == OpaqueIdentity.Itoa(j);
    if Alias(kind, i) == Alias(kind, j) { OpaqueIdentity.ItoaInjective(i, j); }
  }

  lemma NumberedLetter(kind: string, ids: seq<string>)
    requires kind != []
    ensures forall p <- Numbered(kind, ids, 1) :: p.alias != [] && p.alias[0] == kind[0]
  {
  }

  lemma NumberedDistinct(kind: string, ids: seq<string>)
    ensures DistinctAliases(Numbered(kind, ids, 1))
  {
    hide Alias, Numbered;
    var pairs := Numbered(kind, ids, 1);
    forall i, j | 0 <= i < j < |pairs| ensures pairs[i].alias != pairs[j].alias {
      AliasInjective(kind, 1 + i, 1 + j);
    }
  }

  /** No two ids of a case share an alias. */
  lemma TableInjective(caseId: string, files: seq<string>, capabilities: seq<string>, evidence: seq<string>)
    ensures Injective(Assign(map[], Assignments(caseId, files, capabilities, evidence)))
  {
    hide Numbered, DistinctAliases, Assign, Injective;
    var one := [Pair(caseId, ModelCaseId())];
    var f, c, e := Numbered("file:", files, 1), Numbered("capability:", capabilities, 1), Numbered("evidence:", evidence, 1);
    assert ModelCaseId()[0] == 's';
    NumberedDistinct("file:", files);
    NumberedLetter("file:", files);
    NumberedDistinct("capability:", capabilities);
    NumberedLetter("capability:", capabilities);
    NumberedDistinct("evidence:", evidence);
    NumberedLetter("evidence:", evidence);
    OneIsDistinct(one[0]);
    BlocksDistinct(one, f, c, e);
    AssignInjective(one + f + c + e);
  }

  lemma BlocksDistinct(one: seq<Pair>, f: seq<Pair>, c: seq<Pair>, e: seq<Pair>)
    requires DistinctAliases(one) && forall p <- one :: p.alias != [] && p.alias[0] == 's'
    requires DistinctAliases(f) && forall p <- f :: p.alias != [] && p.alias[0] == 'f'
    requires DistinctAliases(c) && forall p <- c :: p.alias != [] && p.alias[0] == 'c'
    requires DistinctAliases(e) && forall p <- e :: p.alias != [] && p.alias[0] == 'e'
    ensures DistinctAliases(one + f + c + e)
  {
  }

  lemma OneIsDistinct(p: Pair)
    ensures DistinctAliases([p])
  {
  }

  lemma {:induction false} AssignAppend(table: Table, a: seq<Pair>, b: seq<Pair>)
    ensures Assign(table, a + b) == Assign(Assign(table, a), b)
    decreases |a|
  {
    if a == [] {
      assert a + b == b;
    } else {
      assert (a + b)[0] == a[0] && (a + b)[1..] == a[1..] + b;
      AssignAppend(table[a[0].id := a[0].alias], a[1..], b);
    }
  }

  /** One numbering loop of the projection. */
  method Enumerate(table: Table, kind: string, ids: seq<string>) returns (r: Table)
    ensures r == Assign(table, Numbered(kind, ids, 1))
  {
    r := table;
    var i := 0;
    while i < |ids|
      invariant 0 <= i <= |ids|
      invariant Assign(r, Numbered(kind, ids[i..], 1 + i)) == Assign(table, Numbered(kind, ids, 1))
    {
      assert ids[i..][1..] == ids[i + 1..];
      ghost var rest := Numbered(kind, ids[i..], 1 + i);
      assert rest[1..] == Numbered(kind, ids[i + 1..], 2 + i);
      r := r[ids[i] := Alias(kind, i + 1)];
      i := i + 1;
    }
  }

  /** The alias table of a case and its inverse. */
  method CreateAliases(caseId: string, files: seq<string>, capabilities: seq<string>, encoded: Value)
    returns (projected: Table, canonical: Table)
    ensures projected == Assign(map[], Assignments(caseId, files, capabilities, Collect(encoded, [])))
    ensures Injective(projected) && canonical == Canonical(projected)
    ensures caseId in projected && (forall id <- files :: id in projected) && forall id <- capabilities :: id in projected
    ensures forall id :: Evidence(encoded, id) ==> id in projected
  {
    var list := new EvidenceList();
    list.Gather(encoded);
    var evidence := list.identifiers;
    projected := map[caseId := ModelCaseId()];
    projected := Enumerate(projected, "file:", files);
    projected := Enumerate(projected, "capability:", capabilities);
    projected := Enumerate(projected, "evidence:", evidence);
    TableBuilt(caseId, files, capabilities, evidence);
    TableInjective(caseId, files, capabilities, evidence);
    TableCovers(caseId, files, capabilities, evidence);
    forall id | Evidence(encoded, id) ensures id in projected { CollectExact(encoded, [], id); }
    canonical := Invert(projected);
  }

  lemma TableBuilt(caseId: string, files: seq<string>, capabilities: seq<string>, evidence: seq<string>)
    ensures Assign(Assign(Assign(map[caseId := ModelCaseId()], Numbered("file:", files, 1)),
                          Numbered("capability:", capabilities, 1)), Numbered("evidence:", evidence, 1))
         == Assign(map[], Assignments(caseId, files, capabilities, evidence))
  {
    var one := [Pair(caseId, ModelCaseId())];
    var f, c, e := Numbered("file:", files, 1), Numbered("capability:", capabilities, 1), Numbered("evidence:", evidence, 1);
    assert Assign(map[], one) == map[caseId := ModelCaseId()] by { assert one[1..] == []; }
    AssignAppend(map[], one, f);
    AssignAppend(map[], one + f, c);
    AssignAppend(map[], one + f + c, e);
  }

  lemma TableCovers(caseId: string, files: seq<string>, capabilities: seq<string>, evidence: seq<string>)
    ensures var table := Assign(map[], Assignments(caseId, files, capabilities, evidence));
            && caseId in table && (forall id <- files :: id in table)
            && (forall id <- capabilities :: id in table) && forall id <- evidence :: id in table
  {
    var pairs := Assignments(caseId, files, capabilities, evidence);
    var f, c, e := Numbered("file:", files, 1), Numbered("capability:", capabilities, 1), Numbered("evidence:", evidence, 1);
    assert pairs[0].id == caseId && pairs[0] in pairs;
    AssignSource(map[], pairs, caseId);
    forall id | id in files || id in capabilities || id in evidence ensures id in Assign(map[], pairs) {
      AssignSource(map[], pairs, id);
      if id in files {
        var i :| 0 <= i < |files| && files[i] == id;
        assert f[i] in pairs;
      } else if id in capabilities {
        var i :| 0 <= i < |capabilities| && capabilities[i] == id;
        assert c[i] in pairs;
      } else {
        var i :| 0 <= i < |evidence| && evidence[i] == id;
        assert e[i] in pairs;
      }
    }
  }
}
