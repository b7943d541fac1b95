/**
 Checking a repair decision against its case, and why the check gives the same
 verdict in the aliased terms a planner sees as in the original ones.
 */
module DecisionRules {
  import opened Common
  import opened Aliases

  datatype Capability =
    | JoinOffer(id: string, candidates: seq<string>)
    | ManualOffer(id: string, file: string)
    | BlurayOffer(id: string)
    | DvdOffer(id: string)

  datatype Case = Case(
    caseId: string, capabilities: seq<Capability>, files: seq<string>, manualFiles: seq<string>, evidence: seq<string>)

  datatype Decision =
    | NoRepair(caseId: string, refs: seq<string>)
    | JoinParts(caseId: string, refs: seq<string>, capability: string, ordered: seq<string>)
    | ManualImport(caseId: string, refs: seq<string>, capability: string, file: string)
    | RemuxBluray(caseId: string, refs: seq<string>, capability: string)
    | RemuxDvd(caseId: string, refs: seq<string>, capability: string)

  datatype Code =
    CaseIdMismatch | UnknownEvidence | UnknownCapability | ActionMismatch | FileOutsideCapability | ManualFileMismatch

  /** Values listed as they come, sorted without repeats, or sorted with the repeats of the given list. */
  datatype Values = Listed(list: seq<string>) | Sorted(members: set<string>) | SortedList(items: seq<string>)
  datatype Violation = Violation(code: Code, path: string, rejected: Values, allowed: Values)

  const JOIN := "join_parts_v1"
  const MANUAL := "manual_import_file_v1"
  const BLURAY := "remux_bluray_v1"
  const DVD := "remux_dvd_v1"

  function Offered(c: Capability): string {
    match c case JoinOffer(_, _) => JOIN case ManualOffer(_, _) => MANUAL case BlurayOffer(_) => BLURAY case DvdOffer(_) => DVD
  }

  function Chosen(d: Decision): string
    requires !d.NoRepair?
  {
    match d
    case JoinParts(_, _, _, _) => JOIN
    case ManualImport(_, _, _, _) => MANUAL
    case RemuxBluray(_, _, _) => BLURAY
    case RemuxDvd(_, _, _) => DVD
  }

  // ------------------------------------------------------------ the rules

  function CaseIdRule(c: Case, d: Decision): seq<Violation> {
    if d.caseId == c.caseId then []
    else [Violation(CaseIdMismatch, "case_id", Listed([d.caseId]), Listed([c.caseId]))]
  }

  function Ids(ks: seq<Capability>): (r: seq<string>)
    ensures |r| == |ks| && forall i :: 0 <= i < |ks| ==> r[i] == ks[i].id
  {
    seq(|ks|, i requires 0 <= i < |ks| => ks[i].id)
  }

  function CapabilityIds(c: Case): set<string> { set k <- c.capabilities :: k.id }

  function ReferenceIds(c: Case): set<string> {
    CapabilityIds(c) + (set s <- c.files) + (set s <- c.manualFiles) + (set s <- c.evidence)
  }

  function Unknown(refs: set<string>, known: set<string>): set<string> { set s <- refs | s !in known }

  function EvidenceRule(c: Case, d: Decision): seq<Violation> {
    var rejected := Unknown((set s <- d.refs), ReferenceIds(c));
    if rejected == {} then []
    else [Violation(UnknownEvidence, "evidence_refs", Sorted(rejected), Sorted(ReferenceIds(c)))]
  }

  function Select(capabilities: seq<Capability>, id: string): Option<Capability> {
    if capabilities == [] then None
    else if capabilities[0].id == id then Some(capabilities[0])
    else Select(capabilities[1..], id)
  }

  function SelectionRule(selected: Option<Capability>, id: string, chosen: string, known: seq<string>): seq<Violation> {
    match selected
    case None => [Violation(UnknownCapability, "capability_id", Listed([id]), SortedList(known))]
    case Some(k) =>
      if Offered(k) == chosen then []
      else [Violation(ActionMismatch, "action", Listed([chosen]), Listed([Offered(k)]))]
  }

  function CapabilityRule(c: Case, d: Decision): seq<Violation> {
    if d.NoRepair? then []
    else SelectionRule(Select(c.capabilities, d.capability), d.capability, Chosen(d), Ids(c.capabilities))
  }

  function Outside(ordered: seq<string>, candidates: seq<string>): seq<string> {
    if ordered == [] then []
    else (if ordered[0] in candidates then [] else [ordered[0]]) + Outside(ordered[1..], candidates)
  }

  function FilesRule(c: Case, d: Decision): seq<Violation> {
    if d.NoRepair? || d.RemuxBluray? || d.RemuxDvd? then []
    else
      match Select(c.capabilities, d.capability)
      case None => []
      case Some(k) => OfferRule(k, d)
  }

  /** The files of a decision against the capability it selected. */
  function OfferRule(k: Capability, d: Decision): seq<Violation> {
    if d.JoinParts? && k.JoinOffer? then
      var rejected := Outside(d.ordered, k.candidates);
      if rejected == [] then []
      else [Violation(FileOutsideCapability, "ordered_file_ids", Listed(rejected), Listed(k.candidates))]
    else if d.ManualImport? && k.ManualOffer? then
      if d.file == k.file then []
      else [Violation(ManualFileMismatch, "file_id", Listed([d.file]), Listed([k.file]))]
    else []
  }

  function Validate(c: Case, d: Decision): seq<Violation> {
    CaseIdRule(c, d) + EvidenceRule(c, d) + CapabilityRule(c, d) + FilesRule(c, d)
  }

  // --------------------------------------------------------- translation

  function Each(s: seq<string>, f: string -> string): (r: seq<string>)
    ensures |r| == |s| && forall i :: 0 <= i < |s| ==> r[i] == f(s[i])
  {
    seq(|s|, i requires 0 <= i < |s| => f(s[i]))
  }

  function EachOf(s: set<string>, f: string -> string): set<string> { set x <- s :: f(x) }

  function Offer(k: Capability, f: string -> string): Capability {
    match k
    case JoinOffer(id, candidates) => JoinOffer(f(id), Each(candidates, f))
    case ManualOffer(id, file) => ManualOffer(f(id), f(file))
    case BlurayOffer(id) => BlurayOffer(f(id))
    case DvdOffer(id) => DvdOffer(f(id))
  }

  function Offers(ks: seq<Capability>, f: string -> string): (r: seq<Capability>)
    ensures |r| == |ks| && forall i :: 0 <= i < |ks| ==> r[i] == Offer(ks[i], f)
  {
    if ks == [] then [] else [Offer(ks[0], f)] + Offers(ks[1..], f)
  }

  /** The case with its ids rewritten. */
  function Project(c: Case, f: string -> string): Case {
    Case(f(c.caseId), Offers(c.capabilities, f), Each(c.files, f), Each(c.manualFiles, f), Each(c.evidence, f))
  }

  /** The decision with its ids rewritten. */
  function Restore(d: Decision, f: string -> string): Decision {
    match d
    case NoRepair(id, refs) => NoRepair(f(id), Each(refs, f))
    case JoinParts(id, refs, k, ordered) => JoinParts(f(id), Each(refs, f), f(k), Each(ordered, f))
    case ManualImport(id, refs, k, file) => ManualImport(f(id), Each(refs, f), f(k), f(file))
    case RemuxBluray(id, refs, k) => RemuxBluray(f(id), Each(refs, f), f(k))
    case RemuxDvd(id, refs, k) => RemuxDvd(f(id), Each(refs, f), f(k))
  }

  function Translate(v: Values, f: string -> string): Values {
    match v
    case Listed(list) => Listed(Each(list, f))
    case Sorted(members) => Sorted(EachOf(members, f))
    case SortedList(items) => SortedList(Each(items, f))
  }

  /** The correction sent back, in the planner's terms. */
  function Correct(vs: seq<Violation>, f: string -> string): seq<Violation> {
    seq(|vs|, i requires 0 <= i < |vs| =>
      Violation(vs[i].code, vs[i].path, Translate(vs[i].rejected, f), Translate(vs[i].allowed, f)))
  }

  // --------------------------------------------------------- commutation

  function CapabilityWords(k: Capability): set<string> {
    match k
    case JoinOffer(id, candidates) => {id} + set s <- candidates
    case ManualOffer(id, file) => {id, file}
    case BlurayOffer(id) => {id}
    case DvdOffer(id) => {id}
  }

  predicate CaseMeets(c: Case, p: string -> string, r: string -> string) {
    && r(p(c.caseId)) == c.caseId
    && (forall s <- ReferenceIds(c) :: r(p(s)) == s)
    && (forall k <- c.capabilities :: forall s <- CapabilityWords(k) :: r(p(s)) == s)
  }

  function DecisionWords(d: Decision): set<string> {
    {d.caseId} + (set s <- d.refs) +
    match d
    case NoRepair(_, _) => {}
    case JoinParts(_, _, k, ordered) => {k} + set s <- ordered
    case ManualImport(_, _, k, file) => {k, file}
    case RemuxBluray(_, _, k) => {k}
    case RemuxDvd(_, _, k) => {k}
  }

  predicate DecisionMeets(d: Decision, p: string -> string, r: string -> string) {
    forall s <- DecisionWords(d) :: p(r(s)) == s
  }

  predicate ActionsKept(p: string -> string) { p(JOIN) == JOIN && p(MANUAL) == MANUAL && p(BLURAY) == BLURAY && p(DVD) == DVD }

  lemma Same(p: string -> string, r: string -> string, x: string, y: string)
    requires r(p(y)) == y && p(r(x)) == x
    ensures r(x) == y <==> x == p(y)
  {
  }

  lemma CaseIdCommutes(c: Case, d: Decision, p: string -> string, r: string -> string)
    requires CaseMeets(c, p, r) && DecisionMeets(d, p, r)
    ensures Correct(CaseIdRule(c, Restore(d, r)), p) == CaseIdRule(Project(c, p), d)
  {
    assert d.caseId in DecisionWords(d);
    Same(p, r, d.caseId, c.caseId);
    assert Restore(d, r).caseId == r(d.caseId);
    assert Each([r(d.caseId)], p) == [d.caseId] && Each([c.caseId], p) == [p(c.caseId)];
  }

  lemma CapabilityIdsProject(c: Case, p: string -> string)
    ensures CapabilityIds(Project(c, p)) == EachOf(CapabilityIds(c), p)
  {
  }

  lemma EachOfUnion(a: set<string>, b: set<string>, f: string -> string)
    ensures EachOf(a + b, f) == EachOf(a, f) + EachOf(b, f)
  {
  }

  lemma IdsProject(c: Case, p: string -> string)
    ensures CapabilityIds(Project(c, p)) == EachOf(CapabilityIds(c), p)
    ensures ReferenceIds(Project(c, p)) == EachOf(ReferenceIds(c), p)
  {
    ProjectParts(c, p);
    hide Project, CapabilityIds, EachOf;
    CapabilityIdsProject(c, p);
    EachSet(c.files, p);
    EachSet(c.manualFiles, p);
    EachSet(c.evidence, p);
    var ids, f, m := CapabilityIds(c), (set s <- c.files), (set s <- c.manualFiles);
    EachOfUnion(ids, f, p);
    EachOfUnion(ids + f, m, p);
    EachOfUnion(ids + f + m, (set s <- c.evidence), p);
  }

  lemma ProjectParts(c: Case, p: string -> string)
    ensures Project(c, p).files == Each(c.files, p) && Project(c, p).manualFiles == Each(c.manualFiles, p)
            && Project(c, p).evidence == Each(c.evidence, p)
  {
  }

  lemma ProjectOffers(c: Case, p: string -> string)
    ensures Project(c, p).capabilities == Offers(c.capabilities, p)
  {
  }

  lemma EachSet(s: seq<string>, f: string -> string)
    ensures (set x <- Each(s, f)) == EachOf((set x <- s), f)
  {
  }

  lemma EvidenceCommutes(c: Case, d: Decision, p: string -> string, r: string -> string)
    requires CaseMeets(c, p, r) && DecisionMeets(d, p, r)
    ensures Correct(EvidenceRule(c, Restore(d, r)), p) == EvidenceRule(Project(c, p), d)
  {
    IdsProject(c, p);
    var refs, known := (set s <- d.refs), ReferenceIds(c);
    assert refs <= DecisionWords(d) && Restore(d, r).refs == Each(d.refs, r);
    hide ReferenceIds, DecisionWords, Project, Restore, EachOf, Unknown;
    EachSet(d.refs, r);
    UnknownCommute(refs, known, p, r);
    EachOfEmpty(Unknown(EachOf(refs, r), known), p);
  }

  lemma EachOfEmpty(s: set<string>, f: string -> string)
    ensures EachOf(s, f) == {} <==> s == {}
  {
    if s != {} {
      var x :| x in s;
      assert f(x) in EachOf(s, f);
    }
  }

  lemma UnknownCommute(refs: set<string>, known: set<string>, p: string -> string, r: string -> string)
    requires (forall y <- known :: r(p(y)) == y) && forall x <- refs :: p(r(x)) == x
    ensures EachOf(Unknown(EachOf(refs, r), known), p) == Unknown(refs, EachOf(known, p))
  {
  }

  lemma {:induction false} SelectCommutes(ks: seq<Capability>, id: string, p: string -> string, r: string -> string)
    requires p(r(id)) == id && forall k <- ks :: r(p(k.id)) == k.id
    ensures Select(Offers(ks, p), id) ==
            match Select(ks, r(id)) case None => None case Some(k) => Some(Offer(k, p))
    ensures Select(ks, r(id)).Some? ==> Select(ks, r(id)).value in ks
    decreases |ks|
  {
    if ks != [] {
      assert ks[0] in ks && forall k <- ks[1..] :: k in ks;
      assert Offers(ks, p)[1..] == Offers(ks[1..], p);
      Same(p, r, id, ks[0].id);
      SelectCommutes(ks[1..], id, p, r);
    }
  }

  lemma CapabilityMeets(c: Case, d: Decision, p: string -> string, r: string -> string)
    requires CaseMeets(c, p, r) && DecisionMeets(d, p, r) && !d.NoRepair?
    ensures p(r(d.capability)) == d.capability && forall k <- c.capabilities :: r(p(k.id)) == k.id
  {
  }

  lemma SelectionCommutes(
      k: Option<Capability>, id: string, chosen: string, known: seq<string>, p: string -> string)
    requires p(chosen) == chosen && ActionsKept(p)
    ensures Correct(SelectionRule(k, id, chosen, known), p)
         == SelectionRule(if k.Some? then Some(Offer(k.value, p)) else None, p(id), chosen, Each(known, p))
  {
    match k
    case None => assert Each([id], p) == [p(id)];
    case Some(offer) =>
      assert Offered(Offer(offer, p)) == Offered(offer) && p(Offered(offer)) == Offered(offer);
      assert Each([chosen], p) == [chosen] && Each([Offered(offer)], p) == [Offered(offer)];
  }

  lemma CapabilityCommutes(c: Case, d: Decision, p: string -> string, r: string -> string)
    requires CaseMeets(c, p, r) && DecisionMeets(d, p, r) && ActionsKept(p)
    ensures Correct(CapabilityRule(c, Restore(d, r)), p) == CapabilityRule(Project(c, p), d)
  {
    if !d.NoRepair? {
      CapabilityMeets(c, d, p, r);
      ProjectOffers(c, p);
      assert Ids(Offers(c.capabilities, p)) == Each(Ids(c.capabilities), p);
      var e := Restore(d, r);
      assert !e.NoRepair? && e.capability == r(d.capability) && Chosen(e) == Chosen(d) && p(Chosen(d)) == Chosen(d);
      hide Restore, Chosen, Ids, Select, Project, SelectionRule, Correct;
      SelectCommutes(c.capabilities, d.capability, p, r);
      SelectionCommutes(Select(c.capabilities, e.capability), e.capability, Chosen(d), Ids(c.capabilities), p);
    }
  }

  lemma {:induction false} OutsideCommutes(
      ordered: seq<string>, candidates: seq<string>, p: string -> string, r: string -> string)
    requires (forall x <- ordered :: p(r(x)) == x) && forall y <- candidates :: r(p(y)) == y
    ensures Each(Outside(Each(ordered, r), candidates), p) == Outside(ordered, Each(candidates, p))
    decreases |ordered|
  {
    if ordered != [] {
      var x, rest := ordered[0], ordered[1..];
      assert x in ordered && forall y <- rest :: y in ordered;
      OutsideCommutes(rest, candidates, p, r);
      assert Each(ordered, r)[1..] == Each(rest, r);
      EachContains(candidates, p, r, x);
      var tail := Outside(Each(rest, r), candidates);
      assert Each([r(x)] + tail, p) == [p(r(x))] + Each(tail, p);
      assert [] + tail == tail;
    }
  }

  lemma EachContains(candidates: seq<string>, p: string -> string, r: string -> string, x: string)
    requires p(r(x)) == x && forall y <- candidates :: r(p(y)) == y
    ensures r(x) in candidates <==> x in Each(candidates, p)
  {
  }

  lemma OfferCommutes(k: Capability, d: Decision, p: string -> string, r: string -> string)
    requires DecisionMeets(d, p, r) && forall s <- CapabilityWords(k) :: r(p(s)) == s
    ensures Correct(OfferRule(k, Restore(d, r)), p) == OfferRule(Offer(k, p), d)
  {
    if d.JoinParts? && k.JoinOffer? {
      assert forall x <- d.ordered :: x in DecisionWords(d);
      assert forall y <- k.candidates :: y in CapabilityWords(k);
      OutsideCommutes(d.ordered, k.candidates, p, r);
      var rejected := Outside(Each(d.ordered, r), k.candidates);
      assert Each(rejected, p) == [] <==> rejected == [];
    } else if d.ManualImport? && k.ManualOffer? {
      assert d.file in DecisionWords(d) && k.file in CapabilityWords(k);
      Same(p, r, d.file, k.file);
      assert Each([r(d.file)], p) == [d.file] && Each([k.file], p) == [p(k.file)];
    }
  }

  lemma FilesCommute(c: Case, d: Decision, p: string -> string, r: string -> string)
    requires CaseMeets(c, p, r) && DecisionMeets(d, p, r)
    ensures Correct(FilesRule(c, Restore(d, r)), p) == FilesRule(Project(c, p), d)
  {
    if d.JoinParts? || d.ManualImport? {
      CapabilityMeets(c, d, p, r);
      SelectCommutes(c.capabilities, d.capability, p, r);
      var k := Select(c.capabilities, r(d.capability));
      if k.Some? {
        assert k.value in c.capabilities;
        OfferCommutes(k.value, d, p, r);
      }
    }
  }

  /**
   Restoring a decision, checking it against the original case and translating
   the violations back is the same as checking it against the aliased case.
   */
  lemma ValidateCommutes(c: Case, d: Decision, p: string -> string, r: string -> string)
    requires CaseMeets(c, p, r) && DecisionMeets(d, p, r) && ActionsKept(p)
    ensures Correct(Validate(c, Restore(d, r)), p) == Validate(Project(c, p), d)
  {
    CaseIdCommutes(c, d, p, r);
    EvidenceCommutes(c, d, p, r);
    CapabilityCommutes(c, d, p, r);
    FilesCommute(c, d, p, r);
    hide CaseIdRule, EvidenceRule, CapabilityRule, FilesRule, Project, Restore;
    CorrectAppend4(CaseIdRule(c, Restore(d, r)), EvidenceRule(c, Restore(d, r)),
                   CapabilityRule(c, Restore(d, r)), FilesRule(c, Restore(d, r)), p);
  }

  lemma CorrectAppend4(a: seq<Violation>, b: seq<Violation>, c: seq<Violation>, d: seq<Violation>, f: string -> string)
    ensures Correct(a + b + c + d, f) == Correct(a, f) + Correct(b, f) + Correct(c, f) + Correct(d, f)
  {
  }

  // ------------------------------------------------------------ acceptance

  lemma EachOfMember(s: set<string>, f: string -> string, y: string)
    ensures y in EachOf(s, f) ==> exists x :: x in s && f(x) == y
  {
  }

  lemma {:induction false} SelectFinds(ks: seq<Capability>, id: string)
    requires Select(ks, id).Some?
    ensures Select(ks, id).value in ks && Select(ks, id).value.id == id
  {
    if ks[0].id != id { SelectFinds(ks[1..], id); }
  }

  lemma OfferWords(k: Capability, p: string -> string, r: string -> string)
    requires forall s <- CapabilityWords(k) :: r(p(s)) == s
    ensures forall s <- CapabilityWords(Offer(k, p)) :: p(r(s)) == s
  {
  }

  lemma AcceptedCapability(c: Case, d: Decision, p: string -> string, r: string -> string)
    requires CaseMeets(c, p, r) && !d.NoRepair?
    requires CapabilityRule(Project(c, p), d) == [] && FilesRule(Project(c, p), d) == []
    ensures forall s <- DecisionWords(d) - {d.caseId} - (set s <- d.refs) :: p(r(s)) == s
  {
    ProjectOffers(c, p);
    var js := Offers(c.capabilities, p);
    SelectFinds(js, d.capability);
    var j := Select(js, d.capability).value;
    FilesAreOffers(Project(c, p), d, j);
    hide Select, Project, Offers, FilesRule, CaseMeets;
    var i :| 0 <= i < |js| && js[i] == j;
    assert forall s <- CapabilityWords(c.capabilities[i]) :: r(p(s)) == s by { MeetsOffer(c, i, p, r); }
    OfferWords(c.capabilities[i], p, r);
    WordsAreOffered(d, j);
  }

  lemma MeetsOffer(c: Case, i: nat, p: string -> string, r: string -> string)
    requires CaseMeets(c, p, r) && i < |c.capabilities|
    ensures forall s <- CapabilityWords(c.capabilities[i]) :: r(p(s)) == s
  {
  }

  /** What a decision names beside the case and its references is in the capability that permits it. */
  lemma WordsAreOffered(d: Decision, k: Capability)
    requires !d.NoRepair? && d.capability == k.id && Offered(k) == Chosen(d) && OfferRule(k, d) == []
    ensures forall s <- DecisionWords(d) - {d.caseId} - (set s <- d.refs) :: s in CapabilityWords(k)
  {
    ChosenIsOffered(d, k);
    if d.JoinParts? { OutsideIff(d.ordered, k.candidates); }
  }

  lemma ChosenIsOffered(d: Decision, k: Capability)
    requires !d.NoRepair? && Offered(k) == Chosen(d)
    ensures d.JoinParts? <==> k.JoinOffer?
    ensures d.ManualImport? <==> k.ManualOffer?
  {
  }

  /** An accepted decision names nothing but ids of the aliased case. */
  lemma AcceptedMeets(c: Case, d: Decision, p: string -> string, r: string -> string)
    requires CaseMeets(c, p, r) && Validate(Project(c, p), d) == []
    ensures DecisionMeets(d, p, r)
  {
    IdsProject(c, p);
    var e := Project(c, p);
    RulesEmpty(e, d);
    if !d.NoRepair? { AcceptedCapability(c, d, p, r); }
    forall s <- DecisionWords(d) ensures p(r(s)) == s {
      if s == d.caseId {
      } else if s in d.refs {
        assert s in ReferenceIds(e) by { assert Unknown((set x <- d.refs), ReferenceIds(e)) == {}; }
        EachOfMember(ReferenceIds(c), p, s);
      } else {
        assert s in DecisionWords(d) - {d.caseId} - (set x <- d.refs);
      }
    }
  }

  lemma RulesEmpty(e: Case, d: Decision)
    ensures Validate(e, d) == [] <==>
            CaseIdRule(e, d) == [] && EvidenceRule(e, d) == [] && CapabilityRule(e, d) == [] && FilesRule(e, d) == []
  {
  }

  function Projecting(table: Table): string -> string { s => Lookup(table, s) }

  ghost function Restoring(table: Table): string -> string
    requires Injective(table)
  {
    var canonical := Canonical(table);
    s => Lookup(canonical, s)
  }

  /** Every id in the case has an alias or is not mistaken for one. */
  predicate CaseRestorable(c: Case, table: Table) {
    && TextRestorable(c.caseId, table)
    && (forall s <- ReferenceIds(c) :: TextRestorable(s, table))
    && (forall k <- c.capabilities :: forall s <- CapabilityWords(k) :: TextRestorable(s, table))
  }

  lemma RestorableMeets(c: Case, table: Table)
    requires Injective(table)
    ensures CaseMeets(c, Projecting(table), Restoring(table)) <==> CaseRestorable(c, table)
  {
  }

  lemma CapabilityAccepted(c: Case, d: Decision, p: string -> string, r: string -> string)
    requires CaseMeets(c, p, r) && DecisionMeets(d, p, r) && CapabilityRule(Project(c, p), d) == []
    ensures CapabilityRule(c, Restore(d, r)) == []
  {
    if !d.NoRepair? {
      CapabilityMeets(c, d, p, r);
      ProjectOffers(c, p);
      SelectCommutes(c.capabilities, d.capability, p, r);
      var k := Select(c.capabilities, r(d.capability));
      if k.Some? { assert Offered(Offer(k.value, p)) == Offered(k.value); }
    }
  }

  /** A decision without violations in aliased terms has none once restored. */
  lemma AcceptedAfterRestore(c: Case, d: Decision, table: Table)
    requires Injective(table) && CaseRestorable(c, table)
    requires Validate(Project(c, Projecting(table)), d) == []
    ensures Validate(c, Restore(d, Restoring(table))) == []
  {
    var p, r := Projecting(table), Restoring(table);
    RestorableMeets(c, table);
    AcceptedMeets(c, d, p, r);
    RulesEmpty(Project(c, p), d);
    hide CaseIdRule, EvidenceRule, CapabilityRule, FilesRule, Project, Restore, Validate, CaseMeets, DecisionMeets;
    CaseIdCommutes(c, d, p, r);
    EvidenceCommutes(c, d, p, r);
    CapabilityAccepted(c, d, p, r);
    FilesCommute(c, d, p, r);
    RulesEmpty(c, Restore(d, r));
  }

  // ------------------------------------------- the table a projection builds

  function TableOf(c: Case, evidence: seq<string>): Table {
    Assign(map[], Assignments(c.caseId, c.files, Ids(c.capabilities), evidence))
  }

  /** Files an offer names. */
  function OfferedFiles(k: Capability): seq<string> {
    match k case JoinOffer(_, candidates) => candidates case ManualOffer(_, file) => [file] case _ => []
  }

  /** The ids the projection does not number: manual-import files and files that offers name. */
  predicate FilesRestorable(c: Case, table: Table) {
    && (forall s <- c.manualFiles :: TextRestorable(s, table))
    && (forall k <- c.capabilities :: forall s <- OfferedFiles(k) :: TextRestorable(s, table))
  }

  /** The projection numbers these ids. */
  predicate Numbers(c: Case, table: Table) {
    && c.caseId in table && (forall s <- c.files :: s in table) && (forall s <- c.evidence :: s in table)
    && forall k <- c.capabilities :: k.id in table
  }

  lemma BuiltTableNumbers(c: Case, evidence: seq<string>)
    requires forall s <- c.evidence :: s in evidence
    ensures Injective(TableOf(c, evidence)) && Numbers(c, TableOf(c, evidence))
  {
    TableInjective(c.caseId, c.files, Ids(c.capabilities), evidence);
    TableCovers(c.caseId, c.files, Ids(c.capabilities), evidence);
    hide Assign, Assignments, Injective;
    forall k <- c.capabilities ensures k.id in TableOf(c, evidence) {
      var i :| 0 <= i < |c.capabilities| && c.capabilities[i] == k;
      assert Ids(c.capabilities)[i] in Ids(c.capabilities);
    }
  }

  lemma WordsOf(k: Capability, table: Table)
    requires k.id in table
    ensures (forall s <- CapabilityWords(k) :: TextRestorable(s, table))
       <==> forall s <- OfferedFiles(k) :: TextRestorable(s, table)
  {
    assert forall s :: s in CapabilityWords(k) <==> s == k.id || s in OfferedFiles(k);
    hide CapabilityWords, OfferedFiles;
  }

  lemma ReferencesOf(c: Case, table: Table)
    requires Numbers(c, table)
    ensures (forall s <- ReferenceIds(c) :: TextRestorable(s, table))
       <==> forall s <- c.manualFiles :: TextRestorable(s, table)
  {
    assert forall s <- c.manualFiles :: s in ReferenceIds(c);
    assert forall s <- ReferenceIds(c) :: s in table || s in c.manualFiles;
    hide ReferenceIds, Numbers;
  }

  /** The built table is injective and leaves only those ids in doubt. */
  lemma BuiltTableRestores(c: Case, evidence: seq<string>)
    requires forall s <- c.evidence :: s in evidence
    ensures Injective(TableOf(c, evidence))
    ensures CaseRestorable(c, TableOf(c, evidence)) <==> FilesRestorable(c, TableOf(c, evidence))
  {
    var table := TableOf(c, evidence);
    BuiltTableNumbers(c, evidence);
    hide TableOf, Injective;
    ReferencesOf(c, table);
    hide ReferenceIds, CapabilityWords, OfferedFiles;
    forall k <- c.capabilities
      ensures (forall s <- CapabilityWords(k) :: TextRestorable(s, table))
         <==> forall s <- OfferedFiles(k) :: TextRestorable(s, table)
    {
      WordsOf(k, table);
    }
  }

  /**
   The whole way round: with the table the projection builds, a decision without
   violations against the projected case has none against the original after
   restoring, provided no unnumbered file id is mistaken for an alias.
   */
  lemma AcceptedForBuiltTable(c: Case, d: Decision, evidence: seq<string>)
    requires (forall s <- c.evidence :: s in evidence) && FilesRestorable(c, TableOf(c, evidence))
    ensures var table := TableOf(c, evidence);
            && Injective(table)
            && (Validate(Project(c, Projecting(table)), d) == [] ==> Validate(c, Restore(d, Restoring(table))) == [])
  {
    var table := TableOf(c, evidence);
    BuiltTableRestores(c, evidence);
    hide TableOf, Validate, Project, Restore;
    if Validate(Project(c, Projecting(table)), d) == [] { AcceptedAfterRestore(c, d, table); }
  }

  predicate NoActionAliased(table: Table) { {JOIN, MANUAL, BLURAY, DVD} !! table.Keys }

  /** No word of the decision is an id that should have been written as its alias. */
  predicate InAliasTerms(d: Decision, table: Table) { forall s <- DecisionWords(d) :: s in table.Values || s !in table }

  lemma InAliasTermsMeets(d: Decision, table: Table)
    requires Injective(table) && InAliasTerms(d, table)
    ensures DecisionMeets(d, Projecting(table), Restoring(table))
  {
    var canonical := Canonical(table);
    forall s <- DecisionWords(d) ensures Lookup(table, Lookup(canonical, s)) == s {
      if s in table.Values {
        var k :| k in table && table[k] == s;
        assert canonical[table[k]] == k;
      } else {
        assert forall alias <- canonical :: table[canonical[alias]] == alias;
      }
    }
  }

  /** With the built table, the correction sent back is the verdict on the projected case, accepted or not. */
  lemma CorrectionForBuiltTable(c: Case, d: Decision, evidence: seq<string>)
    requires (forall s <- c.evidence :: s in evidence) && FilesRestorable(c, TableOf(c, evidence))
    requires NoActionAliased(TableOf(c, evidence)) && InAliasTerms(d, TableOf(c, evidence))
    ensures var table := TableOf(c, evidence);
            && Injective(table)
            && Correct(Validate(c, Restore(d, Restoring(table))), Projecting(table)) == Validate(Project(c, Projecting(table)), d)
  {
    var table := TableOf(c, evidence);
    BuiltTableRestores(c, evidence);
    hide TableOf, Validate, Project, Restore, Correct;
    InAliasTermsMeets(d, table);
    RestorableMeets(c, table);
    ValidateCommutes(c, d, Projecting(table), Restoring(table));
  }

  /**
   The proviso is needed in every case: a manual-import offer, the first with its
   id, can be chosen in aliased terms, and the restored choice is accepted
   exactly when its file is not mistaken for an alias.
   */
  lemma MistakenFileIsRejected(c: Case, evidence: seq<string>, i: nat)
    requires i < |c.capabilities| && c.capabilities[i].ManualOffer?
    requires FirstWith(c.capabilities, i, c.capabilities[i].id)
    ensures var table := TableOf(c, evidence);
            Injective(table) &&
            var p, r := Projecting(table), Restoring(table);
            var d := ManualImport(p(c.caseId), [], p(c.capabilities[i].id), p(c.capabilities[i].file));
            && Validate(Project(c, p), d) == []
            && (Validate(c, Restore(d, r)) == [] <==> TextRestorable(c.capabilities[i].file, table))
  {
    var table := TableOf(c, evidence);
    TableInjective(c.caseId, c.files, Ids(c.capabilities), evidence);
    TableCovers(c.caseId, c.files, Ids(c.capabilities), evidence);
    hide Assign, Assignments, Injective;
    assert forall j :: 0 <= j < |c.capabilities| ==> Ids(c.capabilities)[j] in Ids(c.capabilities);
    assert forall j :: 0 <= j <= i ==> c.capabilities[j].id in table;
    hide TableOf, Validate, Project, Restore, FirstWith;
    ChoiceInAliasTerms(c, i, table);
    ChoiceRestored(c, i, table);
  }

  lemma ChoiceInAliasTerms(c: Case, i: nat, table: Table)
    requires i < |c.capabilities| && c.capabilities[i].ManualOffer? && Injective(table)
    requires FirstWith(c.capabilities, i, c.capabilities[i].id)
    requires forall j :: 0 <= j <= i ==> c.capabilities[j].id in table
    ensures var k, p := c.capabilities[i], Projecting(table);
            Validate(Project(c, p), ManualImport(p(c.caseId), [], p(k.id), p(k.file))) == []
  {
    var k, p := c.capabilities[i], Projecting(table);
    FirstStaysFirst(c.capabilities, i, table);
    ProjectOffers(c, p);
    hide FirstWith, Validate, Injective;
    ManualChoice(Project(c, p), i, p(k.file));
  }

  lemma ChoiceRestored(c: Case, i: nat, table: Table)
    requires i < |c.capabilities| && c.capabilities[i].ManualOffer? && Injective(table)
    requires FirstWith(c.capabilities, i, c.capabilities[i].id) && c.caseId in table && c.capabilities[i].id in table
    ensures var k, p, r := c.capabilities[i], Projecting(table), Restoring(table);
            Validate(c, Restore(ManualImport(p(c.caseId), [], p(k.id), p(k.file)), r)) == []
            <==> TextRestorable(k.file, table)
  {
    var k, p, r := c.capabilities[i], Projecting(table), Restoring(table);
    TextRoundTrip(c.caseId, table);
    TextRoundTrip(k.id, table);
    TextRoundTrip(k.file, table);
    hide FirstWith, Validate, Injective;
    ManualChoice(c, i, r(p(k.file)));
    assert Restore(ManualImport(p(c.caseId), [], p(k.id), p(k.file)), r) == ManualImport(c.caseId, [], k.id, r(p(k.file)));
  }

  /** Choosing the first manual-import offer with its id is accepted exactly for the file it offers. */
  lemma ManualChoice(c: Case, i: nat, file: string)
    requires i < |c.capabilities| && c.capabilities[i].ManualOffer?
    requires FirstWith(c.capabilities, i, c.capabilities[i].id)
    ensures Validate(c, ManualImport(c.caseId, [], c.capabilities[i].id, file)) == [] <==> file == c.capabilities[i].file
  {
    var d := ManualImport(c.caseId, [], c.capabilities[i].id, file);
    AcceptedIff(c, d);
    FirstIsUnique(c.capabilities, d.capability, i);
    hide Validate, ReferenceIds, FirstWith;
    assert Permits(c.capabilities[i], d) <==> file == c.capabilities[i].file;
  }

  lemma FirstStaysFirst(ks: seq<Capability>, i: nat, table: Table)
    requires i < |ks| && FirstWith(ks, i, ks[i].id) && Injective(table)
    requires forall j :: 0 <= j <= i ==> ks[j].id in table
    ensures FirstWith(Offers(ks, Projecting(table)), i, Projecting(table)(ks[i].id))
  {
    var p := Projecting(table);
    assert forall j :: 0 <= j <= i ==> Offers(ks, p)[j].id == table[ks[j].id];
    hide Offers;
  }

  /** Such a file id exists for a built table: the opaque-id grammar admits what an alias looks like. */
  lemma AliasLikeFile(caseId: string, offer: string, disc: string)
    requires disc != caseId && disc != offer && "file:1" !in {caseId, offer, disc}
    ensures var c := Case(caseId, [ManualOffer(offer, "file:1")], [disc], [], []);
            !TextRestorable("file:1", TableOf(c, []))
  {
    var c := Case(caseId, [ManualOffer(offer, "file:1")], [disc], [], []);
    var table := TableOf(c, []);
    assert Ids(c.capabilities) == [offer];
    var pairs := Assignments(caseId, [disc], [offer], []);
    assert pairs == [Pair(caseId, ModelCaseId()), Pair(disc, Alias("file:", 1)), Pair(offer, Alias("capability:", 1))];
    forall id ensures id in table ==> id in {caseId, disc, offer} { AssignSource(map[], pairs, id); }
    AssignSource(map[], pairs, disc);
    assert Pair(disc, table[disc]) in pairs;
    assert Alias("file:", 1) == "file:1";
    assert table[disc] == "file:1" && disc in table;
  }

  // -------------------------------------------------- what is accepted

  /** The capability is of the decision's kind and covers its files. */
  predicate Permits(k: Capability, d: Decision) {
    match d
    case NoRepair(_, _) => false
    case JoinParts(_, _, _, ordered) => k.JoinOffer? && forall s <- ordered :: s in k.candidates
    case ManualImport(_, _, _, file) => k.ManualOffer? && file == k.file
    case RemuxBluray(_, _, _) => k.BlurayOffer?
    case RemuxDvd(_, _, _) => k.DvdOffer?
  }

  /** The first capability with that id. */
  predicate FirstWith(ks: seq<Capability>, i: nat, id: string) {
    i < |ks| && ks[i].id == id && forall j :: 0 <= j < i ==> ks[j].id != id
  }

  lemma {:induction false} SelectIsFirst(ks: seq<Capability>, id: string)
    ensures Select(ks, id).None? ==> (forall k <- ks :: k.id != id) && forall i: nat :: !FirstWith(ks, i, id)
    ensures Select(ks, id).Some? ==> exists i: nat :: FirstWith(ks, i, id) && ks[i] == Select(ks, id).value
    decreases |ks|
  {
    if ks != [] {
      if ks[0].id == id {
        assert FirstWith(ks, 0, id);
      } else {
        SelectIsFirst(ks[1..], id);
        assert forall k <- ks :: k == ks[0] || k in ks[1..];
        if Select(ks, id).Some? {
          var i: nat :| FirstWith(ks[1..], i, id) && ks[1..][i] == Select(ks, id).value;
          assert forall j :: 0 < j < i + 1 ==> ks[j] == ks[1..][j - 1];
          assert FirstWith(ks, i + 1, id);
        }
      }
    }
  }

  lemma {:induction false} OutsideIff(ordered: seq<string>, candidates: seq<string>)
    ensures Outside(ordered, candidates) == [] <==> forall s <- ordered :: s in candidates
    decreases |ordered|
  {
    if ordered != [] {
      OutsideIff(ordered[1..], candidates);
      assert ordered[0] in ordered && forall s <- ordered :: s == ordered[0] || s in ordered[1..];
    }
  }

  lemma PermitsIff(k: Capability, d: Decision)
    requires !d.NoRepair?
    ensures Offered(k) == Chosen(d) && OfferRule(k, d) == [] <==> Permits(k, d)
  {
    assert JOIN[0] == 'j' && MANUAL[0] == 'm' && BLURAY[0] == 'r' && DVD[0] == 'r' && BLURAY[6] == 'b' && DVD[6] == 'd';
    if d.JoinParts? && k.JoinOffer? { OutsideIff(d.ordered, k.candidates); }
  }

  /** An id the case mentions: of a capability, a file, a manual-import file or a piece of evidence. */
  predicate Mentions(c: Case, s: string) {
    (exists k <- c.capabilities :: k.id == s) || s in c.files || s in c.manualFiles || s in c.evidence
  }

  lemma ReferencesAreMentioned(c: Case, s: string)
    ensures s in ReferenceIds(c) <==> Mentions(c, s)
  {
  }

  /**
   A decision has no violations exactly when it names this case, refers only to
   known ids, and either repairs nothing or selects by its first id match a
   capability that permits it.
   */
  lemma AcceptedIff(c: Case, d: Decision)
    ensures Validate(c, d) == [] <==>
            && d.caseId == c.caseId
            && (forall s <- d.refs :: Mentions(c, s))
            && (d.NoRepair? || exists i: nat :: FirstWith(c.capabilities, i, d.capability) && Permits(c.capabilities[i], d))
  {
    RulesEmpty(c, d);
    assert EvidenceRule(c, d) == [] <==> forall s <- d.refs :: s in ReferenceIds(c) by {
      assert forall s :: s in Unknown((set x <- d.refs), ReferenceIds(c)) <==> s in d.refs && s !in ReferenceIds(c);
    }
    forall s <- d.refs ensures s in ReferenceIds(c) <==> Mentions(c, s) { ReferencesAreMentioned(c, s); }
    hide EvidenceRule, ReferenceIds, Validate, Mentions;
    if !d.NoRepair? {
      SelectIsFirst(c.capabilities, d.capability);
      match Select(c.capabilities, d.capability)
      case None =>
      case Some(k) =>
        PermitsIff(k, d);
        hide Permits, OfferRule, Offered, Chosen;
        var i: nat :| FirstWith(c.capabilities, i, d.capability) && c.capabilities[i] == k;
        FirstIsUnique(c.capabilities, d.capability, i);
        FilesAreOffers(c, d, k);
    }
  }

  lemma FilesAreOffers(c: Case, d: Decision, k: Capability)
    requires !d.NoRepair? && Select(c.capabilities, d.capability) == Some(k)
    ensures FilesRule(c, d) == OfferRule(k, d)
  {
  }

  lemma FirstIsUnique(ks: seq<Capability>, id: string, i: nat)
    requires FirstWith(ks, i, id)
    ensures forall j: nat :: FirstWith(ks, j, id) ==> j == i
  {
  }

  // ------------------------------------------------- what is complained of

  /** The first capability with the decision's id is this one. */
  ghost predicate Selects(c: Case, d: Decision, k: Capability) {
    !d.NoRepair? && exists i: nat :: FirstWith(c.capabilities, i, d.capability) && c.capabilities[i] == k
  }

  /** When a decision deserves each complaint. */
  ghost predicate Deserves(c: Case, d: Decision, code: Code) {
    match code
    case CaseIdMismatch => d.caseId != c.caseId
    case UnknownEvidence => exists s <- d.refs :: !Mentions(c, s)
    case UnknownCapability => !d.NoRepair? && forall k <- c.capabilities :: k.id != d.capability
    case ActionMismatch => exists k <- c.capabilities :: Selects(c, d, k) && Offered(k) != Chosen(d)
    case FileOutsideCapability =>
      d.JoinParts? && exists k <- c.capabilities :: Selects(c, d, k) && k.JoinOffer? && exists s <- d.ordered :: s !in k.candidates
    case ManualFileMismatch =>
      d.ManualImport? && exists k <- c.capabilities :: Selects(c, d, k) && k.ManualOffer? && d.file != k.file
  }

  /** What a complaint says: where, what is rejected and what would have been allowed. */
  ghost predicate Explains(c: Case, d: Decision, v: Violation) {
    match v.code
    case CaseIdMismatch => v.path == "case_id" && v.rejected == Listed([d.caseId]) && v.allowed == Listed([c.caseId])
    case UnknownEvidence =>
      && v.path == "evidence_refs" && v.rejected.Sorted? && v.allowed.Sorted?
      && (forall s :: s in v.rejected.members <==> s in d.refs && !Mentions(c, s))
      && forall s :: s in v.allowed.members <==> Mentions(c, s)
    case UnknownCapability =>
      && !d.NoRepair? && v.path == "capability_id" && v.rejected == Listed([d.capability])
      && v.allowed.SortedList? && |v.allowed.items| == |c.capabilities|
      && forall i :: 0 <= i < |c.capabilities| ==> v.allowed.items[i] == c.capabilities[i].id
    case ActionMismatch =>
      exists k <- c.capabilities :: Selects(c, d, k) && v.path == "action" && v.rejected == Listed([Chosen(d)])
                                    && v.allowed == Listed([Offered(k)])
    case FileOutsideCapability =>
      && d.JoinParts? && v.path == "ordered_file_ids" && v.rejected.Listed?
      && exists k <- c.capabilities :: Selects(c, d, k) && k.JoinOffer? && v.allowed == Listed(k.candidates)
                                       && forall s :: s in v.rejected.list <==> s in d.ordered && s !in k.candidates
    case ManualFileMismatch =>
      && d.ManualImport? && v.path == "file_id" && v.rejected == Listed([d.file])
      && exists k <- c.capabilities :: Selects(c, d, k) && k.ManualOffer? && v.allowed == Listed([k.file])
  }

  ghost predicate Complains(vs: seq<Violation>, code: Code) { exists v <- vs :: v.code == code }

  /** The order of the rules. */
  function Turn(code: Code): nat {
    match code
    case CaseIdMismatch => 0
    case UnknownEvidence => 1
    case UnknownCapability => 2
    case ActionMismatch => 2
    case FileOutsideCapability => 3
    case ManualFileMismatch => 3
  }

  predicate InTurn(vs: seq<Violation>) {
    forall i, j :: 0 <= i < j < |vs| ==> Turn(vs[i].code) < Turn(vs[j].code)
  }

  /** The complaints of rules `lo` up to `hi`: each deserved one once, in order and as it should be. */
  ghost predicate Rule(c: Case, d: Decision, vs: seq<Violation>, lo: nat, hi: nat) {
    && (forall v <- vs :: lo <= Turn(v.code) < hi && Explains(c, d, v)) && InTurn(vs)
    && forall code | lo <= Turn(code) < hi :: Complains(vs, code) <==> Deserves(c, d, code)
  }

  lemma RulesInTurn(c: Case, d: Decision, vs: seq<Violation>, ws: seq<Violation>, lo: nat, mid: nat, hi: nat)
    requires lo <= mid <= hi && Rule(c, d, vs, lo, mid) && Rule(c, d, ws, mid, hi)
    ensures Rule(c, d, vs + ws, lo, hi)
  {
    hide Explains, Deserves, Turn;
    forall code | lo <= Turn(code) < hi ensures Complains(vs + ws, code) <==> Deserves(c, d, code) {
      assert Complains(vs + ws, code) <==> Complains(vs, code) || Complains(ws, code);
    }
  }

  lemma CaseIdIsRule(c: Case, d: Decision)
    ensures Rule(c, d, CaseIdRule(c, d), 0, 1)
  {
    var vs := CaseIdRule(c, d);
    assert vs != [] ==> vs[0] in vs;
  }

  lemma EvidenceIsRule(c: Case, d: Decision)
    ensures Rule(c, d, EvidenceRule(c, d), 1, 2)
  {
    var vs := EvidenceRule(c, d);
    var rejected := Unknown((set x <- d.refs), ReferenceIds(c));
    forall s ensures s in ReferenceIds(c) <==> Mentions(c, s) { ReferencesAreMentioned(c, s); }
    hide ReferenceIds, Mentions;
    assert forall s :: s in rejected <==> s in d.refs && !Mentions(c, s);
    assert vs != [] ==> vs[0] in vs;
  }

  lemma SelectedIs(c: Case, d: Decision)
    requires !d.NoRepair?
    ensures match Select(c.capabilities, d.capability)
            case None => (forall k <- c.capabilities :: k.id != d.capability) && forall k <- c.capabilities :: !Selects(c, d, k)
            case Some(k) =>
              k in c.capabilities && k.id == d.capability && Selects(c, d, k)
              && forall j <- c.capabilities :: Selects(c, d, j) ==> j == k
  {
    SelectIsFirst(c.capabilities, d.capability);
    if Select(c.capabilities, d.capability).Some? {
      var k := Select(c.capabilities, d.capability).value;
      SelectFinds(c.capabilities, d.capability);
      var i: nat :| FirstWith(c.capabilities, i, d.capability) && c.capabilities[i] == k;
      FirstIsUnique(c.capabilities, d.capability, i);
    }
    hide Select;
  }

  lemma CapabilityIsRule(c: Case, d: Decision)
    ensures Rule(c, d, CapabilityRule(c, d), 2, 3)
  {
    var vs := CapabilityRule(c, d);
    assert vs != [] ==> vs[0] in vs;
    if !d.NoRepair? { SelectedIs(c, d); }
    hide Select, Offered, Chosen, Selects;
  }

  lemma {:induction false} OutsideMembers(ordered: seq<string>, candidates: seq<string>, s: string)
    ensures s in Outside(ordered, candidates) <==> s in ordered && s !in candidates
    decreases |ordered|
  {
    if ordered != [] { OutsideMembers(ordered[1..], candidates, s); }
  }

  lemma FilesIsRule(c: Case, d: Decision)
    ensures Rule(c, d, FilesRule(c, d), 3, 4)
  {
    var vs := FilesRule(c, d);
    assert vs != [] ==> vs[0] in vs;
    if d.JoinParts? || d.ManualImport? {
      SelectedIs(c, d);
      var selected := Select(c.capabilities, d.capability);
      if d.JoinParts? && selected.Some? && selected.value.JoinOffer? {
        var rejected := Outside(d.ordered, selected.value.candidates);
        forall s ensures s in rejected <==> s in d.ordered && s !in selected.value.candidates {
          OutsideMembers(d.ordered, selected.value.candidates, s);
        }
        assert rejected != [] ==> rejected[0] in rejected;
      }
    }
    hide Select, Selects, Outside;
  }

  /**
   Every complaint is deserved and every deserved complaint is made, once, in the
   order case, evidence, capability, files, and says exactly what is wrong.
   */
  lemma ViolationsExact(c: Case, d: Decision)
    ensures forall v <- Validate(c, d) :: Explains(c, d, v)
    ensures forall code :: Complains(Validate(c, d), code) <==> Deserves(c, d, code)
    ensures InTurn(Validate(c, d))
  {
    CaseIdIsRule(c, d);
    EvidenceIsRule(c, d);
    CapabilityIsRule(c, d);
    FilesIsRule(c, d);
    hide CaseIdRule, EvidenceRule, CapabilityRule, FilesRule, Explains, Deserves, Rule;
    RulesInTurn(c, d, CaseIdRule(c, d), EvidenceRule(c, d), 0, 1, 2);
    RulesInTurn(c, d, CaseIdRule(c, d) + EvidenceRule(c, d), CapabilityRule(c, d), 0, 2, 3);
    RulesInTurn(c, d, CaseIdRule(c, d) + EvidenceRule(c, d) + CapabilityRule(c, d), FilesRule(c, d), 0, 3, 4);
    AllRules(c, d, Validate(c, d));
  }

  lemma AllRules(c: Case, d: Decision, vs: seq<Violation>)
    requires Rule(c, d, vs, 0, 4)
    ensures (forall v <- vs :: Explains(c, d, v)) && InTurn(vs) && forall code :: Complains(vs, code) <==> Deserves(c, d, code)
  {
    hide Explains, Deserves;
  }
}
