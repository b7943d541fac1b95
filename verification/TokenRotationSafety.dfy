/**
 Safety of token rotation over every fault schedule and every sequence of runs:
 no seat loses a working bearer, no live token id is forgotten, and a token is
 revoked only when no declared seat holds it.
 */
module TokenRotationSafety {
  import opened Common
  import opened TokenRotation

  ghost predicate Inv(w: World) {
    && (forall id <- w.tokens :: id < w.nextId)
    && (forall a, b :: a in w.tokens && b in w.tokens && a != b ==> w.tokens[a].secret != w.tokens[b].secret)
    && (w.bot.None? ==> w.tokens == map[])
    && (w.saved.Some? ==> SavedIsLive(w, w.saved.value))
  }

  ghost predicate SavedIsLive(w: World, c: Credentials) {
    && w.bot.Some? && c.botId == w.bot.value.id
    && c.tokenId in w.tokens && w.tokens[c.tokenId].secret == c.token
    && (c.previous.Some? ==> c.previous.value < c.tokenId)
  }

  /** The secret the server hands out is new to its token table and to every seat. */
  ghost predicate Fresh(w: World, secret: string) {
    && (forall id <- w.tokens :: w.tokens[id].secret != secret)
    && (forall seat <- w.seats :: w.seats[seat] != Bearer(secret))
  }

  ghost predicate Recorded(w: World, id: nat) {
    w.saved.Some? && (w.saved.value.tokenId == id || w.saved.value.previous == Some(id))
  }

  /** The seat holds the bearer of a live token that saved state still names. */
  ghost predicate Working(w: World, seat: string) {
    seat in w.seats && exists id :: id in w.tokens && Recorded(w, id) && w.seats[seat] == Bearer(w.tokens[id].secret)
  }

  ghost predicate SeatsKept(declared: set<string>, w: World, w': World) {
    forall seat <- declared :: Working(w, seat) ==> Working(w', seat)
  }

  /** An id leaves saved state only after its token is gone. */
  ghost predicate IdsKept(w: World, w': World) {
    forall id :: Recorded(w, id) && id in w'.tokens ==> Recorded(w', id)
  }

  /** Ids grow, and a token that survives is the token it was. */
  ghost predicate Grows(w: World, w': World) {
    && w.nextId <= w'.nextId
    && (forall id :: id in w'.tokens && id < w.nextId ==> id in w.tokens && w'.tokens[id] == w.tokens[id])
  }

  ghost predicate RevokedUnheld(declared: set<string>, w: World, w': World) {
    forall id, seat :: id in w.tokens && id !in w'.tokens && seat in declared && seat in w'.seats
                       ==> w'.seats[seat] != Bearer(w.tokens[id].secret)
  }

  ghost predicate Safe(declared: set<string>, w: World, w': World) {
    && Inv(w') && SeatsKept(declared, w, w') && IdsKept(w, w') && Grows(w, w') && RevokedUnheld(declared, w, w')
  }

  /** A run that declares these seats, and perhaps others. */
  ghost predicate Covers(seats: seq<string>, declared: set<string>) {
    forall seat <- declared :: seat in seats
  }

  lemma BearerInjective(a: string, b: string)
    requires Bearer(a) == Bearer(b)
    ensures a == b
  {
    assert Bearer(a)[7..] == a && Bearer(b)[7..] == b;
  }

  lemma SafeReflexive(declared: set<string>, w: World)
    requires Inv(w)
    ensures Safe(declared, w, w)
  {
  }

  // --------------------------------------------------------- publication

  /** Publication touches seats only, moves each one only to the new bearer, and completes only when all moved. */
  lemma {:induction false} PublishEffect(w: World, seats: seq<string>, authorization: string, faults: seq<Fault>)
    ensures var r := Publish(w, seats, authorization, faults);
            && r.world == w.(seats := r.world.seats)
            && w.seats.Keys <= r.world.seats.Keys
            && (forall seat <- r.world.seats ::
                  r.world.seats[seat] == authorization || (seat in w.seats && r.world.seats[seat] == w.seats[seat]))
            && (r.status == Completed ==>
                  forall seat <- seats :: seat in r.world.seats && r.world.seats[seat] == authorization)
    decreases |seats|
  {
    if seats != [] {
      var reading := Read(w, faults);
      if reading.status == Completed {
        var done := if seats[0] in w.seats && w.seats[seats[0]] == authorization
                    then reading
                    else Write(w, w.(seats := w.seats[seats[0] := authorization]), reading.rest);
        if done.status == Completed {
          PublishEffect(done.world, seats[1..], authorization, done.rest);
        }
      }
    }
  }

  ghost predicate AllHold(declared: set<string>, w: World, secret: string) {
    forall seat <- declared :: seat in w.seats && w.seats[seat] == Bearer(secret)
  }

  lemma RevokeSafe(declared: set<string>, w: World, c: Credentials)
    requires Inv(w) && w.saved == Some(c) && c.previous.Some? && AllHold(declared, w, c.token)
    ensures Safe(declared, w, Delete(w, c.previous.value))
  {
    var w' := Delete(w, c.previous.value);
    assert c.tokenId in w'.tokens && Recorded(w', c.tokenId);
    forall id, seat | id in w.tokens && id !in w'.tokens && seat in declared && seat in w'.seats
      ensures w'.seats[seat] != Bearer(w.tokens[id].secret)
    {
      if w'.seats[seat] == Bearer(w.tokens[id].secret) { BearerInjective(c.token, w.tokens[id].secret); }
    }
  }

  lemma ForgetSafe(declared: set<string>, w: World, c: Credentials)
    requires Inv(w) && w.saved == Some(c) && AllHold(declared, w, c.token)
    requires c.previous.Some? ==> c.previous.value !in w.tokens
    ensures Safe(declared, w, Save(w, c.(previous := None)))
  {
  }

  lemma RetireSafe(declared: set<string>, w: World, retiring: Option<nat>, c: Credentials, faults: seq<Fault>)
    requires Inv(w) && w.saved == Some(c) && AllHold(declared, w, c.token)
    requires retiring.Some? ==> c.previous == retiring
    requires c.previous.Some? && c.previous.value in w.tokens ==> retiring.Some?
    ensures Safe(declared, w, Retire(w, retiring, c, faults).world)
  {
    SafeReflexive(declared, w);
    var mid := w;
    if retiring.Some? {
      mid := Delete(w, retiring.value);
      RevokeSafe(declared, w, c);
    }
    ForgetSafe(declared, mid, c);
    SafeTransitive(declared, w, mid, Save(mid, c.(previous := None)));
  }

  lemma FinishSafe(declared: set<string>, w: World, decl: Declaration, retiring: Option<nat>,
                   credentials: Credentials, faults: seq<Fault>)
    requires Inv(w) && w.saved == Some(credentials) && Covers(decl.seats, declared)
    requires retiring.Some? ==> credentials.previous == retiring
    requires credentials.previous.Some? && credentials.previous.value in w.tokens ==> retiring.Some?
    ensures Safe(declared, w, Finish(w, decl, retiring, credentials, faults).world)
  {
    PublishEffect(w, decl.seats, Bearer(credentials.token), faults);
    var published := Publish(w, decl.seats, Bearer(credentials.token), faults);
    assert Recorded(w, credentials.tokenId) && Recorded(published.world, credentials.tokenId);
    assert forall id :: Recorded(w, id) <==> Recorded(published.world, id);
    assert Safe(declared, w, published.world);
    if published.status == Completed {
      RetireSafe(declared, published.world, retiring, credentials, published.rest);
      SafeTransitive(declared, w, published.world, Finish(w, decl, retiring, credentials, faults).world);
    }
  }

  /** Chaining two safe stretches; the second must not hand a seat a bearer revoked in the first. */
  lemma SafeTransitive(declared: set<string>, w: World, mid: World, w': World)
    requires Inv(w) && Safe(declared, w, mid) && Safe(declared, mid, w')
    requires w.tokens == mid.tokens || mid.seats == w'.seats
    ensures Safe(declared, w, w')
  {
  }

  // ------------------------------------------------------------ issuing

  /** Saving the new credentials over the old carries the old current id along as previous. */
  ghost predicate Carried(w: World, plan: Plan) {
    && (plan.token.Some? ==> plan.token.value in w.tokens)
    && (w.saved.Some? ==> w.saved.value.previous.None? && plan.token == Some(w.saved.value.tokenId))
  }

  lemma IssueSafe(declared: set<string>, w: World, spec: TokenSpec, secret: string)
    requires Inv(w) && Fresh(w, secret) && w.bot.Some?
    ensures var issued := Issue(w, spec, secret);
            && Safe(declared, w, issued) && Safe(declared, w, Delete(issued, w.nextId))
  {
    var issued := Issue(w, spec, secret);
    assert Delete(issued, w.nextId).tokens == w.tokens;
    assert forall id: nat :: Recorded(w, id) <==> Recorded(issued, id);
    forall seat <- declared | Working(w, seat) ensures Working(issued, seat) && Working(Delete(issued, w.nextId), seat) {
      var id :| id in w.tokens && Recorded(w, id) && w.seats[seat] == Bearer(w.tokens[id].secret);
      assert id in issued.tokens && Recorded(issued, id) && issued.tokens[id] == w.tokens[id];
      assert Recorded(Delete(issued, w.nextId), id);
    }
  }

  lemma SaveSafe(declared: set<string>, w: World, decl: Declaration, plan: Plan, secret: string)
    requires Inv(w) && Fresh(w, secret) && w.bot.Some? && Carried(w, plan)
    ensures var credentials := NewCredentials(w, decl, w.bot.value.id, plan, secret);
            Safe(declared, w, Save(Issue(w, decl.token, secret), credentials))
  {
    var credentials := NewCredentials(w, decl, w.bot.value.id, plan, secret);
    var saved := Save(Issue(w, decl.token, secret), credentials);
    forall seat <- declared | Working(w, seat) ensures Working(saved, seat) {
      var id :| id in w.tokens && Recorded(w, id) && w.seats[seat] == Bearer(w.tokens[id].secret);
      assert id in saved.tokens && Recorded(saved, id) && saved.tokens[id] == w.tokens[id];
    }
  }

  /** The five places where an issuing run can stop. */
  lemma IssueOutcomes(w: World, decl: Declaration, plan: Plan, secret: string, faults: seq<Fault>) returns (rest: seq<Fault>)
    requires w.bot.Some?
    ensures var issued := Issue(w, decl.token, secret);
            var credentials := NewCredentials(w, decl, w.bot.value.id, plan, secret);
            var saved := Save(issued, credentials);
            IssueAndFinish(w, decl, plan, secret, faults).world in
            {w, issued, Delete(issued, w.nextId), saved, Finish(saved, decl, plan.token, credentials, rest).world}
  {
    var issued := Issue(w, decl.token, secret);
    var called := Call(w, issued, faults);
    var stored := SaveIssued(issued, NewCredentials(w, decl, w.bot.value.id, plan, secret), called.rest);
    rest := stored.rest;
  }

  lemma IssueAndFinishSafe(declared: set<string>, w: World, decl: Declaration, plan: Plan, secret: string,
                           faults: seq<Fault>)
    requires Inv(w) && Fresh(w, secret) && w.bot.Some? && Carried(w, plan) && Covers(decl.seats, declared)
    ensures Safe(declared, w, IssueAndFinish(w, decl, plan, secret, faults).world)
  {
    SafeReflexive(declared, w);
    IssueSafe(declared, w, decl.token, secret);
    SaveSafe(declared, w, decl, plan, secret);
    var rest := IssueOutcomes(w, decl, plan, secret, faults);
    FinishAfterSave(declared, w, decl, plan, secret, rest);
  }

  /** Between the save and the end of the run no seat can pick up a bearer that the run revoked. */
  lemma FinishAfterSave(declared: set<string>, w: World, decl: Declaration, plan: Plan, secret: string,
                        faults: seq<Fault>)
    requires Inv(w) && Fresh(w, secret) && w.bot.Some? && Carried(w, plan) && Covers(decl.seats, declared)
    ensures var credentials := NewCredentials(w, decl, w.bot.value.id, plan, secret);
            var saved := Save(Issue(w, decl.token, secret), credentials);
            Safe(declared, w, Finish(saved, decl, plan.token, credentials, faults).world)
  {
    var credentials := NewCredentials(w, decl, w.bot.value.id, plan, secret);
    var saved := Save(Issue(w, decl.token, secret), credentials);
    var w' := Finish(saved, decl, plan.token, credentials, faults).world;
    SaveSafe(declared, w, decl, plan, secret);
    FinishSafe(declared, saved, decl, plan.token, credentials, faults);
    forall id, seat | id in w.tokens && id !in w'.tokens && seat in declared && seat in w'.seats
      ensures w'.seats[seat] != Bearer(w.tokens[id].secret)
    {
      assert id in saved.tokens && saved.tokens[id] == w.tokens[id];
    }
  }

  // --------------------------------------------------------------- runs

  lemma SetupSafe(declared: set<string>, w: World, w': World)
    requires Inv(w) && SameTokens(w, w')
    ensures Safe(declared, w, w')
    ensures forall secret :: Fresh(w, secret) ==> Fresh(w', secret)
  {
  }

  /**
   One run, however it is asked and wherever it stops: every working seat keeps
   working, no live token id is dropped, a token is revoked only when no declared
   seat holds it, and the invariant holds for the next run.
   */
  lemma RunSafe(declared: set<string>, w: World, request: Request)
    requires Inv(w) && Fresh(w, request.secret) && Covers(request.decl.seats, declared)
    ensures Safe(declared, w, Run(w, request).world)
  {
    SafeReflexive(declared, w);
    var looked := Read(w, request.faults);
    var planned := MakePlan(w, request.decl, request.rotate, request.now);
    if looked.status == Completed && planned.Ok? {
      var plan := planned.value;
      var inspected := Read(w, looked.rest);
      if inspected.status == Completed {
        ApplySafe(declared, w, request, plan, inspected.rest);
      }
    }
  }

  lemma ApplySafe(declared: set<string>, w: World, request: Request, plan: Plan, faults: seq<Fault>)
    requires Inv(w) && Fresh(w, request.secret) && Covers(request.decl.seats, declared)
    requires MakePlan(w, request.decl, request.rotate, request.now) == Ok(plan)
    ensures Safe(declared, w, Apply(w, request.decl, plan, request.secret, request.botId, faults).world)
  {
    SetupFrame(w, request.decl, plan, request.botId, faults);
    var bot := ApplyBot(w, request.decl.bot, request.botId, faults);
    SetupSafe(declared, w, bot.world);
    if bot.status == Completed {
      var shared := ApplyShares(bot.world, plan.access, bot.rest);
      SetupSafe(declared, w, shared.world);
      if shared.status == Completed {
        if plan.issue {
          IssueAndFinishSafe(declared, shared.world, request.decl, plan, request.secret, shared.rest);
        } else {
          FinishSafe(declared, shared.world, request.decl, plan.retiring, shared.world.saved.value, shared.rest);
        }
        SafeTransitive(declared, w, shared.world,
                       Apply(w, request.decl, plan, request.secret, request.botId, faults).world);
      }
    }
  }

  /** The world after each of a sequence of runs; the run lock serialises them. */
  function RunAll(w: World, requests: seq<Request>): World
    decreases |requests|
  {
    if requests == [] then w else RunAll(Run(w, requests[0]).world, requests[1..])
  }

  /** Each run is handed a fresh secret and declares at least these seats. */
  ghost predicate Admissible(declared: set<string>, w: World, requests: seq<Request>)
    decreases |requests|
  {
    requests == [] ||
    (&& Fresh(w, requests[0].secret)
     && Covers(requests[0].decl.seats, declared)
     && Admissible(declared, Run(w, requests[0]).world, requests[1..]))
  }

  /**
   Over every sequence of runs, rotating or not, with any declarations that
   keep these seats, and with failures or crashes after any call: a working seat stays
   working and no recorded id of a live token is forgotten.
   */
  lemma {:induction false} RunsKeepSeatsAndIds(declared: set<string>, w: World, requests: seq<Request>)
    requires Inv(w) && Admissible(declared, w, requests)
    ensures var w' := RunAll(w, requests);
            Inv(w') && SeatsKept(declared, w, w') && IdsKept(w, w') && Grows(w, w')
    decreases |requests|
  {
    if requests != [] {
      var next := Run(w, requests[0]).world;
      RunSafe(declared, w, requests[0]);
      RunsKeepSeatsAndIds(declared, next, requests[1..]);
      assert IdsKept(w, next) && IdsKept(next, RunAll(w, requests));
    }
  }

  /** The invariant holds in every state runs reach from an empty token table with nothing saved. */
  lemma RunsFromStartKeepInv(declared: set<string>, w: World, requests: seq<Request>)
    requires w.saved.None? && w.tokens == map[] && Admissible(declared, w, requests)
    ensures Inv(RunAll(w, requests))
  {
    RunsKeepSeatsAndIds(declared, w, requests);
  }

  lemma {:induction false} PublishLeavesOthers(
      w: World, seats: seq<string>, authorization: string, faults: seq<Fault>, other: string)
    requires other !in seats
    ensures var r := Publish(w, seats, authorization, faults);
            (other in r.world.seats <==> other in w.seats)
            && (other in w.seats ==> r.world.seats[other] == w.seats[other])
    decreases |seats|
  {
    if seats != [] {
      var reading := Read(w, faults);
      if reading.status == Completed {
        var done := if seats[0] in w.seats && w.seats[seats[0]] == authorization
                    then reading
                    else Write(w, w.(seats := w.seats[seats[0] := authorization]), reading.rest);
        if done.status == Completed {
          PublishLeavesOthers(done.world, seats[1..], authorization, done.rest, other);
        }
      }
    }
  }

  /** Why the seats must be declared: one that still holds the retired bearer and is not stops working. */
  lemma UndeclaredSeatStops(w: World, decl: Declaration, retiring: nat, faults: seq<Fault>, seat: string)
    requires Inv(w) && w.saved.Some? && w.saved.value.previous == Some(retiring) && retiring in w.tokens
    requires seat in w.seats && w.seats[seat] == Bearer(w.tokens[retiring].secret) && seat !in decl.seats
    requires Finish(w, decl, Some(retiring), w.saved.value, faults).status == Completed
    ensures Working(w, seat) && !Working(Finish(w, decl, Some(retiring), w.saved.value, faults).world, seat)
  {
    var c := w.saved.value;
    PublishEffect(w, decl.seats, Bearer(c.token), faults);
    PublishLeavesOthers(w, decl.seats, Bearer(c.token), faults, seat);
    var published := Publish(w, decl.seats, Bearer(c.token), faults);
    var w' := Finish(w, decl, Some(retiring), c, faults).world;
    hide Publish;
    assert w'.tokens == w.tokens - {retiring} && w'.seats == published.world.seats;
    assert Recorded(w, retiring);
    forall id | id in w'.tokens ensures w'.seats[seat] != Bearer(w'.tokens[id].secret) {
      BearerDiffers(w.tokens[id].secret, w.tokens[retiring].secret);
    }
  }

  lemma BearerDiffers(a: string, b: string)
    requires a != b
    ensures Bearer(a) != Bearer(b)
  {
    assert Bearer(a)[7..] == a && Bearer(b)[7..] == b;
  }
}
