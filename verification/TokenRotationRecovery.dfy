/**
 Recovery of token rotation: exactly when a later run is accepted, and that one
 failure-free run settles everything an interrupted run left behind.
 */
module TokenRotationRecovery {
  import opened Common
  import opened TokenRotation
  import opened TokenRotationSafety

  /** A live token with the declared title that saved state does not name. */
  ghost predicate Stray(w: World, title: string, id: nat) {
    id in w.tokens && w.tokens[id].title == title && !Recorded(w, id)
  }

  /** Saved state belongs to this declaration and its live token is the declared one, with no stray beside it. */
  ghost predicate Clean(w: World, decl: Declaration) {
    && w.saved.Some? && !Foreign(w, decl)
    && ProjectAccess(w, decl.projects).Ok?
    && w.saved.value.tokenId in w.tokens
    && w.saved.value.previous != Some(w.saved.value.tokenId)
    && w.tokens[w.saved.value.tokenId].Matches(decl.token)
    && (forall id: nat :: !Stray(w, decl.token.title, id))
  }

  lemma NamedWhenClean(w: World, title: string)
    requires w.saved.Some? && w.saved.value.tokenId in w.tokens
    requires w.saved.value.previous != Some(w.saved.value.tokenId)
    requires w.tokens[w.saved.value.tokenId].title == title
    ensures |Named(w, title)| <= 1 <==> (forall id: nat :: !Stray(w, title, id))
    ensures w.saved.value.tokenId in Named(w, title)
  {
    var named := Named(w, title);
    var current := w.saved.value.tokenId;
    assert forall id: nat :: Stray(w, title, id) ==> id in named && id != current;
    assert current in named;
    if |named| <= 1 { AtMostOne(named); }
    if forall id: nat :: !Stray(w, title, id) {
      forall id <- named ensures id == current { assert !Stray(w, title, id); }
      assert named == {current};
    }
  }

  /** A live token with the declared title. */
  ghost predicate Titled(w: World, title: string, id: nat) { id in w.tokens && w.tokens[id].title == title }

  lemma NamedWhenUnsaved(w: World, title: string)
    requires w.saved.None?
    ensures Named(w, title) == {} <==> forall id: nat :: !Titled(w, title, id)
    ensures |Named(w, title)| <= 1 <==> forall a: nat, b: nat :: Titled(w, title, a) && Titled(w, title, b) ==> a == b
  {
    var named := Named(w, title);
    assert forall id: nat :: Titled(w, title, id) <==> id in named;
    if |named| <= 1 {
      AtMostOne(named);
    } else {
      var a :| a in named;
      assert named - {a} != {} by { assert |named - {a}| == |named| - 1; }
      var b :| b in named - {a};
      assert Titled(w, title, a) && Titled(w, title, b);
    }
  }

  /**
   In every reachable state, a run without rotation is accepted exactly when the
   declared expiry is ahead and the saved state is clean, or, with nothing saved
   yet, when projects resolve and no live token has the declared title.
   */
  lemma RetryAcceptedIff(w: World, decl: Declaration, now: int)
    requires Inv(w)
    ensures MakePlan(w, decl, false, now).Ok?
            <==> && now < decl.token.expiresAt
                 && if w.saved.Some? then Clean(w, decl)
                    else ProjectAccess(w, decl.projects).Ok? && forall id: nat :: !Titled(w, decl.token.title, id)
  {
    if w.saved.None? {
      NamedWhenUnsaved(w, decl.token.title);
    } else if w.tokens[w.saved.value.tokenId].title == decl.token.title {
      NamedWhenClean(w, decl.token.title);
    }
  }

  /**
   Rotation is accepted exactly when none is pending and no other live token
   carries the declared title; with nothing saved yet, one may.
   */
  lemma RotationAcceptedIff(w: World, decl: Declaration, now: int)
    requires Inv(w)
    ensures MakePlan(w, decl, true, now).Ok?
            <==> && now < decl.token.expiresAt && ProjectAccess(w, decl.projects).Ok?
                 && if w.saved.Some? then
                      && w.saved.value.previous.None? && !Foreign(w, decl)
                      && forall id: nat :: !Stray(w, decl.token.title, id)
                    else
                      forall a: nat, b: nat ::
                        Titled(w, decl.token.title, a) && Titled(w, decl.token.title, b) ==> a == b
  {
    if w.saved.None? {
      NamedWhenUnsaved(w, decl.token.title);
    } else {
      SavedRotationAcceptedIff(w, decl, now);
    }
  }

  lemma SavedRotationAcceptedIff(w: World, decl: Declaration, now: int)
    requires Inv(w) && w.saved.Some?
    ensures MakePlan(w, decl, true, now).Ok?
            <==> && now < decl.token.expiresAt && ProjectAccess(w, decl.projects).Ok?
                 && w.saved.value.previous.None? && !Foreign(w, decl)
                 && forall id: nat :: !Stray(w, decl.token.title, id)
  {
    var current := w.saved.value.tokenId;
    var named := Named(w, decl.token.title);
    if w.tokens[current].title == decl.token.title {
      NamedWhenClean(w, decl.token.title);
    } else if w.saved.value.previous.None? {
      if named != {} {
        var id :| id in named;
        assert Stray(w, decl.token.title, id);
      } else {
        forall id: nat ensures !Stray(w, decl.token.title, id) { assert id !in named; }
      }
    }
  }

  /**
   Stopping between issuing and saving: a later run for the same title is refused
   without rotation, and with rotation it is accepted exactly when this was the
   first issue, no other live token has the title, and nothing else stands against it.
   */
  lemma InterruptedIssueBlocks(w: World, issued: TokenSpec, secret: string, decl: Declaration, now: int)
    requires Inv(w) && Fresh(w, secret) && w.bot.Some? && decl.token.title == issued.title
    ensures MakePlan(Issue(w, issued, secret), decl, false, now).Err?
    ensures MakePlan(Issue(w, issued, secret), decl, true, now).Ok?
            <==> && w.saved.None? && (forall id: nat :: !Titled(w, issued.title, id))
                 && now < decl.token.expiresAt && ProjectAccess(w, decl.projects).Ok?
  {
    hide MakePlan, ManagedToken;
    var after := Issue(w, issued, secret);
    IssueSafe({}, w, issued, secret);
    AccessIgnoresShares(w, after, decl.projects);
    assert Titled(after, issued.title, w.nextId);
    assert w.saved.Some? ==> Stray(after, issued.title, w.nextId);
    assert forall id: nat :: Titled(after, issued.title, id) <==> Titled(w, issued.title, id) || id == w.nextId;
    RetryAcceptedIff(after, decl, now);
    RotationAcceptedIff(after, decl, now);
    hide Inv, Titled, ProjectAccess;
  }

  /** A later run that declares another title is accepted as if the interrupted issue had not happened. */
  lemma InterruptedIssueElsewhere(
      w: World, issued: TokenSpec, secret: string, decl: Declaration, rotate: bool, now: int)
    requires Inv(w) && decl.token.title != issued.title
    ensures MakePlan(Issue(w, issued, secret), decl, rotate, now).Ok? <==> MakePlan(w, decl, rotate, now).Ok?
  {
    var after := Issue(w, issued, secret);
    AccessIgnoresShares(w, after, decl.projects);
    assert Named(after, decl.token.title) == Named(w, decl.token.title);
  }

  /** The world had a save taken effect and been reported failed: saved state names the token that was then revoked. */
  function SavedButRevoked(w: World, decl: Declaration, plan: Plan, secret: string): World
    requires w.bot.Some?
  {
    Delete(Save(Issue(w, decl.token, secret), NewCredentials(w, decl, w.bot.value.id, plan, secret)), w.nextId)
  }

  /**
   Why a failed SOPS write must leave the old value. In that world a run without
   rotation is always refused. With rotation it is refused whenever a token was
   being replaced; it is accepted exactly when this was the first issue under
   the title, for the same server, with at most one live token in its way.
   */
  lemma SavedButRevokedIsStuck(w: World, decl: Declaration, plan: Plan, secret: string, later: Declaration, now: int)
    requires Inv(w) && w.bot.Some? && ManagedToken(w, decl.token.title) == Ok(plan.token)
    ensures var after := SavedButRevoked(w, decl, plan, secret);
            && MakePlan(after, later, false, now).Err?
            && (MakePlan(after, later, true, now).Ok? <==>
                  && w.saved.None? && (forall id: nat :: !Titled(w, decl.token.title, id))
                  && later.server == decl.server && now < later.token.expiresAt && ProjectAccess(w, later.projects).Ok?
                  && forall a: nat, b: nat ::
                       Titled(w, later.token.title, a) && Titled(w, later.token.title, b) ==> a == b)
  {
    var after := SavedButRevoked(w, decl, plan, secret);
    assert after.tokens == w.tokens && after.saved.value.previous == plan.token;
    assert Foreign(after, later) <==> later.server != decl.server;
    ManagedIsNone(w, decl.token.title);
    if w.saved.None? { NamedWhenUnsaved(w, later.token.title); }
    assert w.saved.None? && plan.token.None? ==> Named(after, later.token.title) == Named(w, later.token.title);
    AccessIgnoresShares(w, after, later.projects);
    hide MakePlan, ManagedToken, ProjectAccess, Titled, Named, Foreign, SavedButRevoked;
    SavedTokenGone(after, later, now);
  }

  lemma ManagedIsNone(w: World, title: string)
    requires Inv(w)
    ensures ManagedToken(w, title) == Ok(None) <==> w.saved.None? && forall id: nat :: !Titled(w, title, id)
  {
    if w.saved.None? { NamedWhenUnsaved(w, title); }
  }

  /** What planning says when the saved token is not live. */
  lemma SavedTokenGone(w: World, decl: Declaration, now: int)
    requires w.saved.Some? && w.saved.value.tokenId !in w.tokens
    ensures MakePlan(w, decl, false, now).Err?
    ensures MakePlan(w, decl, true, now).Ok? <==>
            && now < decl.token.expiresAt && w.saved.value.previous.None? && !Foreign(w, decl)
            && ProjectAccess(w, decl.projects).Ok? && |Named(w, decl.token.title)| <= 1
  {
    hide ProjectAccess;
  }

  // ------------------------------------------- a saved rotation is clean

  lemma {:induction false} AccessIgnoresShares(w: World, w': World, wanted: seq<ProjectSpec>)
    requires w.projects == w'.projects
    ensures ProjectAccess(w, wanted).Ok? <==> ProjectAccess(w', wanted).Ok?
    decreases |wanted|
  {
    if wanted != [] { AccessIgnoresShares(w, w', wanted[1..]); }
  }

  ghost predicate SavedNew(w: World, w': World) { w'.saved.Some? && w'.saved.value.tokenId == w.nextId }

  /** What publication and retirement can have changed when they stop. */
  lemma FinishChanges(w: World, decl: Declaration, retiring: Option<nat>, c: Credentials, faults: seq<Fault>)
    ensures var w' := Finish(w, decl, retiring, c, faults).world;
            && w'.projects == w.projects && w'.bot == w.bot
            && (w'.tokens == w.tokens || (retiring.Some? && w'.tokens == w.tokens - {retiring.value}))
            && (w'.saved == w.saved || (w'.saved == Some(c.(previous := None))
                                        && (retiring.Some? ==> w'.tokens == w.tokens - {retiring.value})))
  {
    PublishEffect(w, decl.seats, Bearer(c.token), faults);
    hide Publish;
  }

  /** Publication and retirement keep a clean state clean, wherever they stop. */
  lemma FinishKeepsClean(w: World, decl: Declaration, retiring: Option<nat>, faults: seq<Fault>)
    requires Clean(w, decl)
    requires retiring.Some? ==> w.saved.value.previous == retiring
    requires w.saved.value.previous.Some? && w.saved.value.previous.value in w.tokens ==> retiring.Some?
    ensures Clean(Finish(w, decl, retiring, w.saved.value, faults).world, decl)
    ensures Finish(w, decl, retiring, w.saved.value, faults).world.saved.value.tokenId == w.saved.value.tokenId
    ensures Finish(w, decl, retiring, w.saved.value, faults).world.projects == w.projects
  {
    hide Finish;
    var c := w.saved.value;
    FinishChanges(w, decl, retiring, c, faults);
    var w' := Finish(w, decl, retiring, c, faults).world;
    AccessIgnoresShares(w, w', decl.projects);
    forall id: nat ensures !Stray(w', decl.token.title, id) {
      assert !Stray(w, decl.token.title, id);
    }
  }

  lemma IssuingLeavesClean(w: World, decl: Declaration, plan: Plan, secret: string, faults: seq<Fault>)
    requires Inv(w) && Fresh(w, secret) && w.bot.Some? && Carried(w, plan)
    requires ProjectAccess(w, decl.projects).Ok?
    requires forall id <- w.tokens :: w.tokens[id].title == decl.token.title ==> plan.token == Some(id)
    requires SavedNew(w, IssueAndFinish(w, decl, plan, secret, faults).world)
    ensures Clean(IssueAndFinish(w, decl, plan, secret, faults).world, decl)
  {
    var credentials := NewCredentials(w, decl, w.bot.value.id, plan, secret);
    var saved := Save(Issue(w, decl.token, secret), credentials);
    AccessIgnoresShares(w, saved, decl.projects);
    assert saved.tokens[w.nextId].Matches(decl.token);
    forall id: nat ensures !Stray(saved, decl.token.title, id) {
      if id in saved.tokens && saved.tokens[id].title == decl.token.title && id != w.nextId {
        assert id in w.tokens;
      }
    }
    assert Clean(saved, decl);
    var rest := IssueOutcomes(w, decl, plan, secret, faults);
    FinishKeepsClean(saved, decl, plan.token, rest);
  }

  /** New credentials are saved only by an issuing run that got past the bot and share calls. */
  lemma SavedRunIssued(w: World, request: Request) returns (plan: Plan, shared: Exec)
    requires Inv(w)
    requires SavedNew(w, Run(w, request).world)
    ensures MakePlan(w, request.decl, request.rotate, request.now) == Ok(plan) && plan.issue
    ensures SameTokens(w, shared.world) && shared.world.bot.Some?
    ensures Run(w, request).world == IssueAndFinish(shared.world, request.decl, plan, request.secret, shared.rest).world
  {
    var decl := request.decl;
    plan := MakePlan(w, decl, request.rotate, request.now).value;
    var faults := Read(w, Read(w, request.faults).rest).rest;
    SetupFrame(w, decl, plan, request.botId, faults);
    var bot := ApplyBot(w, decl.bot, request.botId, faults);
    shared := ApplyShares(bot.world, plan.access, bot.rest);
    if !plan.issue { NonIssuingKeepsCurrent(shared.world, decl, plan, shared.rest); }
  }

  /** A run that got as far as saving new credentials leaves a clean state, wherever it then stopped. */
  lemma SavedRunIsClean(w: World, request: Request)
    requires Inv(w) && Fresh(w, request.secret)
    requires SavedNew(w, Run(w, request).world)
    ensures Clean(Run(w, request).world, request.decl)
  {
    var plan, shared := SavedRunIssued(w, request);
    SetupSafe({}, w, shared.world);
    AccessIgnoresShares(w, shared.world, request.decl.projects);
    TitledIsManaged(w, request.decl, request.rotate, request.now);
    IssuingLeavesClean(shared.world, request.decl, plan, request.secret, shared.rest);
  }

  lemma NonIssuingKeepsCurrent(w: World, decl: Declaration, plan: Plan, faults: seq<Fault>)
    requires w.saved.Some?
    ensures var w' := Finish(w, decl, plan.retiring, w.saved.value, faults).world;
            w'.saved.Some? && w'.saved.value.tokenId == w.saved.value.tokenId
  {
    hide Finish;
    FinishChanges(w, decl, plan.retiring, w.saved.value, faults);
  }

  /** When a plan that issues is accepted, the managed token is the only live one with the declared title. */
  lemma TitledIsManaged(w: World, decl: Declaration, rotate: bool, now: int)
    requires Inv(w)
    requires MakePlan(w, decl, rotate, now).Ok? && MakePlan(w, decl, rotate, now).value.issue
    ensures var plan := MakePlan(w, decl, rotate, now).value;
            && Carried(w, plan)
            && forall id <- w.tokens :: w.tokens[id].title == decl.token.title ==> plan.token == Some(id)
  {
    var named := Named(w, decl.token.title);
    AtMostOne(named);
    forall id <- w.tokens | w.tokens[id].title == decl.token.title ensures id in named {}
  }

  /** A run without rotation keeps a clean state clean, whatever fails. */
  lemma RetryKeepsClean(w: World, request: Request)
    requires Clean(w, request.decl) && !request.rotate
    ensures Clean(Run(w, request).world, request.decl)
  {
    var decl := request.decl;
    var planned := MakePlan(w, decl, false, request.now);
    if planned.Ok? {
      var plan := planned.value;
      var faults := Read(w, Read(w, request.faults).rest).rest;
      SetupFrame(w, decl, plan, request.botId, faults);
      var bot := ApplyBot(w, decl.bot, request.botId, faults);
      SetupKeepsClean(w, bot.world, decl);
      if bot.status == Completed {
        var shared := ApplyShares(bot.world, plan.access, bot.rest);
        SetupKeepsClean(w, shared.world, decl);
        FinishKeepsClean(shared.world, decl, plan.retiring, shared.rest);
      }
    }
  }

  lemma SetupKeepsClean(w: World, w': World, decl: Declaration)
    requires Clean(w, decl) && SameTokens(w, w')
    ensures Clean(w', decl)
  {
    AccessIgnoresShares(w, w', decl.projects);
    forall id: nat ensures !Stray(w', decl.token.title, id) { assert !Stray(w, decl.token.title, id); }
  }

  // ----------------------------------------------------------- settling

  ghost predicate AllFine(faults: seq<Fault>) { forall i :: 0 <= i < |faults| ==> faults[i] == Fine }

  /** Project ids on the server and declared project titles are unique. */
  ghost predicate DistinctProjects(projects: seq<Project>, wanted: seq<ProjectSpec>) {
    && (forall i, j :: 0 <= i < j < |projects| ==> projects[i].id != projects[j].id)
    && (forall i, j :: 0 <= i < j < |wanted| ==> wanted[i].title != wanted[j].title)
  }

  /** Planning again finds nothing to change and no seat to update. */
  ghost predicate Settled(w: World, decl: Declaration) {
    && Clean(w, decl)
    && w.saved.value.previous.None?
    && (forall now: int | now < decl.token.expiresAt ::
          && MakePlan(w, decl, false, now).Ok?
          && MakePlan(w, decl, false, now).value.changes == [])
    && SeatPlan(w, decl.seats, w.saved) == []
  }

  lemma {:induction false} MatchingTitle(projects: seq<Project>, title: string)
    ensures forall p <- Matching(projects, title) :: p in projects && p.title == title
  {
    if projects != [] { MatchingTitle(projects[1..], title); }
  }

  lemma ProjectsById(projects: seq<Project>, a: Project, b: Project)
    requires forall i, j :: 0 <= i < j < |projects| ==> projects[i].id != projects[j].id
    requires a in projects && b in projects
    ensures a.id == b.id ==> a == b
  {
  }

  /** Distinct declared titles resolve to distinct project ids. */
  lemma {:induction false} AccessIds(w: World, wanted: seq<ProjectSpec>, title: string, p: Project)
    requires DistinctProjects(w.projects, wanted)
    requires forall spec <- wanted :: spec.title != title
    requires p in w.projects && p.title == title
    requires ProjectAccess(w, wanted).Ok?
    ensures forall a <- ProjectAccess(w, wanted).value :: a.projectId != p.id
    decreases |wanted|
  {
    if wanted != [] {
      AccessIds(w, wanted[1..], title, p);
      var found := Matching(w.projects, wanted[0].title);
      MatchingTitle(w.projects, wanted[0].title);
      ProjectsById(w.projects, found[0], p);
    }
  }

  /** Failure-free share calls leave nothing to update. */
  lemma {:induction false} SharesSettle(w: World, wanted: seq<ProjectSpec>, v: World, faults: seq<Fault>)
    requires DistinctProjects(w.projects, wanted) && ProjectAccess(w, wanted).Ok? && AllFine(faults)
    requires v.projects == w.projects
    requires forall a <- ProjectAccess(w, wanted).value ::
               (a.projectId in v.shares <==> a.projectId in w.shares)
               && (a.projectId in w.shares ==> v.shares[a.projectId] == w.shares[a.projectId])
    ensures var r := ApplyShares(v, ProjectAccess(w, wanted).value, faults);
            && r.status == Completed && AllFine(r.rest)
            && r.world == v.(shares := r.world.shares)
            && ProjectAccess(r.world, wanted).Ok?
            && ShareChanges(ProjectAccess(r.world, wanted).value) == []
            && (forall id: nat :: (forall a <- ProjectAccess(w, wanted).value :: a.projectId != id) ==>
                  (id in r.world.shares <==> id in v.shares) && (id in v.shares ==> r.world.shares[id] == v.shares[id]))
    decreases |wanted|
  {
    if wanted != [] {
      var access := ProjectAccess(w, wanted).value;
      var found := Matching(w.projects, wanted[0].title);
      MatchingTitle(w.projects, wanted[0].title);
      AccessIds(w, wanted[1..], wanted[0].title, found[0]);
      assert access[1..] == ProjectAccess(w, wanted[1..]).value;
      assert access[0] in access;
      assert forall a <- access[1..] :: a in access;
      var done := if access[0].needsUpdate
                  then Call(v, v.(shares := v.shares[access[0].projectId := access[0].permission]), faults)
                  else Exec(v, Completed, faults);
      SharesSettle(w, wanted[1..], done.world, done.rest);
    }
  }

  lemma {:induction false} PublishSettles(w: World, seats: seq<string>, authorization: string, faults: seq<Fault>)
    requires AllFine(faults)
    ensures var r := Publish(w, seats, authorization, faults); r.status == Completed && AllFine(r.rest)
    decreases |seats|
  {
    if seats != [] {
      var reading := Read(w, faults);
      var done := if seats[0] in w.seats && w.seats[seats[0]] == authorization
                  then reading
                  else Write(w, w.(seats := w.seats[seats[0] := authorization]), reading.rest);
      PublishSettles(done.world, seats[1..], authorization, done.rest);
    }
  }

  lemma {:induction false} NoSeatToUpdate(w: World, seats: seq<string>, c: Credentials)
    requires forall seat <- seats :: seat in w.seats && w.seats[seat] == Bearer(c.token)
    ensures SeatPlan(w, seats, Some(c)) == []
  {
    if seats != [] { NoSeatToUpdate(w, seats[1..], c); }
  }

  /** One failure-free run without rotation settles every clean state. */
  lemma CleanRunSettles(w: World, request: Request)
    requires Clean(w, request.decl) && DistinctProjects(w.projects, request.decl.projects)
    requires !request.rotate && AllFine(request.faults) && request.now < request.decl.token.expiresAt
    ensures Run(w, request).status == Completed && Settled(Run(w, request).world, request.decl)
  {
    var decl := request.decl;
    var faults := Read(w, Read(w, request.faults).rest).rest;
    CleanPlans(w, decl, request.now);
    var plan := MakePlan(w, decl, false, request.now).value;
    SetupFrame(w, decl, plan, request.botId, faults);
    var bot := ApplyBot(w, decl.bot, request.botId, faults);
    SharesSettle(w, decl.projects, bot.world, bot.rest);
    var shared := ApplyShares(bot.world, plan.access, bot.rest);
    SetupKeepsClean(w, shared.world, decl);
    FinishSettles(shared.world, decl, plan.retiring, shared.rest);
  }

  /** What a plan without rotation says of a clean state. */
  lemma CleanPlans(w: World, decl: Declaration, now: int)
    requires Clean(w, decl) && now < decl.token.expiresAt
    ensures MakePlan(w, decl, false, now).Ok?
    ensures var plan := MakePlan(w, decl, false, now).value;
            && !plan.issue && ProjectAccess(w, decl.projects) == Ok(plan.access)
            && plan.changes == BotChanges(w, decl.bot) + ShareChanges(plan.access)
                               + (if plan.retiring.Some? then [RevokePrevious(plan.retiring.value)] else [])
            && (plan.retiring.Some? <==> w.saved.value.previous.Some? && w.saved.value.previous.value in w.tokens)
            && (plan.retiring.Some? ==> plan.retiring == w.saved.value.previous)
  {
    NamedWhenClean(w, decl.token.title);
  }

  lemma FinishSettles(w: World, decl: Declaration, retiring: Option<nat>, faults: seq<Fault>)
    requires Clean(w, decl) && AllFine(faults)
    requires BotChanges(w, decl.bot) == [] && ShareChanges(ProjectAccess(w, decl.projects).value) == []
    requires retiring.Some? ==> w.saved.value.previous == retiring
    requires w.saved.value.previous.Some? && w.saved.value.previous.value in w.tokens ==> retiring.Some?
    ensures var r := Finish(w, decl, retiring, w.saved.value, faults);
            r.status == Completed && Settled(r.world, decl)
  {
    var c := w.saved.value;
    var w' := Finish(w, decl, retiring, c, faults).world;
    FinishCompletes(w, decl, retiring, faults);
    FinishKeepsClean(w, decl, retiring, faults);
    SameAccess(w, w', decl.projects);
    CleanStaysPlanned(w', decl);
  }

  lemma FinishCompletes(w: World, decl: Declaration, retiring: Option<nat>, faults: seq<Fault>)
    requires w.saved.Some? && AllFine(faults)
    ensures var r := Finish(w, decl, retiring, w.saved.value, faults);
            && r.status == Completed
            && r.world.bot == w.bot && r.world.projects == w.projects && r.world.shares == w.shares
            && r.world.saved == Some(w.saved.value.(previous := None))
            && SeatPlan(r.world, decl.seats, r.world.saved) == []
  {
    var c := w.saved.value;
    PublishEffect(w, decl.seats, Bearer(c.token), faults);
    PublishSettles(w, decl.seats, Bearer(c.token), faults);
    NoSeatToUpdate(Finish(w, decl, retiring, c, faults).world, decl.seats, c.(previous := None));
  }

  lemma CleanStaysPlanned(w: World, decl: Declaration)
    requires Clean(w, decl) && w.saved.value.previous.None? && SeatPlan(w, decl.seats, w.saved) == []
    requires BotChanges(w, decl.bot) == [] && ShareChanges(ProjectAccess(w, decl.projects).value) == []
    ensures Settled(w, decl)
  {
    forall now: int | now < decl.token.expiresAt
      ensures MakePlan(w, decl, false, now).Ok? && MakePlan(w, decl, false, now).value.changes == []
    {
      CleanPlans(w, decl, now);
    }
  }

  lemma {:induction false} SameAccess(w: World, w': World, wanted: seq<ProjectSpec>)
    requires w.projects == w'.projects && w.shares == w'.shares
    ensures ProjectAccess(w, wanted) == ProjectAccess(w', wanted)
    decreases |wanted|
  {
    if wanted != [] { SameAccess(w, w', wanted[1..]); }
  }

  ghost predicate Retries(requests: seq<Request>, decl: Declaration) {
    forall request <- requests :: request.decl == decl && !request.rotate
  }

  lemma {:induction false} RetriesKeepClean(w: World, requests: seq<Request>, decl: Declaration)
    requires Clean(w, decl) && Retries(requests, decl)
    ensures Clean(RunAll(w, requests), decl) && RunAll(w, requests).projects == w.projects
    decreases |requests|
  {
    if requests != [] {
      RetryKeepsClean(w, requests[0]);
      RunKeepsProjects(w, requests[0]);
      RetriesKeepClean(Run(w, requests[0]).world, requests[1..], decl);
    }
  }

  lemma RunKeepsProjects(w: World, request: Request)
    ensures Run(w, request).world.projects == w.projects
  {
    var planned := MakePlan(w, request.decl, request.rotate, request.now);
    if planned.Ok? {
      var plan := planned.value;
      var faults := Read(w, Read(w, request.faults).rest).rest;
      SetupFrame(w, request.decl, plan, request.botId, faults);
      var bot := ApplyBot(w, request.decl.bot, request.botId, faults);
      var shared := ApplyShares(bot.world, plan.access, bot.rest);
      if bot.status == Completed && shared.status == Completed {
        if plan.issue {
          var rest := IssueOutcomes(shared.world, request.decl, plan, request.secret, shared.rest);
          var credentials := NewCredentials(shared.world, request.decl, shared.world.bot.value.id, plan, request.secret);
          FinishKeepsProjects(Save(Issue(shared.world, request.decl.token, request.secret), credentials),
                              request.decl, plan.token, credentials, rest);
        } else {
          FinishKeepsProjects(shared.world, request.decl, plan.retiring, shared.world.saved.value, shared.rest);
        }
      }
    }
  }

  lemma FinishKeepsProjects(w: World, decl: Declaration, retiring: Option<nat>, c: Credentials, faults: seq<Fault>)
    ensures Finish(w, decl, retiring, c, faults).world.projects == w.projects
  {
    PublishEffect(w, decl.seats, Bearer(c.token), faults);
  }

  /**
   However a run was interrupted after its new credentials were saved, and
   however many later runs without rotation were interrupted too, one
   failure-free run without rotation completes and leaves nothing to change
   and no seat to update.
   */
  lemma InterruptedRotationRecovers(w: World, issuing: Request, retries: seq<Request>, last: Request)
    requires Inv(w) && Fresh(w, issuing.secret) && DistinctProjects(w.projects, issuing.decl.projects)
    requires SavedNew(w, Run(w, issuing).world)
    requires Retries(retries + [last], issuing.decl)
    requires AllFine(last.faults) && last.now < last.decl.token.expiresAt
    ensures var before := RunAll(Run(w, issuing).world, retries);
            Run(before, last).status == Completed && Settled(Run(before, last).world, issuing.decl)
  {
    SavedRunIsClean(w, issuing);
    RunKeepsProjects(w, issuing);
    assert last in retries + [last];
    assert forall request <- retries :: request in retries + [last];
    RetriesKeepClean(Run(w, issuing).world, retries, issuing.decl);
    CleanRunSettles(RunAll(Run(w, issuing).world, retries), last);
  }
}
