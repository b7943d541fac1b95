/**
 What a provisioning run is for: which tokens, credentials, seats and shares a
 failure-free run leaves, and when its report of changes is empty.
 */
module TokenRotationEffects {
  import opened Common
  import opened TokenRotation
  import opened TokenRotationSafety
  import opened TokenRotationRecovery

  // -------------------------------------------------------------- declared

  /** What can come of a server call: done, or failed or cut short with or without having taken effect. */
  lemma CallOutcomes(w: World, after: World, x: World, status: Status)
    ensures (exists f: Fault :: Call(w, after, [f]).world == x && Call(w, after, [f]).status == status)
       <==> if status == Completed then x == after else x == w || x == after
  {
    assert Call(w, after, [Fine]).world == after && Call(w, after, [Lost]).world == after;
    assert Call(w, after, [Refused]).world == w && Call(w, after, [CrashBefore]).world == w;
    assert Call(w, after, [CrashAfter]).world == after;
  }

  /** And of a SOPS write: the same, but one that fails has not taken effect. */
  lemma WriteOutcomes(w: World, after: World, x: World, status: Status)
    ensures (exists f: Fault :: Write(w, after, [f]).world == x && Write(w, after, [f]).status == status)
       <==> match status
            case Completed => x == after
            case Failed => x == w
            case Crashed => x == w || x == after
  {
    assert Write(w, after, [Fine]).world == after && Write(w, after, [Refused]).world == w;
    assert Write(w, after, [CrashBefore]).world == w && Write(w, after, [CrashAfter]).world == after;
  }

  /** A token matches what it was issued for, and nothing else but a reordering of its actions. */
  lemma MatchDetermines(spec: TokenSpec, secret: string, other: TokenSpec)
    ensures Token(spec.title, spec.permissions, spec.expiresAt, secret).Matches(other) <==>
            && spec.title == other.title && spec.expiresAt == other.expiresAt
            && spec.permissions.Keys == other.permissions.Keys
            && forall group <- spec.permissions ::
                 (set a <- spec.permissions[group]) == (set a <- other.permissions[group])
  {
    var t := Token(spec.title, spec.permissions, spec.expiresAt, secret);
    if spec.permissions.Keys == other.permissions.Keys {
      forall group <- spec.permissions
        ensures SameActions(spec.permissions[group], other.permissions[group])
           <==> (set a <- spec.permissions[group]) == (set a <- other.permissions[group])
      {
        SameActionsIsSetEquality(spec.permissions[group], other.permissions[group]);
      }
    }
  }

  lemma SameActionsIsSetEquality(left: seq<string>, right: seq<string>)
    ensures SameActions(left, right) <==> (set a <- left) == (set a <- right)
  {
    var l, r := (set a <- left), (set a <- right);
    assert (forall a <- left :: a in l) && forall a <- right :: a in r;
  }

  /** Exactly one project has the title, and it is this one. */
  ghost predicate OnlyTitled(projects: seq<Project>, title: string, k: nat) {
    && k < |projects| && projects[k].title == title
    && forall j :: 0 <= j < |projects| && j != k ==> projects[j].title != title
  }

  lemma {:induction false} MatchingNone(projects: seq<Project>, title: string)
    ensures Matching(projects, title) == [] <==> forall p <- projects :: p.title != title
    decreases |projects|
  {
    if projects != [] {
      MatchingNone(projects[1..], title);
      assert projects[0] in projects && forall p <- projects :: p == projects[0] || p in projects[1..];
    }
  }

  lemma {:induction false} MatchingOne(projects: seq<Project>, title: string)
    ensures |Matching(projects, title)| == 1 <==> exists k: nat :: OnlyTitled(projects, title, k)
    ensures forall k: nat :: OnlyTitled(projects, title, k) ==> Matching(projects, title) == [projects[k]]
    decreases |projects|
  {
    if projects != [] {
      var rest := projects[1..];
      MatchingOne(rest, title);
      MatchingNone(rest, title);
      assert forall j :: 0 < j < |projects| ==> projects[j] == rest[j - 1] && rest[j - 1] in rest;
      assert forall j :: 0 <= j < |rest| ==> rest[j] == projects[j + 1];
      if projects[0].title == title {
        if Matching(rest, title) == [] { assert OnlyTitled(projects, title, 0); }
      } else {
        forall k: nat | OnlyTitled(rest, title, k) ensures OnlyTitled(projects, title, k + 1) {}
        forall k: nat | OnlyTitled(projects, title, k) ensures k > 0 && OnlyTitled(rest, title, k - 1) {}
        if k: nat :| OnlyTitled(rest, title, k) { assert OnlyTitled(projects, title, k + 1); }
        if k: nat :| OnlyTitled(projects, title, k) { assert OnlyTitled(rest, title, k - 1); }
      }
    }
  }

  /** The i-th grant names one project, and says whether its share must change. */
  ghost predicate Grants(w: World, spec: ProjectSpec, a: Access) {
    exists k: nat ::
      && OnlyTitled(w.projects, spec.title, k) && a.projectId == w.projects[k].id && a.permission == spec.permission
      && (a.needsUpdate <==> !(a.projectId in w.shares && w.shares[a.projectId] == spec.permission))
  }

  lemma FirstGrant(w: World, wanted: seq<ProjectSpec>)
    requires wanted != [] && ProjectAccess(w, wanted).Ok?
    ensures ProjectAccess(w, wanted).value != [] && Grants(w, wanted[0], ProjectAccess(w, wanted).value[0])
  {
    MatchingOne(w.projects, wanted[0].title);
    hide OnlyTitled, Matching;
    var k: nat :| OnlyTitled(w.projects, wanted[0].title, k);
  }

  ghost predicate Resolves(w: World, spec: ProjectSpec) { exists k: nat :: OnlyTitled(w.projects, spec.title, k) }

  lemma FirstResolves(w: World, wanted: seq<ProjectSpec>)
    requires wanted != []
    ensures ProjectAccess(w, wanted).Ok? <==> Resolves(w, wanted[0]) && ProjectAccess(w, wanted[1..]).Ok?
    ensures ProjectAccess(w, wanted).Ok? ==> ProjectAccess(w, wanted).value[1..] == ProjectAccess(w, wanted[1..]).value
  {
    MatchingOne(w.projects, wanted[0].title);
    hide OnlyTitled, Matching;
  }

  /** Projects resolve exactly when every declared title names one project, and grants then follow the declaration. */
  lemma {:induction false} AccessExact(w: World, wanted: seq<ProjectSpec>)
    ensures ProjectAccess(w, wanted).Ok? <==> forall spec <- wanted :: Resolves(w, spec)
    ensures ProjectAccess(w, wanted).Ok? ==>
              var access := ProjectAccess(w, wanted).value;
              |access| == |wanted| && forall i :: 0 <= i < |wanted| ==> Grants(w, wanted[i], access[i])
    decreases |wanted|
  {
    if wanted != [] {
      var spec := wanted[0];
      AccessExact(w, wanted[1..]);
      FirstResolves(w, wanted);
      hide Resolves, Grants;
      assert spec in wanted && forall s <- wanted :: s == spec || s in wanted[1..];
      if ProjectAccess(w, wanted).Ok? {
        var access := ProjectAccess(w, wanted).value;
        FirstGrant(w, wanted);
        hide ProjectAccess;
        forall i | 0 <= i < |wanted| ensures Grants(w, wanted[i], access[i]) {
          if i > 0 { assert wanted[i] == wanted[1..][i - 1] && access[i] == access[1..][i - 1]; }
        }
      }
    }
  }

  // ----------------------------------------------------------------- seats

  /** Every declared seat holds the bearer and no other seat was touched. */
  ghost predicate Published(before: map<string, string>, seats: seq<string>, bearer: string, after: map<string, string>) {
    && (forall seat <- seats :: seat in after && after[seat] == bearer)
    && (forall seat :: seat !in seats ==>
          (seat in after <==> seat in before) && (seat in before ==> after[seat] == before[seat]))
  }

  lemma PublishesExactly(w: World, seats: seq<string>, bearer: string, faults: seq<Fault>)
    requires AllFine(faults)
    ensures var r := Publish(w, seats, bearer, faults);
            && r.status == Completed && AllFine(r.rest) && r.world == w.(seats := r.world.seats)
            && Published(w.seats, seats, bearer, r.world.seats)
  {
    PublishEffect(w, seats, bearer, faults);
    PublishSettles(w, seats, bearer, faults);
    forall seat | seat !in seats { PublishLeavesOthers(w, seats, bearer, faults, seat); }
  }

  /** Listing seats lists exactly those that do not hold the bearer. */
  lemma {:induction false} SeatPlanExact(w: World, seats: seq<string>, credentials: Option<Credentials>, seat: string)
    ensures seat in SeatPlan(w, seats, credentials) <==>
            && seat in seats
            && (credentials.None? || seat !in w.seats || w.seats[seat] != "Bearer " + credentials.value.token)
  {
    if seats != [] { SeatPlanExact(w, seats[1..], credentials, seat); }
  }

  // ------------------------------------------------------- finishing a run

  function Without(tokens: map<nat, Token>, id: Option<nat>): map<nat, Token> {
    if id.Some? then tokens - {id.value} else tokens
  }

  lemma FinishExact(w: World, decl: Declaration, retiring: Option<nat>, faults: seq<Fault>)
    requires w.saved.Some? && AllFine(faults)
    ensures var c := w.saved.value;
            var r := Finish(w, decl, retiring, c, faults);
            && r.status == Completed
            && Published(w.seats, decl.seats, "Bearer " + c.token, r.world.seats)
            && r.world == w.(seats := r.world.seats, tokens := Without(w.tokens, retiring),
                             saved := Some(c.(previous := None)))
  {
    PublishesExactly(w, decl.seats, Bearer(w.saved.value.token), faults);
    hide Publish, Published;
  }

  /** The bot a run leaves: the declared name, active, the same account if there was one. */
  function BotAfter(w: World, request: Request): Bot {
    Bot(if w.bot.Some? then w.bot.value.id else request.botId, request.decl.bot.name, 0)
  }

  lemma {:induction false} SharesComplete(w: World, access: seq<Access>, faults: seq<Fault>)
    requires AllFine(faults)
    ensures var r := ApplyShares(w, access, faults);
            r.status == Completed && AllFine(r.rest) && r.world == w.(shares := r.world.shares)
    decreases |access|
  {
    if access != [] {
      var done := if access[0].needsUpdate
                  then Call(w, w.(shares := w.shares[access[0].projectId := access[0].permission]), faults)
                  else Exec(w, Completed, faults);
      SharesComplete(done.world, access[1..], done.rest);
    }
  }

  /** A failure-free run reaches its token work with the bot and the shares in place. */
  lemma SetupCompletes(w: World, request: Request)
    returns (start: World, faults: seq<Fault>, shared: World, rest: seq<Fault>)
    requires AllFine(request.faults) && MakePlan(w, request.decl, request.rotate, request.now).Ok?
    ensures var plan := MakePlan(w, request.decl, request.rotate, request.now).value;
            && AllFine(faults) && start == w.(bot := Some(BotAfter(w, request)))
            && shared == ApplyShares(start, plan.access, faults).world
            && AllFine(rest) && shared == w.(bot := Some(BotAfter(w, request)), shares := shared.shares)
            && (plan.issue ==> Run(w, request) == IssueAndFinish(shared, request.decl, plan, request.secret, rest))
            && (!plan.issue ==> && w.saved.Some?
                                && Run(w, request) == Finish(shared, request.decl, plan.retiring, w.saved.value, rest))
  {
    var plan := MakePlan(w, request.decl, request.rotate, request.now).value;
    var left := Read(w, Read(w, request.faults).rest).rest;
    assert !plan.issue ==> w.saved.Some?;
    hide MakePlan, IssueAndFinish, Finish;
    var bot := ApplyBot(w, request.decl.bot, request.botId, left);
    start, faults := bot.world, bot.rest;
    SharesComplete(start, plan.access, faults);
    shared, rest := ApplyShares(start, plan.access, faults).world, ApplyShares(start, plan.access, faults).rest;
  }

  // --------------------------------------------------------- issuing a token

  /** The tokens an issuing run replaces: the saved one, or with nothing saved those with the declared title. */
  function Replaced(w: World, title: string): set<nat> {
    if w.saved.Some? then {w.saved.value.tokenId} else set id | id in w.tokens && w.tokens[id].title == title
  }

  lemma PlannedToken(w: World, decl: Declaration, rotate: bool, now: int)
    requires Inv(w) && MakePlan(w, decl, rotate, now).Ok? && (rotate || w.saved.None?)
    ensures var plan := MakePlan(w, decl, rotate, now).value;
            && plan.issue
            && Replaced(w, decl.token.title) == (if plan.token.Some? then {plan.token.value} else {})
            && (plan.token.Some? ==> plan.token.value in w.tokens)
  {
    hide ProjectAccess;
    if w.saved.None? {
      AtMostOne(Named(w, decl.token.title));
      assert Replaced(w, decl.token.title) == Named(w, decl.token.title);
    }
  }

  lemma IssueExact(w: World, decl: Declaration, plan: Plan, secret: string, faults: seq<Fault>)
    requires w.bot.Some? && AllFine(faults)
    ensures var r := IssueAndFinish(w, decl, plan, secret, faults);
            && r.status == Completed
            && Published(w.seats, decl.seats, "Bearer " + secret, r.world.seats)
            && r.world == w.(seats := r.world.seats,
                             tokens := Without(w.tokens[w.nextId := Token(decl.token.title, decl.token.permissions,
                                                                          decl.token.expiresAt, secret)], plan.token),
                             nextId := w.nextId + 1,
                             saved := Some(Credentials(decl.server, w.bot.value.id, w.nextId, secret, None)))
  {
    var credentials := NewCredentials(w, decl, w.bot.value.id, plan, secret);
    FinishExact(Save(Issue(w, decl.token, secret), credentials), decl, plan.token, Tail(Tail(faults)));
    hide Finish, Published;
  }

  /**
   What rotation is for. Every accepted rotating run, and every accepted first
   run, that meets no failure completes with a new token of the declared title,
   permissions and expiry, saved and held by every declared seat, and with the
   token it replaces gone; nothing else on the server changes but bot and shares.
   */
  lemma IssuingRunCompletes(w: World, request: Request)
    requires Inv(w) && AllFine(request.faults)
    requires MakePlan(w, request.decl, request.rotate, request.now).Ok? && (request.rotate || w.saved.None?)
    ensures var r, spec := Run(w, request), request.decl.token;
            && r.status == Completed
            && r.world.saved == Some(Credentials(request.decl.server, BotAfter(w, request).id, w.nextId, request.secret, None))
            && r.world.tokens == (w.tokens - Replaced(w, spec.title))
                                 [w.nextId := Token(spec.title, spec.permissions, spec.expiresAt, request.secret)]
            && Published(w.seats, request.decl.seats, "Bearer " + request.secret, r.world.seats)
            && r.world.bot == Some(BotAfter(w, request)) && r.world.nextId == w.nextId + 1 && r.world.projects == w.projects
  {
    var decl := request.decl;
    var plan := MakePlan(w, decl, request.rotate, request.now).value;
    PlannedToken(w, decl, request.rotate, request.now);
    var _, _, shared, rest := SetupCompletes(w, request);
    assert w.nextId !in w.tokens;
    hide MakePlan, Run, IssueAndFinish, Published, Replaced, Inv, Without, AllFine;
    IssueExact(shared, decl, plan, request.secret, rest);
    ReplaceThenAdd(w.tokens, plan.token, w.nextId,
                   Token(decl.token.title, decl.token.permissions, decl.token.expiresAt, request.secret));
  }

  lemma ReplaceThenAdd(tokens: map<nat, Token>, gone: Option<nat>, id: nat, token: Token)
    requires id !in tokens && (gone.Some? ==> gone.value in tokens)
    ensures Without(tokens[id := token], gone) == (tokens - (if gone.Some? then {gone.value} else {}))[id := token]
  {
  }

  /**
   An accepted run without rotation over saved credentials that meets no failure
   issues nothing: it keeps the saved token, puts it on every declared seat, and
   finishes a pending rotation.
   */
  lemma KeepingRunCompletes(w: World, request: Request)
    requires Inv(w) && AllFine(request.faults) && w.saved.Some? && !request.rotate
    requires MakePlan(w, request.decl, false, request.now).Ok?
    ensures var r, c := Run(w, request), w.saved.value;
            && r.status == Completed
            && r.world.saved == Some(c.(previous := None))
            && r.world.tokens == Without(w.tokens, c.previous)
            && Published(w.seats, request.decl.seats, "Bearer " + c.token, r.world.seats)
            && r.world.bot == Some(BotAfter(w, request)) && r.world.nextId == w.nextId && r.world.projects == w.projects
  {
    var plan := MakePlan(w, request.decl, false, request.now).value;
    RetryAcceptedIff(w, request.decl, request.now);
    CleanPlans(w, request.decl, request.now);
    var _, _, shared, rest := SetupCompletes(w, request);
    hide MakePlan, Run, Finish, Published;
    FinishExact(shared, request.decl, plan.retiring, rest);
    var previous := w.saved.value.previous;
    assert previous.Some? && previous.value !in w.tokens ==> w.tokens - {previous.value} == w.tokens;
  }

  /** Whatever fails, a run adds a token only if it rotates or nothing was saved. */
  lemma NoTokenWithoutNeed(w: World, request: Request)
    requires Inv(w) && !request.rotate && w.saved.Some?
    ensures Run(w, request).world.nextId == w.nextId && Run(w, request).world.tokens.Keys <= w.tokens.Keys
  {
    RetryAcceptedIff(w, request.decl, request.now);
    if MakePlan(w, request.decl, false, request.now).Ok? {
      CleanPlans(w, request.decl, request.now);
      ApplyKeepsIds(w, request.decl, MakePlan(w, request.decl, false, request.now).value, request.secret, request.botId,
                    Read(w, Read(w, request.faults).rest).rest);
    }
    hide MakePlan, Apply, Inv;
  }

  lemma ApplyKeepsIds(w: World, decl: Declaration, plan: Plan, secret: string, botId: nat, faults: seq<Fault>)
    requires w.saved.Some? && !plan.issue
    ensures var w' := Apply(w, decl, plan, secret, botId, faults).world;
            w'.nextId == w.nextId && w'.tokens.Keys <= w.tokens.Keys
  {
    SetupFrame(w, decl, plan, botId, faults);
    var bot := ApplyBot(w, decl.bot, botId, faults);
    var shared := ApplyShares(bot.world, plan.access, bot.rest);
    hide ApplyBot, ApplyShares, Finish;
    if bot.status == Completed && shared.status == Completed {
      FinishKeepsIds(shared.world, decl, plan.retiring, shared.world.saved.value, shared.rest);
    }
  }

  lemma FinishKeepsIds(w: World, decl: Declaration, retiring: Option<nat>, c: Credentials, faults: seq<Fault>)
    ensures var w' := Finish(w, decl, retiring, c, faults).world;
            w'.nextId == w.nextId && w'.tokens.Keys <= w.tokens.Keys
  {
    PublishEffect(w, decl.seats, Bearer(c.token), faults);
    hide Publish;
  }

  /** A save that fails is undone: if the revocation goes through, the server has the tokens it had. */
  lemma FailedSaveIsUndone(w: World, decl: Declaration, plan: Plan, secret: string, failure: Fault, rest: seq<Fault>)
    requires Inv(w) && w.bot.Some? && (failure == Refused || failure == Lost)
    ensures IssueAndFinish(w, decl, plan, secret, [Fine, failure, Fine] + rest)
         == Exec(w.(nextId := w.nextId + 1), Failed, rest)
  {
    var faults := [Fine, failure, Fine] + rest;
    assert faults[1..] == [failure, Fine] + rest && faults[1..][1..] == [Fine] + rest && faults[1..][1..][1..] == rest;
    assert w.nextId !in w.tokens;
    assert Delete(Issue(w, decl.token, secret), w.nextId).tokens == w.tokens;
  }

  // --------------------------------------------------------------- shares

  /** The project the declaration means by this grant. */
  ghost predicate Means(w: World, wanted: seq<ProjectSpec>, spec: ProjectSpec, id: nat) {
    spec in wanted && exists k: nat :: OnlyTitled(w.projects, spec.title, k) && w.projects[k].id == id
  }

  ghost predicate Declared(w: World, wanted: seq<ProjectSpec>, id: nat) {
    exists spec <- wanted :: Means(w, wanted, spec, id)
  }

  lemma UndeclaredIds(w: World, wanted: seq<ProjectSpec>, id: nat)
    requires ProjectAccess(w, wanted).Ok? && !Declared(w, wanted, id)
    ensures forall a <- ProjectAccess(w, wanted).value :: a.projectId != id
  {
    AccessExact(w, wanted);
    var access := ProjectAccess(w, wanted).value;
    hide ProjectAccess;
    forall i | 0 <= i < |access| ensures access[i].projectId != id {
      assert Grants(w, wanted[i], access[i]) && wanted[i] in wanted;
      assert !Means(w, wanted, wanted[i], id);
    }
  }

  /** A failure-free run leaves every declared project shared with its permission and no other share touched. */
  lemma RunGrantsShares(w: World, request: Request, other: nat)
    requires AllFine(request.faults) && DistinctProjects(w.projects, request.decl.projects)
    requires MakePlan(w, request.decl, request.rotate, request.now).Ok?
    ensures var shares, wanted := Run(w, request).world.shares, request.decl.projects;
            && (forall spec <- wanted :: exists id: nat ::
                  Means(w, wanted, spec, id) && id in shares && shares[id] == spec.permission)
            && (!Declared(w, wanted, other) ==>
                  (other in shares <==> other in w.shares) && (other in w.shares ==> shares[other] == w.shares[other]))
  {
    var decl := request.decl;
    var access := MakePlan(w, decl, request.rotate, request.now).value.access;
    assert ProjectAccess(w, decl.projects) == Ok(access);
    var start, faults := RunShares(w, request);
    hide MakePlan, Run, Declared, Means, BotAfter;
    SharesSettle(w, decl.projects, start, faults);
    SharesReached(w, decl.projects, ApplyShares(start, access, faults).world);
    if !Declared(w, decl.projects, other) { UndeclaredIds(w, decl.projects, other); }
    hide ApplyShares, ProjectAccess, ShareChanges;
  }

  /** The world and the remaining faults the share calls start from. */
  lemma RunShares(w: World, request: Request) returns (start: World, faults: seq<Fault>)
    requires AllFine(request.faults) && MakePlan(w, request.decl, request.rotate, request.now).Ok?
    ensures AllFine(faults) && start == w.(bot := Some(BotAfter(w, request)))
    ensures Run(w, request).world.shares
         == ApplyShares(start, MakePlan(w, request.decl, request.rotate, request.now).value.access, faults).world.shares
  {
    var plan := MakePlan(w, request.decl, request.rotate, request.now).value;
    var shared, rest;
    start, faults, shared, rest := SetupCompletes(w, request);
    hide MakePlan, Run, ApplyShares, Finish, IssueAndFinish, AllFine, Published, BotAfter;
    if plan.issue {
      IssueExact(shared, request.decl, plan, request.secret, rest);
    } else {
      FinishExact(shared, request.decl, plan.retiring, rest);
    }
  }

  lemma SharesReached(w: World, wanted: seq<ProjectSpec>, after: World)
    requires after.projects == w.projects && ProjectAccess(after, wanted).Ok?
    requires ShareChanges(ProjectAccess(after, wanted).value) == []
    ensures forall spec <- wanted :: exists id: nat ::
              Means(w, wanted, spec, id) && id in after.shares && after.shares[id] == spec.permission
  {
    AccessExact(after, wanted);
    var access := ProjectAccess(after, wanted).value;
    NothingToShare(access);
    hide ProjectAccess, ShareChanges;
    forall spec <- wanted ensures exists id: nat ::
      Means(w, wanted, spec, id) && id in after.shares && after.shares[id] == spec.permission
    {
      var i :| 0 <= i < |wanted| && wanted[i] == spec;
      assert Grants(after, wanted[i], access[i]) && access[i] in access;
      assert Means(w, wanted, spec, access[i].projectId);
    }
  }

  lemma {:induction false} NothingToShare(access: seq<Access>)
    ensures ShareChanges(access) == [] <==> forall a <- access :: !a.needsUpdate
  {
    if access != [] {
      NothingToShare(access[1..]);
      assert access[0] in access && forall a <- access :: a == access[0] || a in access[1..];
    }
  }

  // --------------------------------------------------------------- report

  lemma {:induction false} SharesListed(access: seq<Access>, id: nat, permission: int)
    ensures SetShare(id, permission) in ShareChanges(access) <==> Access(id, permission, true) in access
    ensures forall c <- ShareChanges(access) :: c.SetShare?
  {
    if access != [] {
      SharesListed(access[1..], id, permission);
      assert access == [access[0]] + access[1..];
    }
  }

  /** How a plan's changes are put together, and from what. */
  lemma PlanShape(w: World, decl: Declaration, rotate: bool, now: int)
    requires Inv(w) && MakePlan(w, decl, rotate, now).Ok?
    ensures var plan := MakePlan(w, decl, rotate, now).value;
            && ProjectAccess(w, decl.projects) == Ok(plan.access)
            && (plan.issue <==> rotate || w.saved.None?)
            && (plan.issue ==> (plan.token.Some? <==> Replaced(w, decl.token.title) != {}))
            && plan.retiring == (if w.saved.Some? && w.saved.value.previous.Some? && w.saved.value.previous.value in w.tokens
                                 then w.saved.value.previous else None)
            && plan.changes == BotChanges(w, decl.bot) + ShareChanges(plan.access)
                               + (if plan.issue then [if plan.token.Some? then RotateToken else IssueToken] else [])
                               + (if plan.retiring.Some? then [RevokePrevious(plan.retiring.value)] else [])
  {
    if rotate || w.saved.None? {
      PlannedToken(w, decl, rotate, now);
    } else {
      RetryAcceptedIff(w, decl, now);
      CleanPlans(w, decl, now);
    }
    hide ProjectAccess, ManagedToken, CheckExisting, BotChanges, ShareChanges, Replaced;
  }

  /** The changes a run should report. */
  ghost predicate Due(w: World, decl: Declaration, rotate: bool, c: Change)
    requires ProjectAccess(w, decl.projects).Ok?
  {
    match c
    case CreateBot => w.bot.None?
    case UpdateBot => w.bot.Some? && (w.bot.value.name != decl.bot.name || w.bot.value.status != 0)
    case SetShare(id, permission) => Access(id, permission, true) in ProjectAccess(w, decl.projects).value
    case RotateToken => (rotate || w.saved.None?) && Replaced(w, decl.token.title) != {}
    case IssueToken => (rotate || w.saved.None?) && Replaced(w, decl.token.title) == {}
    case RevokePrevious(id) => w.saved.Some? && w.saved.value.previous == Some(id) && id in w.tokens
  }

  /** A plan reports exactly the changes that are due. */
  lemma ReportExact(w: World, decl: Declaration, rotate: bool, now: int, c: Change)
    requires Inv(w) && MakePlan(w, decl, rotate, now).Ok?
    ensures ProjectAccess(w, decl.projects).Ok?
    ensures c in MakePlan(w, decl, rotate, now).value.changes <==> Due(w, decl, rotate, c)
  {
    var plan := MakePlan(w, decl, rotate, now).value;
    PlanShape(w, decl, rotate, now);
    hide MakePlan, ProjectAccess, Inv, Replaced;
    if c.SetShare? { SharesListed(plan.access, c.projectId, c.permission); } else { SharesListed(plan.access, 0, 0); }
    hide ShareChanges;
    assert c in BotChanges(w, decl.bot) <==> (c.CreateBot? || c.UpdateBot?) && Due(w, decl, rotate, c);
  }
}
