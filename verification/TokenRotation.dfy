/**
 Vikunja token provisioning: one run plans against the server, the saved
 credentials and the seats, then applies the plan call by call. Every call may
 be refused, may take effect and lose its answer, or may be the last thing the
 process does. A run is a function of its fault schedule, so a statement about
 all schedules is a statement about every point at which a run can stop.
 */
module TokenRotation {
  import opened Common

  // ---------------------------------------------------------------- data

  type Permissions = map<string, seq<string>>

  datatype TokenSpec = TokenSpec(title: string, permissions: Permissions, expiresAt: int)

  datatype Token = Token(title: string, permissions: Permissions, expiresAt: int, secret: string) {
    predicate Matches(spec: TokenSpec) {
      && title == spec.title
      && permissions.Keys == spec.permissions.Keys
      && (forall group <- permissions.Keys :: SameActions(permissions[group], spec.permissions[group]))
      && expiresAt == spec.expiresAt
    }
  }

  /** Action lists are compared as sets. */
  predicate SameActions(left: seq<string>, right: seq<string>) {
    (forall action <- left :: action in right) && (forall action <- right :: action in left)
  }

  datatype Credentials = Credentials(
    server: string, botId: nat, tokenId: nat, token: string, previous: Option<nat>)

  datatype BotSpec = BotSpec(username: string, name: string)
  datatype Bot = Bot(id: nat, name: string, status: int)
  datatype Project = Project(id: nat, title: string)
  datatype ProjectSpec = ProjectSpec(title: string, permission: int)

  /** `seats` are the declared seat names in the order publication visits them. */
  datatype Declaration = Declaration(
    server: string, bot: BotSpec, projects: seq<ProjectSpec>, token: TokenSpec, seats: seq<string>)

  /**
   The server (the declared bot, its tokens, its project shares), the saved
   credentials and the seat secrets. Token ids come from `nextId` and are
   never reused.
   */
  datatype World = World(
    projects: seq<Project>,
    bot: Option<Bot>,
    shares: map<nat, int>,
    tokens: map<nat, Token>,
    nextId: nat,
    saved: Option<Credentials>,
    seats: map<string, string>)

  function Bearer(secret: string): string { "Bearer " + secret }

  // ------------------------------------------------------------ planning

  datatype Access = Access(projectId: nat, permission: int, needsUpdate: bool)

  datatype Change =
    | CreateBot
    | UpdateBot
    | SetShare(projectId: nat, permission: int)
    | RotateToken
    | IssueToken
    | RevokePrevious(id: nat)

  datatype Plan = Plan(
    access: seq<Access>, token: Option<nat>, retiring: Option<nat>, issue: bool, changes: seq<Change>)

  datatype Refusal =
    | Expired
    | RotationPending
    | ForeignCredentials
    | ProjectMissing
    | ProjectAmbiguous
    | DuplicateTitle
    | TitleTaken
    | CredentialsDiffer
    | TokenChanged

  function Matching(projects: seq<Project>, title: string): (r: seq<Project>) {
    if projects == [] then []
    else if projects[0].title == title then [projects[0]] + Matching(projects[1..], title)
    else Matching(projects[1..], title)
  }

  function ProjectAccess(w: World, wanted: seq<ProjectSpec>): (r: Result<seq<Access>, Refusal>) {
    if wanted == [] then Ok([])
    else
      var found := Matching(w.projects, wanted[0].title);
      if |found| == 0 then Err(ProjectMissing)
      else if |found| > 1 then Err(ProjectAmbiguous)
      else
        var id := found[0].id;
        var present := id in w.shares;
        var access := Access(id, wanted[0].permission,
                             !present || w.shares[id] != wanted[0].permission);
        match ProjectAccess(w, wanted[1..])
        case Err(refusal) => Err(refusal)
        case Ok(rest) => Ok([access] + rest)
  }

  /** Live tokens carrying the declared title, the retiring one left out. */
  function Named(w: World, title: string): set<nat> {
    set id | id in w.tokens && w.tokens[id].title == title && !(w.saved.Some? && w.saved.value.previous == Some(id))
  }

  lemma AtMostOne(ids: set<nat>)
    requires |ids| <= 1
    ensures forall a, b :: a in ids && b in ids ==> a == b
  {
    forall a, b | a in ids && b in ids ensures a == b {
      assert |ids - {a}| == |ids| - 1;
      assert ids - {a} == {};
    }
  }

  /** The token being managed: the saved id if it is live, else the titled one. */
  function ManagedToken(w: World, title: string): (r: Result<Option<nat>, Refusal>) {
    var named := Named(w, title);
    if |named| > 1 then Err(DuplicateTitle)
    else if w.saved.Some? && w.saved.value.tokenId in w.tokens then
      if named != {} && w.saved.value.tokenId !in named then Err(TitleTaken)
      else Ok(Some(w.saved.value.tokenId))
    else if named != {} then
      AtMostOne(named);
      var id :| id in named;
      Ok(Some(id))
    else Ok(None)
  }

  /** Without rotation the live token must be the saved one and carry the declared spec. */
  function CheckExisting(w: World, token: Option<nat>, spec: TokenSpec): (r: Option<Refusal>)
    requires token.Some? ==> token.value in w.tokens
  {
    if token.None? && w.saved.None? then None
    else if token.None? || w.saved.None? || w.saved.value.tokenId != token.value then Some(CredentialsDiffer)
    else if !w.tokens[token.value].Matches(spec) then Some(TokenChanged)
    else None
  }

  function BotChanges(w: World, spec: BotSpec): seq<Change> {
    match w.bot
    case None => [CreateBot]
    case Some(bot) => if bot.name != spec.name || bot.status != 0 then [UpdateBot] else []
  }

  function ShareChanges(access: seq<Access>): seq<Change> {
    if access == [] then []
    else (if access[0].needsUpdate then [SetShare(access[0].projectId, access[0].permission)] else [])
         + ShareChanges(access[1..])
  }

  predicate Foreign(w: World, decl: Declaration) {
    && w.saved.Some?
    && (w.saved.value.server != decl.server || w.bot.None? || w.saved.value.botId != w.bot.value.id)
  }

  function MakePlan(w: World, decl: Declaration, rotate: bool, now: int): (r: Result<Plan, Refusal>)
    ensures r.Ok? && r.value.token.Some? ==> r.value.token.value in w.tokens
  {
    if decl.token.expiresAt <= now then Err(Expired)
    else if rotate && w.saved.Some? && w.saved.value.previous.Some? then Err(RotationPending)
    else if Foreign(w, decl) then Err(ForeignCredentials)
    else
      match ProjectAccess(w, decl.projects)
      case Err(refusal) => Err(refusal)
      case Ok(access) =>
        match ManagedToken(w, decl.token.title)
        case Err(refusal) => Err(refusal)
        case Ok(token) =>
          var existing := if rotate then None else CheckExisting(w, token, decl.token);
          if existing.Some? then Err(existing.value)
          else
            var retiring :=
              if w.saved.Some? && w.saved.value.previous.Some? && w.saved.value.previous.value in w.tokens
              then w.saved.value.previous else None;
            var issue := rotate || token.None?;
            Ok(Plan(access, token, retiring, issue,
                    BotChanges(w, decl.bot) + ShareChanges(access)
                    + (if issue then [if token.Some? then RotateToken else IssueToken] else [])
                    + (if retiring.Some? then [RevokePrevious(retiring.value)] else [])))
  }

  /** The seats a publication of `credentials` would rewrite. */
  function SeatPlan(w: World, seats: seq<string>, credentials: Option<Credentials>): (r: seq<string>) {
    if seats == [] then []
    else
      (if credentials.None? || seats[0] !in w.seats || w.seats[seats[0]] != Bearer(credentials.value.token)
       then [seats[0]] else [])
      + SeatPlan(w, seats[1..], credentials)
  }

  // -------------------------------------------------------------- faults

  /** What happens to one call. A failed SOPS write keeps the old value. */
  datatype Fault = Fine | Refused | Lost | CrashBefore | CrashAfter

  datatype Status = Completed | Failed | Crashed

  datatype Exec = Exec(world: World, status: Status, rest: seq<Fault>)

  function Head(faults: seq<Fault>): Fault { if faults == [] then Fine else faults[0] }
  function Tail(faults: seq<Fault>): seq<Fault> { if faults == [] then [] else faults[1..] }

  /** A server call that would turn `w` into `after`. */
  function Call(w: World, after: World, faults: seq<Fault>): (r: Exec) {
    match Head(faults)
    case Fine => Exec(after, Completed, Tail(faults))
    case Refused => Exec(w, Failed, Tail(faults))
    case Lost => Exec(after, Failed, Tail(faults))
    case CrashBefore => Exec(w, Crashed, Tail(faults))
    case CrashAfter => Exec(after, Crashed, Tail(faults))
  }

  /** A SOPS write that would turn `w` into `after`: it never fails halfway. */
  function Write(w: World, after: World, faults: seq<Fault>): (r: Exec) {
    if Head(faults) == Lost then Exec(w, Failed, Tail(faults)) else Call(w, after, faults)
  }

  /** A read: it changes nothing and may fail. */
  function Read(w: World, faults: seq<Fault>): (r: Exec) { Call(w, w, faults) }

  // ------------------------------------------------------------ applying

  function ApplyBot(w: World, spec: BotSpec, botId: nat, faults: seq<Fault>): (r: Exec) {
    match w.bot
    case None => Call(w, w.(bot := Some(Bot(botId, spec.name, 0))), faults)
    case Some(bot) =>
      if bot.name != spec.name || bot.status != 0
      then Call(w, w.(bot := Some(Bot(bot.id, spec.name, 0))), faults)
      else Exec(w, Completed, faults)
  }

  function ApplyShares(w: World, access: seq<Access>, faults: seq<Fault>): (r: Exec)
    decreases |access|
  {
    if access == [] then Exec(w, Completed, faults)
    else
      var done := if access[0].needsUpdate
                  then Call(w, w.(shares := w.shares[access[0].projectId := access[0].permission]), faults)
                  else Exec(w, Completed, faults);
      if done.status != Completed then done else ApplyShares(done.world, access[1..], done.rest)
  }

  function Issue(w: World, spec: TokenSpec, secret: string): World {
    w.(tokens := w.tokens[w.nextId := Token(spec.title, spec.permissions, spec.expiresAt, secret)],
       nextId := w.nextId + 1)
  }

  function Delete(w: World, id: nat): World { w.(tokens := w.tokens - {id}) }

  function Save(w: World, credentials: Credentials): World { w.(saved := Some(credentials)) }

  /** Save new credentials; when the write fails, try to revoke the new token. */
  function SaveIssued(w: World, credentials: Credentials, faults: seq<Fault>): (r: Exec) {
    var saving := Write(w, Save(w, credentials), faults);
    if saving.status != Failed then saving
    else
      var undo := Call(saving.world, Delete(saving.world, credentials.tokenId), saving.rest);
      if undo.status == Completed then undo.(status := Failed) else undo
  }

  /** Give every seat the current bearer, reading each seat first. */
  function Publish(w: World, seats: seq<string>, authorization: string, faults: seq<Fault>): (r: Exec)
    decreases |seats|
  {
    if seats == [] then Exec(w, Completed, faults)
    else
      var reading := Read(w, faults);
      if reading.status != Completed then reading
      else
        var done := if seats[0] in w.seats && w.seats[seats[0]] == authorization
                    then reading
                    else Write(w, w.(seats := w.seats[seats[0] := authorization]), reading.rest);
        if done.status != Completed then done else Publish(done.world, seats[1..], authorization, done.rest)
  }

  /** Revoke the retiring token, then forget the previous id. */
  function Retire(w: World, retiring: Option<nat>, credentials: Credentials, faults: seq<Fault>): (r: Exec) {
    var revoked := if retiring.Some? then Call(w, Delete(w, retiring.value), faults)
                   else Exec(w, Completed, faults);
    if revoked.status != Completed then revoked
    else if credentials.previous.Some?
    then Write(revoked.world, Save(revoked.world, credentials.(previous := None)), revoked.rest)
    else revoked
  }

  function Finish(w: World, decl: Declaration, retiring: Option<nat>, credentials: Credentials,
                  faults: seq<Fault>): (r: Exec)
  {
    var published := Publish(w, decl.seats, Bearer(credentials.token), faults);
    if published.status != Completed then published
    else Retire(published.world, retiring, credentials, published.rest)
  }

  function NewCredentials(w: World, decl: Declaration, botId: nat, plan: Plan, secret: string): Credentials {
    Credentials(decl.server, botId, w.nextId, secret, plan.token)
  }

  function IssueAndFinish(w: World, decl: Declaration, plan: Plan, secret: string, faults: seq<Fault>): (r: Exec)
    requires w.bot.Some?
  {
    var issued := Call(w, Issue(w, decl.token, secret), faults);
    if issued.status != Completed then issued
    else
      var credentials := NewCredentials(w, decl, w.bot.value.id, plan, secret);
      var stored := SaveIssued(issued.world, credentials, issued.rest);
      if stored.status != Completed then stored
      else Finish(stored.world, decl, plan.token, credentials, stored.rest)
  }

  function Apply(w: World, decl: Declaration, plan: Plan, secret: string, botId: nat, faults: seq<Fault>): (r: Exec)
    requires !plan.issue ==> w.saved.Some?
  {
    var bot := ApplyBot(w, decl.bot, botId, faults);
    if bot.status != Completed then bot
    else
      var shared := ApplyShares(bot.world, plan.access, bot.rest);
      if shared.status != Completed then shared
      else
        SetupFrame(w, decl, plan, botId, faults);
        if plan.issue then IssueAndFinish(shared.world, decl, plan, secret, shared.rest)
        else Finish(shared.world, decl, plan.retiring, shared.world.saved.value, shared.rest)
  }

  /** What the bot and share calls leave alone. */
  ghost predicate SameTokens(w: World, w': World) {
    && w'.projects == w.projects && w'.tokens == w.tokens && w'.nextId == w.nextId
    && w'.saved == w.saved && w'.seats == w.seats
    && (w.bot.Some? ==> w'.bot.Some? && w'.bot.value.id == w.bot.value.id)
  }

  lemma {:induction false} SharesFrame(w: World, access: seq<Access>, faults: seq<Fault>)
    ensures SameTokens(w, ApplyShares(w, access, faults).world)
    ensures ApplyShares(w, access, faults).world.bot == w.bot
    decreases |access|
  {
    if access != [] {
      var done := if access[0].needsUpdate
                  then Call(w, w.(shares := w.shares[access[0].projectId := access[0].permission]), faults)
                  else Exec(w, Completed, faults);
      if done.status == Completed { SharesFrame(done.world, access[1..], done.rest); }
    }
  }

  lemma SetupFrame(w: World, decl: Declaration, plan: Plan, botId: nat, faults: seq<Fault>)
    ensures var bot := ApplyBot(w, decl.bot, botId, faults);
            && SameTokens(w, bot.world)
            && (bot.status == Completed ==>
                  && bot.world.bot.Some?
                  && SameTokens(w, ApplyShares(bot.world, plan.access, bot.rest).world)
                  && ApplyShares(bot.world, plan.access, bot.rest).world.bot == bot.world.bot)
  {
    var bot := ApplyBot(w, decl.bot, botId, faults);
    if bot.status == Completed { SharesFrame(bot.world, plan.access, bot.rest); }
  }

  /** One invocation: what it was asked, what the server would hand out, what goes wrong. */
  datatype Request = Request(
    decl: Declaration, rotate: bool, now: int, secret: string, botId: nat, faults: seq<Fault>)

  function Run(w: World, request: Request): (r: Exec) {
    var looked := Read(w, request.faults);
    if looked.status != Completed then looked
    else
      match MakePlan(w, request.decl, request.rotate, request.now)
      case Err(_) => Exec(w, Failed, looked.rest)
      case Ok(plan) =>
        var inspected := Read(w, looked.rest);  // every seat is read before anything changes
        if inspected.status != Completed then inspected
        else Apply(w, request.decl, plan, request.secret, request.botId, inspected.rest)
  }
}
