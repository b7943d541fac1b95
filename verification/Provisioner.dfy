/**
 The provisioning run as the program performs it: server, credential store and
 seats are updated in place, call by call. Every method is tied to the value
 model of TokenRotation, so what is proved there holds of these runs.
 */
module Provisioner {
  import opened Common
  import opened TokenRotation

  class Session {
    const projects: seq<Project>
    var bot: Option<Bot>
    var shares: map<nat, int>
    var tokens: map<nat, Token>
    var nextId: nat
    var saved: Option<Credentials>
    var seats: map<string, string>
    var faults: seq<Fault>

    constructor (w: World, faults: seq<Fault>)
      ensures State() == w && this.faults == faults
    {
      projects, bot, shares, tokens := w.projects, w.bot, w.shares, w.tokens;
      nextId, saved, seats := w.nextId, w.saved, w.seats;
      this.faults := faults;
    }

    function State(): World
      reads this
    {
      World(projects, bot, shares, tokens, nextId, saved, seats)
    }

    ghost function Now(status: Status): Exec
      reads this
    {
      Exec(State(), status, faults)
    }

    /** Takes the next fault: does the call take effect, and how does it end? */
    method Attempt() returns (effect: bool, status: Status)
      modifies this`faults
      ensures faults == Tail(old(faults))
      ensures effect <==> Head(old(faults)) in {Fine, Lost, CrashAfter}
      ensures status == match Head(old(faults)) case Fine => Completed case Refused | Lost => Failed case _ => Crashed
    {
      var fault := Head(faults);
      faults := Tail(faults);
      effect := fault.Fine? || fault.Lost? || fault.CrashAfter?;
      status := match fault case Fine => Completed case Refused | Lost => Failed case _ => Crashed;
    }

    method ReadCall() returns (status: Status)
      modifies this`faults
      ensures Now(status) == Read(old(State()), old(faults))
    {
      var effect;
      effect, status := Attempt();
    }

    method DeleteToken(id: nat) returns (status: Status)
      modifies this`tokens, this`faults
      ensures Now(status) == Call(old(State()), Delete(old(State()), id), old(faults))
    {
      var effect;
      effect, status := Attempt();
      if effect { tokens := tokens - {id}; }
    }

    method IssueToken(spec: TokenSpec, secret: string) returns (status: Status)
      modifies this`tokens, this`nextId, this`faults
      ensures Now(status) == Call(old(State()), Issue(old(State()), spec, secret), old(faults))
    {
      var effect;
      effect, status := Attempt();
      if effect {
        tokens := tokens[nextId := Token(spec.title, spec.permissions, spec.expiresAt, secret)];
        nextId := nextId + 1;
      }
    }

    method SaveCredentials(credentials: Credentials) returns (status: Status)
      modifies this`saved, this`faults
      ensures Now(status) == Write(old(State()), Save(old(State()), credentials), old(faults))
    {
      var lost := Head(faults).Lost?;
      var effect;
      effect, status := Attempt();
      if effect && !lost { saved := Some(credentials); }
    }

    method WriteSeat(seat: string, value: string) returns (status: Status)
      modifies this`seats, this`faults
      ensures Now(status) == Write(old(State()), old(State()).(seats := old(seats)[seat := value]), old(faults))
    {
      var lost := Head(faults).Lost?;
      var effect;
      effect, status := Attempt();
      if effect && !lost { seats := seats[seat := value]; }
    }

    method UpdateBotAccount(spec: BotSpec, freshId: nat) returns (status: Status)
      modifies this`bot, this`faults
      ensures Now(status) == ApplyBot(old(State()), spec, freshId, old(faults))
    {
      if bot.Some? && bot.value.name == spec.name && bot.value.status == 0 { return Completed; }
      var id := if bot.Some? then bot.value.id else freshId;
      var effect;
      effect, status := Attempt();
      if effect { bot := Some(Bot(id, spec.name, 0)); }
    }

    method SetShares(access: seq<Access>) returns (status: Status)
      modifies this`shares, this`faults
      ensures Now(status) == ApplyShares(old(State()), access, old(faults))
    {
      status := Completed;
      var i := 0;
      while i < |access|
        invariant 0 <= i <= |access|
        invariant ApplyShares(old(State()), access, old(faults)) == ApplyShares(State(), access[i..], faults)
      {
        if access[i].needsUpdate {
          var effect;
          effect, status := Attempt();
          if effect { shares := shares[access[i].projectId := access[i].permission]; }
          if status != Completed { return; }
        }
        assert access[i..][1..] == access[i + 1..];
        i := i + 1;
      }
      return Completed;
    }

    /** Gives every seat the bearer, one read and at most one write per seat. */
    method PublishTo(hosts: seq<string>, authorization: string) returns (status: Status)
      modifies this`seats, this`faults
      ensures Now(status) == Publish(old(State()), hosts, authorization, old(faults))
    {
      var index := 0;
      while index < |hosts|
        invariant 0 <= index <= |hosts|
        invariant Publish(old(State()), hosts, authorization, old(faults))
                  == Publish(State(), hosts[index..], authorization, faults)
      {
        var host := hosts[index];
        status := ReadCall();
        if status != Completed { return; }
        if !(host in seats && seats[host] == authorization) {
          status := WriteSeat(host, authorization);
          if status != Completed { return; }
        }
        assert hosts[index..][1..] == hosts[index + 1..];
        index := index + 1;
      }
      return Completed;
    }

    method SaveNew(credentials: Credentials) returns (status: Status)
      modifies this`saved, this`tokens, this`faults
      ensures Now(status) == SaveIssued(old(State()), credentials, old(faults))
    {
      status := SaveCredentials(credentials);
      if status == Failed {
        status := DeleteToken(credentials.tokenId);
        if status == Completed { status := Failed; }
      }
    }

    method PublishAndRetire(decl: Declaration, retiring: Option<nat>, credentials: Credentials) returns (status: Status)
      modifies this
      ensures Now(status) == Finish(old(State()), decl, retiring, credentials, old(faults))
    {
      status := PublishTo(decl.seats, Bearer(credentials.token));
      if status != Completed { return; }
      if retiring.Some? {
        status := DeleteToken(retiring.value);
        if status != Completed { return; }
      }
      if credentials.previous.Some? {
        status := SaveCredentials(credentials.(previous := None));
      }
    }

    method ApplyPlan(decl: Declaration, plan: Plan, secret: string, botId: nat) returns (status: Status)
      requires !plan.issue ==> saved.Some?
      modifies this
      ensures Now(status) == Apply(old(State()), decl, plan, secret, botId, old(faults))
    {
      SetupFrame(State(), decl, plan, botId, faults);
      status := UpdateBotAccount(decl.bot, botId);
      if status != Completed { return; }
      status := SetShares(plan.access);
      if status != Completed { return; }
      if plan.issue {
        var credentials := NewCredentials(State(), decl, bot.value.id, plan, secret);
        status := IssueToken(decl.token, secret);
        if status != Completed { return; }
        status := SaveNew(credentials);
        if status != Completed { return; }
        status := PublishAndRetire(decl, plan.token, credentials);
      } else {
        status := PublishAndRetire(decl, plan.retiring, saved.value);
      }
    }

    /** A whole run: plan, inspect the seats, apply. */
    method Provision(request: Request) returns (status: Status)
      requires request.faults == faults
      modifies this
      ensures Now(status) == Run(old(State()), request)
    {
      status := ReadCall();
      if status != Completed { return; }
      var planned := MakePlan(State(), request.decl, request.rotate, request.now);
      if planned.Err? { return Failed; }
      status := ReadCall();
      if status != Completed { return; }
      status := ApplyPlan(request.decl, planned.value, request.secret, request.botId);
    }

    /** Lists the seats a publication would rewrite, reading each once. */
    method InspectSeats(hosts: seq<string>, credentials: Option<Credentials>) returns (changes: seq<string>)
      ensures changes == SeatPlan(State(), hosts, credentials)
    {
      hide SeatPlan;
      changes := [];
      var i := 0;
      assert hosts[0..] == hosts;
      while i < |hosts|
        invariant 0 <= i <= |hosts|
        invariant SeatPlan(State(), hosts, credentials) == changes + SeatPlan(State(), hosts[i..], credentials)
      {
        var host := hosts[i];
        SeatTurn(State(), SeatPlan(State(), hosts, credentials), changes, hosts[i..], credentials);
        if credentials.None? || host !in seats || seats[host] != Bearer(credentials.value.token) {
          changes := changes + [host];
        }
        assert hosts[i..][1..] == hosts[i + 1..];
        i := i + 1;
      }
      assert SeatPlan(State(), hosts[i..], credentials) == [] by { NoSeats(State(), hosts[i..], credentials); }
    }
  }

  lemma NoSeats(w: World, hosts: seq<string>, credentials: Option<Credentials>)
    requires hosts == []
    ensures SeatPlan(w, hosts, credentials) == []
  {
  }

  lemma SeatTurn(w: World, all: seq<string>, changes: seq<string>, hosts: seq<string>, credentials: Option<Credentials>)
    requires hosts != [] && all == changes + SeatPlan(w, hosts, credentials)
    ensures var stale := credentials.None? || hosts[0] !in w.seats || w.seats[hosts[0]] != Bearer(credentials.value.token);
            all == (if stale then changes + [hosts[0]] else changes) + SeatPlan(w, hosts[1..], credentials)
  {
  }
}
