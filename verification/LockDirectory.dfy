/**
 The lock directory as one process uses it: taking, emptying and dropping host
 locks in place. The kernel's set of locked files and unremovable links are given.
 */
module LockDirectory {
  import opened FleetProtocol

  datatype Attempt = Taken | Busy | Broken

  class Directory {
    var locked: set<Host>   // files the kernel has locked, for this process or another
    var held: set<Host>     // locks this process has in scope
    var roots: map<Root, Path>
    const stuck: set<Root>  // links whose removal fails

    constructor (locked: set<Host>, roots: map<Root, Path>, stuck: set<Root>)
      ensures this.locked == locked && this.held == {} && this.roots == roots && this.stuck == stuck
    {
      this.locked, this.held, this.roots, this.stuck := locked, {}, roots, stuck;
    }

    predicate Empty(host: Host)
      reads this
    {
      forall r <- roots :: r.host != host
    }

    /** Some link in the host's directory cannot be removed. */
    predicate Jammed(host: Host)
      reads this
    {
      exists r <- roots :: r.host == host && r in stuck
    }

    /** Removes the host's links one by one; a link that cannot be removed ends the loop. */
    method ClearRoots(host: Host) returns (ok: bool)
      modifies this`roots
      ensures ok <==> !old(Jammed(host))
      ensures ok ==> Empty(host)
      ensures forall r <- roots :: r in old(roots) && roots[r] == old(roots)[r]
      ensures forall r <- old(roots) :: r in roots || r.host == host
      ensures forall r <- old(roots) :: r in stuck ==> r in roots
    {
      var todo := set r | r in roots && r.host == host;
      while todo != {}
        invariant forall r <- todo :: r in roots && r.host == host
        invariant forall r <- roots :: r in old(roots) && roots[r] == old(roots)[r]
        invariant forall r <- old(roots) :: r in roots || r.host == host
        invariant forall r <- roots :: r.host == host ==> r in todo
        invariant forall r <- old(roots) :: r in stuck ==> r in roots
        decreases todo
      {
        var r :| r in todo;
        if r in stuck { return false; }
        roots := roots - {r};
        todo := todo - {r};
      }
      ok := true;
    }

    /** Dropping a host lock removes its links, whatever that yields, and only then unlocks. */
    method DropHost(host: Host)
      modifies this
      ensures locked == old(locked) - {host} && held == old(held) - {host}
      ensures forall r <- roots :: r in old(roots) && roots[r] == old(roots)[r]
      ensures forall r <- old(roots) :: r in roots || r.host == host
      ensures forall r <- old(roots) :: r in stuck ==> r in roots
      ensures !old(Jammed(host)) ==> Empty(host)
    {
      var cleared := ClearRoots(host);
      locked, held := locked - {host}, held - {host};
    }

    method TryLockHost(host: Host) returns (attempt: Attempt)
      requires held <= locked
      modifies this
      ensures attempt == if host in old(locked) then Busy else if old(Jammed(host)) then Broken else Taken
      ensures locked == if attempt.Taken? then old(locked) + {host} else old(locked)
      ensures held == if attempt.Taken? then old(held) + {host} else old(held)
      ensures attempt.Taken? ==> Empty(host)
      ensures attempt.Busy? ==> roots == old(roots)
      ensures forall r <- roots :: r in old(roots) && roots[r] == old(roots)[r]
      ensures forall r <- old(roots) :: r in roots || r.host == host
      ensures forall r <- old(roots) :: r in stuck ==> r in roots
    {
      if host in locked { return Busy; }
      locked, held := locked + {host}, held + {host};
      var cleared := ClearRoots(host);
      if !cleared {
        DropHost(host);
        return Broken;
      }
      return Taken;
    }

    /** What a finished or abandoned call may have done to the links of hosts it did not hold before. */
    twostate predicate OnlyRemoved()
      reads this
    {
      && (forall r <- roots :: r in old(roots) && roots[r] == old(roots)[r])
      && (forall r <- old(roots) :: r in roots || r.host !in old(locked))
      && (forall r <- old(roots) :: r in stuck ==> r in roots)
    }

    method DropAll(hosts: set<Host>)
      modifies this
      ensures locked == old(locked) - hosts && held == old(held) - hosts
      ensures forall r <- roots :: r in old(roots) && roots[r] == old(roots)[r]
      ensures forall r <- old(roots) :: r in roots || r.host in hosts
      ensures forall r <- old(roots) :: r in stuck ==> r in roots
      ensures forall h <- hosts :: !old(Jammed(h)) ==> Empty(h)
    {
      var todo := hosts;
      while todo != {}
        invariant todo <= hosts
        invariant locked == old(locked) - (hosts - todo) && held == old(held) - (hosts - todo)
        invariant forall r <- roots :: r in old(roots) && roots[r] == old(roots)[r]
        invariant forall r <- old(roots) :: r in roots || r.host in hosts
        invariant forall r <- old(roots) :: r in stuck ==> r in roots
        invariant forall h <- hosts - todo :: !old(Jammed(h)) ==> Empty(h)
        decreases todo
      {
        var host :| host in todo;
        DropHost(host);
        todo := todo - {host};
      }
    }

    /** Takes every distinct requested host, or none. */
    method TakeHosts(hosts: seq<Host>) returns (ok: bool)
      requires held <= locked
      modifies this
      ensures ok <==> forall h <- hosts :: h !in old(locked) && !old(Jammed(h))
      ensures ok ==> forall h <- hosts :: Empty(h)
      ensures locked == old(locked) + (if ok then Hosts(hosts) else {})
      ensures held == old(held) + (if ok then Hosts(hosts) else {})
      ensures OnlyRemoved()
      ensures ok ==> forall r <- old(roots) :: r in roots || r.host in hosts
    {
      var all := Hosts(hosts);
      var todo := all;
      while todo != {}
        invariant todo <= all
        invariant locked == old(locked) + (all - todo) && held == old(held) + (all - todo)
        invariant forall h <- all - todo :: h !in old(locked) && Empty(h) && !old(Jammed(h))
        invariant OnlyRemoved()
        invariant forall r <- old(roots) :: r in roots || r.host in all - todo
        decreases todo
      {
        var host :| host in todo;
        assert Jammed(host) <==> old(Jammed(host)) by {
          if old(Jammed(host)) {
            ghost var r :| r in old(roots) && r.host == host && r in stuck;
            assert r in roots;
          }
        }
        var attempt := TryLockHost(host);
        if !attempt.Taken? {
          assert host in hosts;
          DropAll(all - todo);
          assert locked == old(locked) && held == old(held);
          return false;
        }
        todo := todo - {host};
      }
      assert forall h <- hosts :: h in all - todo;
      ok := true;
    }

    /** An idle host's links are gone; a busy host keeps its own. */
    twostate predicate Swept(host: Host)
      reads this
    {
      if host in old(locked) then forall r <- old(roots) :: r.host == host ==> r in roots else Empty(host)
    }

    /** Visits the directory entries outside `hosts`, emptying each one that nobody holds. */
    method Sweep(hosts: seq<Host>, entries: seq<Host>) returns (ok: bool)
      requires held <= locked
      modifies this
      ensures ok <==> forall h <- entries :: h !in hosts && h !in old(locked) ==> !old(Jammed(h))
      ensures locked == old(locked) && held == old(held)
      ensures OnlyRemoved()
      ensures forall r <- old(roots) :: r in roots || r.host !in hosts
      ensures ok ==> forall h <- entries :: h !in hosts ==> Swept(h)
    {
      var i := 0;
      while i < |entries|
        invariant 0 <= i <= |entries|
        invariant locked == old(locked) && held == old(held)
        invariant OnlyRemoved()
        invariant forall r <- old(roots) :: r in roots || r.host !in hosts
        invariant forall h <- entries[..i] :: h !in hosts && h !in old(locked) ==> !old(Jammed(h))
        invariant forall h <- entries[..i] :: h !in hosts ==> Swept(h)
      {
        var host := entries[i];
        assert entries[..i + 1] == entries[..i] + [host];
        if host !in hosts {
          assert Jammed(host) <==> old(Jammed(host)) by {
            if old(Jammed(host)) {
              ghost var r :| r in old(roots) && r.host == host && r in stuck;
              assert r in roots;
            }
          }
          var attempt := TryLockHost(host);
          if attempt.Broken? {
            assert host in entries;
            return false;
          }
          if attempt.Taken? {
            DropHost(host);
            assert locked == old(locked) && held == old(held);
          }
        }
        i := i + 1;
      }
      assert entries[..|entries|] == entries;
      ok := true;
    }

    /**
     lock(): all or nothing. It succeeds exactly when every requested host is free
     and every link in a requested or an idle host can be removed. On failure the
     locks are as before. On success the caller holds the distinct requested hosts
     and nothing else, none of them has a link left, every idle entry was emptied,
     and a link that remains in a visited entry is in a host someone else holds.
     */
    method Lock(hosts: seq<Host>, entries: seq<Host>) returns (ok: bool)
      requires held <= locked
      modifies this
      ensures ok <==> && (forall h <- hosts :: h !in old(locked) && !old(Jammed(h)))
                      && (forall h <- entries :: h !in hosts && h !in old(locked) ==> !old(Jammed(h)))
      ensures locked == old(locked) + (if ok then Hosts(hosts) else {})
      ensures held == old(held) + (if ok then Hosts(hosts) else {})
      ensures ok ==> forall h <- hosts :: Empty(h)
      ensures ok ==> forall r <- roots :: r.host in entries ==> r.host in old(locked)
      ensures OnlyRemoved()
    {
      ok := TakeHosts(hosts);
      if !ok { return; }
      forall h <- entries | h !in hosts ensures Jammed(h) <==> old(Jammed(h)) {
        if old(Jammed(h)) {
          var r :| r in old(roots) && r.host == h && r in stuck;
          assert r in roots;
        }
      }
      ok := Sweep(hosts, entries);
      if !ok {
        DropAll(Hosts(hosts));
        assert locked == old(locked) && held == old(held);
      }
    }
  }
}
