/** Which engines belong to the cluster: discovery, pending engines and their validation. */
module Membership {
  import opened EngineHealth

  ghost function AsSet(entries: seq<string>): set<string> {
    set a | a in entries
  }

  /** The entries of `a` that are not in `b`: both halves of Entries.Diff. */
  method Without(a: seq<string>, b: seq<string>) returns (c: seq<string>)
    ensures forall x :: x in c <==> x in a && x !in b
  {
    c := [];
    for i := 0 to |a|
      invariant forall x :: x in c <==> x in a[..i] && x !in b
    {
      if a[i] !in b {
        c := c + [a[i]];
      }
    }
  }

  ghost function AddressesOf(engines: map<string, Engine>): set<string> {
    set id | id in engines :: engines[id].addr
  }

  /** Taking one engine out takes its address out and no other. */
  lemma OnlyOneLess(engines: map<string, Engine>, id: string, addr: string)
    requires id in engines && engines[id].addr == addr
    requires forall jd | jd in engines && jd != id :: engines[jd].addr != addr
    ensures AddressesOf(engines - {id}) == AddressesOf(engines) - {addr}
  {
    forall a | a in AddressesOf(engines) && a != addr ensures a in AddressesOf(engines - {id}) {
      var jd :| jd in engines && engines[jd].addr == a;
      assert jd in engines - {id};
    }
  }

  class Cluster {
    var engines: map<string, Engine>
    var pendingEngines: map<string, Engine>
    /** Every engine object ever made: goroutines may still hold those that left the cluster. */
    var created: set<Engine>
    const failureRetry: int

    constructor (failureRetry: int)
      ensures Valid() && Addresses() == {} && created == {}
    {
      engines, pendingEngines, created := map[], map[], {};
      this.failureRetry := failureRetry;
    }

    /** Engines are keyed by their own ID, pending ones by their own address; no two share an address. */
    ghost predicate Valid()
      reads this, created
    {
      && (forall a | a in pendingEngines :: pendingEngines[a] in created && pendingEngines[a].addr == a)
      && (forall id | id in engines :: engines[id] in created && engines[id].id == id && id != "")
      && (forall id | id in engines :: engines[id].addr !in pendingEngines)
      && (forall id, jd | id in engines && jd in engines && id != jd :: engines[id].addr != engines[jd].addr)
    }

    /** The addresses the cluster knows, validated or not. */
    ghost function Addresses(): set<string>
      reads this
    {
      pendingEngines.Keys + AddressesOf(engines)
    }

    method GetEngineByAddr(addr: string) returns (e: Engine?)
      requires Valid()
      ensures e == null <==> addr !in Addresses()
      ensures e != null ==> e in created && e.addr == addr
      ensures addr in pendingEngines ==> e == pendingEngines[addr]
      ensures e != null && addr !in pendingEngines ==> e.id in engines && engines[e.id] == e
    {
      if addr in pendingEngines {
        return pendingEngines[addr];
      }
      var todo := engines.Keys;
      while todo != {}
        invariant todo <= engines.Keys
        invariant forall id | id in engines && id !in todo :: engines[id].addr != addr
      {
        var id :| id in todo;
        if engines[id].addr == addr {
          return engines[id];
        }
        todo := todo - {id};
      }
      e := null;
    }

    /** The insertion of addEngine. */
    method AddPending(addr: string)
      requires Valid() && addr !in Addresses()
      modifies this`pendingEngines, this`created
      ensures Valid() && Addresses() == old(Addresses()) + {addr} && engines == old(engines)
      ensures addr in pendingEngines && fresh(pendingEngines[addr]) && pendingEngines[addr].H() == NEW
      ensures created == old(created) + {pendingEngines[addr]}
    {
      var e := new Engine(addr, failureRetry);
      created := created + {e};
      pendingEngines := pendingEngines[addr := e];
      assert Addresses() == old(Addresses()) + {addr};
    }

    /** Connecting, before the lock is taken: the first answer gives the engine its ID. */
    method Connect(e: Engine, reply: Reply) returns (ok: bool)
      requires Valid() && e in created && (reply.Reports? ==> reply.id != "")
      modifies e
      ensures Valid() && Addresses() == old(Addresses())
      ensures ok <==> reply.Reports? && (old(e.id) == "" || old(e.id) == reply.id)
      ensures ok ==> e.id == reply.id
      ensures e.H() == After(old(e.H()), Connecting(reply), e.failureRetry)
    {
      ok := e.Connect(reply);
    }

    /** The critical section of validatePendingEngine, for any engine object that has connected, even one that
        discovery has removed meanwhile. It keeps the set of addresses, and moves exactly the engines whose
        address is pending and whose ID is not taken. */
    method Validate(e: Engine) returns (registered: bool)
      requires e.id != "" && e in created
      modifies this`engines, this`pendingEngines, e`state, e`failureCount, e`client, e`events
      ensures old(Valid()) ==> Valid() && Addresses() == old(Addresses())
      ensures registered <==> old(e.addr in pendingEngines && e.id !in engines)
      ensures registered ==> engines == old(engines)[e.id := e] && pendingEngines == old(pendingEngines) - {e.addr}
      ensures old(Valid()) && !registered ==> engines == old(engines) && pendingEngines == old(pendingEngines)
      ensures registered ==> e.H() == After(old(e.H()), Validated, e.failureRetry)
      ensures registered && old(e.state).Pending? ==> e.state == Healthy && e.failureCount == 0
      ensures old(Valid()) && !registered ==> e.H() == old(e.H())
    {
      if e.addr !in pendingEngines {
        return false;
      }
      if e.id in engines {
        if engines[e.id].addr == e.addr {
          e.Disconnect();
          pendingEngines := pendingEngines - {e.addr};
        }
        return false;
      }
      pendingEngines := pendingEngines - {e.addr};
      e.ValidationComplete();
      engines := engines[e.id := e];
      registered := true;
      assert forall id | id in old(engines) :: id in engines && engines[id] == old(engines)[id];
      assert e.id in engines && engines[e.id].addr == e.addr;
      assert old(Valid()) ==> forall a :: a in Addresses() <==> a in old(Addresses());
    }

    /** The critical section of removeEngine, for the engine object that was looked up for the address before.
        The object is disconnected. It removes that address and no other exactly when the address is still pending or
        the object looked up, by its ID, still stands for the engine of that address. */
    method RemoveLocked(addr: string, e: Engine)
      requires Valid() && e in created && addr in Addresses()
      modifies this`engines, this`pendingEngines, e`state, e`client, e`events
      ensures Valid() && e.state == Disconnected && e.H() == After(old(e.H()), Disconnecting, e.failureRetry)
      ensures old(addr in pendingEngines) ==> pendingEngines == old(pendingEngines) - {addr} && engines == old(engines)
      ensures old(addr !in pendingEngines) ==> pendingEngines == old(pendingEngines) && engines == old(engines) - {e.id}
      ensures Addresses() == old(Addresses()) - {addr} <==>
              old(addr in pendingEngines || (e.id in engines && engines[e.id].addr == addr))
    {
      e.Disconnect();
      if addr in pendingEngines {
        pendingEngines := pendingEngines - {addr};
      } else {
        ghost var holder :| holder in engines && engines[holder].addr == addr;
        engines := engines - {e.id};
        assert holder != e.id ==> holder in engines && addr in Addresses();
        if holder == e.id {
          OnlyOneLess(old(engines), e.id, addr);
          assert Addresses() == old(Addresses()) - {addr};
        }
      }
    }

    /** removeEngine with nothing happening between its look-up and its critical section. */
    method RemoveEngine(addr: string) returns (removed: bool)
      requires Valid()
      modifies this`engines, this`pendingEngines, created`state, created`client, created`events
      ensures Valid() && Addresses() == old(Addresses()) - {addr} && created == old(created)
      ensures removed <==> addr in old(Addresses())
      ensures old(addr in pendingEngines) ==> engines == old(engines) && old(pendingEngines)[addr].state == Disconnected
      ensures old(addr !in pendingEngines) ==>
                forall id | id in old(engines) && old(engines)[id].addr == addr ::
                  old(engines)[id].state == Disconnected
    {
      var e := GetEngineByAddr(addr);
      if e == null {
        return false;
      }
      RemoveLocked(addr, e);
      removed := true;
    }

    /** What other goroutines may do while no lock is held: any number of connections and validations, of any
        engine objects there ever were. */
    method Interfere()
      requires Valid()
      modifies this`engines, this`pendingEngines, created
      ensures Valid() && Addresses() == old(Addresses()) && created == old(created)
    {
      var steps: nat := *;
      while steps > 0
        invariant Valid() && Addresses() == old(Addresses()) && created == old(created)
      {
        if created != {} {
          var e: Engine :| e in created;
          var reply: Reply := *;
          if !reply.Reports? || reply.id != "" {
            var ok := Connect(e, reply);
          }
          if e.id != "" {
            var registered := Validate(e);
          }
        }
        steps := steps - 1;
      }
    }

    /** addEngine; others may interfere between its look-up and its insertion. */
    method AddEngine(addr: string) returns (added: bool)
      requires Valid()
      modifies this`engines, this`pendingEngines, this`created, created
      ensures Valid() && Addresses() == old(Addresses()) + {addr} && fresh(created - old(created))
      ensures added <==> addr !in old(Addresses())
    {
      var e := GetEngineByAddr(addr);
      if e != null {
        return false;
      }
      Interfere();
      AddPending(addr);
      added := true;
    }

    /** One update of monitorDiscovery: afterwards, whatever interfered in between, the cluster knows exactly
        the addresses that discovery lists. */
    method Update(current: seq<string>, entries: seq<string>)
      requires Valid() && Addresses() == AsSet(current)
      modifies this`engines, this`pendingEngines, this`created, created
      ensures Valid() && Addresses() == AsSet(entries) && fresh(created - old(created))
    {
      var added := Without(entries, current);
      var removed := Without(current, entries);
      RemoveAll(removed);
      AddAll(added);
      assert AsSet(current) - AsSet(removed) + AsSet(added) == AsSet(entries);
    }

    method RemoveAll(removed: seq<string>)
      requires Valid()
      modifies this`engines, this`pendingEngines, created
      ensures Valid() && Addresses() == old(Addresses()) - AsSet(removed) && created == old(created)
    {
      for i := 0 to |removed|
        invariant Valid() && Addresses() == old(Addresses()) - AsSet(removed[..i]) && created == old(created)
      {
        Interfere();
        var ok := RemoveEngine(removed[i]);
        assert AsSet(removed[..i + 1]) == AsSet(removed[..i]) + {removed[i]};
      }
      assert removed[..|removed|] == removed;
    }

    method AddAll(added: seq<string>)
      requires Valid()
      modifies this`engines, this`pendingEngines, this`created, created
      ensures Valid() && Addresses() == old(Addresses()) + AsSet(added) && fresh(created - old(created))
    {
      for i := 0 to |added|
        invariant Valid() && Addresses() == old(Addresses()) + AsSet(added[..i])
        invariant fresh(created - old(created))
      {
        Interfere();
        var ok := AddEngine(added[i]);
        assert AsSet(added[..i + 1]) == AsSet(added[..i]) + {added[i]};
      }
      assert added[..|added|] == added;
    }
  }

  /** The cluster follows discovery through any number of updates. */
  method Monitor(c: Cluster, updates: seq<seq<string>>)
    requires c.Valid() && c.Addresses() == {}
    modifies c`engines, c`pendingEngines, c`created, c.created
    ensures c.Valid() && c.Addresses() == if updates == [] then {} else AsSet(updates[|updates| - 1])
  {
    var current: seq<string> := [];
    for i := 0 to |updates|
      invariant c.Valid() && c.Addresses() == AsSet(current) && fresh(c.created - old(c.created))
      invariant current == if i == 0 then [] else updates[i - 1]
    {
      c.Interfere();
      c.Update(current, updates[i]);
      current := updates[i];
    }
    c.Interfere();
  }

  /** An engine that connected and was removed again: a goroutine still holds it. */
  method StaleEngine(addr: string, id: string, retry: int) returns (c: Cluster, stale: Engine)
    requires id != ""
    ensures fresh(c) && c.Valid() && c.Addresses() == {} && c.engines == map[]
    ensures stale in c.created && stale.addr == addr && stale.id == id
    ensures forall e | e in c.created :: fresh(e)
  {
    c := new Cluster(retry);
    c.AddPending(addr);
    stale := c.pendingEngines[addr];
    var connected := c.Connect(stale, Reports(id));
    var gone := c.RemoveEngine(addr);
  }

  /** When a stale engine object is validated between the look-up and the critical section of a removal, the
      removed address stays in the cluster. */
  method RemovalRace(addr: string, id: string, retry: int) returns (c: Cluster)
    requires id != ""
    ensures fresh(c) && c.Valid() && addr in c.Addresses()
  {
    var stale;
    c, stale := StaleEngine(addr, id, retry);
    c.AddPending(addr);
    var found := c.GetEngineByAddr(addr);   // discovery removes the address again: the look-up
    assert found.id == "";
    var registered := c.Validate(stale);    // the stale object gets in between
    assert registered && c.engines == map[id := stale];
    c.RemoveLocked(addr, found);
    assert c.engines == map[id := stale];
  }
}
