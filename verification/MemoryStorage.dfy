/** The in-memory storage, proved against the one-map table. */
module MemoryStorage {
  import opened Wrappers
  import opened Clocks
  import opened LockTable
  import opened LockIndexes

  class InMemoryLockStorage {
    var clientToLocks: ClientIndex
    var locksToClient: OwnerIndex
    var allLocks: LockIndex
    var clientLastAddress: map<ClientId, Address>
    const clock: Clock
    const releaseAllTimeout: Duration
    /** What the indexes and the shared objects stand for. */
    ghost var table: Table
    /** The lock objects this storage may change. */
    ghost var infos: set<MemoryLockInfo>

    ghost predicate Valid()
      reads this, infos
    {
      StandsFor(clientToLocks, locksToClient, allLocks, infos, table)
    }

    constructor (clock: Clock, releaseAllTimeout: Duration)
      ensures Valid() && table == map[] && clientLastAddress == map[] && infos == {}
      ensures this.clock == clock && this.releaseAllTimeout == releaseAllTimeout
    {
      this.clock, this.releaseAllTimeout := clock, releaseAllTimeout;
      clientToLocks, locksToClient, allLocks, clientLastAddress := map[], map[], map[], map[];
      table, infos := map[], {};
    }

    /** `client_to_locks` is a default dictionary: looking a client up adds an empty list. */
    method LocksOf(c: ClientId) returns (locks: seq<MemoryLockInfo>)
      requires Valid()
      modifies this`clientToLocks
      ensures Valid()
      ensures c in clientToLocks && clientToLocks[c] == locks
      ensures clientToLocks == old(if c in clientToLocks then clientToLocks else clientToLocks[c := []])
    {
      hide StandsFor;
      if c !in clientToLocks {
        AddOrDropEmptyList(clientToLocks, locksToClient, allLocks, infos, table, c);
        clientToLocks := clientToLocks[c := []];
      }
      locks := clientToLocks[c];
    }

    method DeleteLock(l: LockId)
      requires Valid() && l in allLocks
      modifies this`clientToLocks, this`locksToClient, this`allLocks, this`table
      ensures Valid() && table == old(table) - {l}
      ensures allLocks == old(allLocks) - {l}
      ensures OnlyListOf(old(table[l].owner), old(clientToLocks), clientToLocks)
    {
      hide StandsFor;
      Lookup(clientToLocks, locksToClient, allLocks, infos, table, l);
      Delete(clientToLocks, locksToClient, allLocks, infos, table, l);
      var c := locksToClient[l];
      locksToClient := locksToClient - {l};
      var info := allLocks[l];
      allLocks := allLocks - {l};
      clientToLocks := Unlist(clientToLocks, c, info);
      table := table - {l};
    }

    method Acquire(c: ClientId, l: LockId, reentrant: bool) returns (ok: bool)
      requires Valid()
      modifies this`clientToLocks, this`locksToClient, this`allLocks, this`table, this`infos, clock
      ensures Valid()
      ensures old(clock.now) <= clock.now && fresh(infos - old(infos))
      ensures ok == Acquires(old(table), c, l, reentrant, clock.now)
      ensures table == LockTable.Acquire(old(table), c, l, clock.now)
    {
      hide StandsFor;
      Lookup(clientToLocks, locksToClient, allLocks, infos, table, l);
      if l in allLocks {
        var expired := allLocks[l].Expired(clock);
        if expired {
          DeleteLock(l);
        }
      }
      Lookup(clientToLocks, locksToClient, allLocks, infos, table, l);
      if l in locksToClient {
        return reentrant && locksToClient[l] == c;
      }
      var info := Stamp(l);
      Enter(c, info);
      ok := true;
    }

    /** The granting half of `acquire`: the new object goes into all three indexes. */
    method Enter(c: ClientId, info: MemoryLockInfo)
      requires Valid() && info.id !in allLocks
      modifies this`clientToLocks, this`locksToClient, this`allLocks, this`table, this`infos
      ensures Valid() && infos == old(infos) + {info}
      ensures table == old(table)[info.id := info.Holding(c)]
    {
      hide StandsFor;
      Insert(clientToLocks, locksToClient, allLocks, infos, table, c, info);
      locksToClient := locksToClient[info.id := c];
      clientToLocks := Enlist(clientToLocks, c, info);
      allLocks := allLocks[info.id := info];
      infos := infos + {info};
      table := table[info.id := info.Holding(c)];
    }

    method Stamp(l: LockId) returns (info: MemoryLockInfo)
      modifies clock
      ensures fresh(info) && old(clock.now) <= clock.now
      ensures info.id == l && info.time == clock.now && info.markFreeAfter == None && info.signals == None
    {
      var now := clock.Time();
      info := new MemoryLockInfo(l, now);
    }

    method Release(c: ClientId, l: LockId) returns (ok: bool)
      requires Valid()
      modifies this
      ensures Valid() && clientLastAddress == old(clientLastAddress) && infos == old(infos)
      ensures ok == Holds(old(table), c, l)
      ensures table == LockTable.Release(old(table), c, l)
    {
      hide StandsFor;
      var locks := LocksOf(c);
      var i := 0;
      while i < |locks| && locks[i].id != l
        invariant 0 <= i <= |locks|
        invariant forall j :: 0 <= j < i ==> locks[j].id != l
      {
        i := i + 1;
      }
      Unpack(clientToLocks, locksToClient, allLocks, infos, table);
      SearchAgreesWithOwner(clientToLocks, locksToClient, allLocks, c, l);
      if i == |locks| {
        return false;
      }
      assert locks[i] in ListOf(clientToLocks, c);
      DeleteLock(l);
      ok := true;
    }

    method ReleaseAll(c: ClientId, timeout: Duration)
      requires Valid()
      modifies this`clientToLocks, this`table, clock, infos
      ensures Valid() && old(clock.now) <= clock.now
      ensures table == SetDeadlines(old(table), c,
        Some(clock.now + (if timeout == 0.0 then releaseAllTimeout else timeout)))
    {
      var now := clock.Time();
      var markFreeAt := now + (if timeout == 0.0 then releaseAllTimeout else timeout);
      SetMarks(c, Some(markFreeAt));
    }

    method UnreleaseAll(c: ClientId)
      requires Valid()
      modifies this`clientToLocks, this`table, infos
      ensures Valid()
      ensures table == SetDeadlines(old(table), c, None)
    {
      SetMarks(c, None);
    }

    /** The loop of `release_all` and `unrelease_all`: marks the client's objects in place. */
    method SetMarks(c: ClientId, mark: Option<real>)
      requires Valid()
      modifies this`clientToLocks, this`table, infos
      ensures Valid()
      ensures table == SetDeadlines(old(table), c, mark)
    {
      hide StandsFor;
      var locks := LocksOf(c);
      Unpack(clientToLocks, locksToClient, allLocks, infos, table);
      forall info | info in locks ensures info in infos {
        LookupListed(clientToLocks, locksToClient, allLocks, infos, table, c, info);
      }
      for i := 0 to |locks|
        modifies infos
        invariant forall info | info in infos :: info.signals == old(info.signals)
        invariant forall info | info in infos && info !in locks :: info.markFreeAfter == old(info.markFreeAfter)
        invariant forall j | 0 <= j < i :: locks[j].markFreeAfter == mark
      {
        hide Coherent;
        assert locks[i] in infos;
        locks[i].markFreeAfter := mark;
      }
      Remark(clientToLocks, locksToClient, allLocks, infos, table, c, mark);
      table := SetDeadlines(table, c, mark);
    }

    method Locked(l: LockId) returns (b: bool)
      requires Valid()
      modifies this, clock
      ensures Valid() && clientLastAddress == old(clientLastAddress) && infos == old(infos)
      ensures old(clock.now) <= clock.now
      ensures b == LockTable.Locked(old(table), l, clock.now)
      ensures table == CollectIfExpired(old(table), l, clock.now)
    {
      Lookup(clientToLocks, locksToClient, allLocks, infos, table, l);
      if l !in allLocks {
        return false;
      }
      var expired := allLocks[l].Expired(clock);
      if expired {
        DeleteLock(l);
      }
      b := !expired;
    }

    method AddSignal(l: LockId, signal: Signal) returns (answer: Answer)
      requires Valid()
      modifies this`table, infos
      ensures Valid()
      ensures LockTable.AddSignal(old(table), l, signal) == (table, answer)
    {
      Lookup(clientToLocks, locksToClient, allLocks, infos, table, l);
      if l !in allLocks {
        return KeyNotExists;
      }
      hide StandsFor;
      Unpack(clientToLocks, locksToClient, allLocks, infos, table);
      assert allLocks[l] in allLocks.Values;
      ghost var signals := table[l].signals + {signal};
      allLocks[l].AddSignal(signal);
      Resignal(clientToLocks, locksToClient, allLocks, infos, table, l, signals);
      table := SetSignals(table, l, signals);
      answer := Yes;
    }

    method HasSignal(l: LockId, signal: Signal) returns (answer: Answer)
      requires Valid()
      ensures answer == LockTable.HasSignal(table, l, signal)
    {
      Lookup(clientToLocks, locksToClient, allLocks, infos, table, l);
      if l !in allLocks {
        return KeyNotExists;
      }
      var b := allLocks[l].HasSignal(signal);
      answer := if b then Yes else No;
    }

    method RemoveSignal(l: LockId, signal: Signal) returns (answer: Answer)
      requires Valid()
      modifies this`table, infos
      ensures Valid()
      ensures LockTable.RemoveSignal(old(table), l, signal) == (table, answer)
    {
      Lookup(clientToLocks, locksToClient, allLocks, infos, table, l);
      if l !in allLocks {
        return KeyNotExists;
      }
      hide StandsFor;
      Unpack(clientToLocks, locksToClient, allLocks, infos, table);
      var info := allLocks[l];
      assert info in allLocks.Values;
      if info.signals.None? || signal !in info.signals.value {
        return No;
      }
      ghost var signals := table[l].signals - {signal};
      info.signals := Some(info.signals.value - {signal});
      Resignal(clientToLocks, locksToClient, allLocks, infos, table, l, signals);
      table := SetSignals(table, l, signals);
      answer := Yes;
    }

    method SetClientLastAddress(c: ClientId, address: Address)
      modifies this`clientLastAddress
      ensures clientLastAddress == old(clientLastAddress)[c := address]
    {
      clientLastAddress := clientLastAddress[c := address];
    }

    /** One step of a sweep: deletes an expired lock. */
    method SweepLock(info: MemoryLockInfo)
      requires Valid() && info.id in allLocks && allLocks[info.id] == info
      modifies this`clientToLocks, this`locksToClient, this`allLocks, this`table, clock
      ensures Valid() && old(clock.now) <= clock.now
      ensures allLocks.Keys >= old(allLocks.Keys) - {info.id} && Shrinks(old(allLocks), allLocks)
      ensures Collects(old(table), table, clock.now) && allLocks.Keys == table.Keys
      ensures info.id in table ==> !Expired(table[info.id], old(clock.now))
      ensures OnlyListOf(old(table[info.id].owner), old(clientToLocks), clientToLocks)
    {
      hide StandsFor;
      Lookup(clientToLocks, locksToClient, allLocks, infos, table, info.id);
      Unpack(clientToLocks, locksToClient, allLocks, infos, table);
      var expired := info.Expired(clock);
      if expired {
        DeleteLock(info.id);
      }
    }

    /** The inner loop of `maintenance`: deletes the client's expired locks, walking a copy of its list. */
    method SweepClient(c: ClientId)
      requires Valid() && c in clientToLocks
      modifies this`clientToLocks, this`locksToClient, this`allLocks, this`table, clock
      ensures Valid() && old(clock.now) <= clock.now
      ensures Collects(old(table), table, clock.now)
      ensures NoneExpired(table, {c}, old(clock.now))
      ensures OnlyListOf(c, old(clientToLocks), clientToLocks)
    {
      hide StandsFor;
      ListNamesLocks(clientToLocks, locksToClient, allLocks, infos, table, c);
      Unpack(clientToLocks, locksToClient, allLocks, infos, table);
      var locks := clientToLocks[c];
      assert ListsLocksOf(locks, c, allLocks, table);
      for i := 0 to |locks|
        invariant Valid()
        invariant Inspected(locks, i, old(allLocks), allLocks, old(table), table, old(clock.now), clock.now)
        invariant OnlyListOf(c, old(clientToLocks), clientToLocks)
      {
        hide Inspected, ListsLocksOf, Collects, Shrinks, Coherent;
        ghost var all, t, now := allLocks, table, clock.now;
        NextToInspect(locks, i, c, old(allLocks), all, old(table), t, old(clock.now), now);
        SweepLock(locks[i]);
        InspectedOneMore(locks, i, c, old(allLocks), all, allLocks, old(table), t, table, old(clock.now), now,
          clock.now);
      }
      AllInspected(locks, c, old(allLocks), allLocks, old(table), table, old(clock.now), clock.now);
    }

    /** The outer loop's body: sweeps a client and drops it, with its address, once it holds nothing. */
    method SweepOrDrop(c: ClientId)
      requires Valid() && c in clientToLocks
      modifies this, clock
      ensures Valid() && infos == old(infos) && old(clock.now) <= clock.now
      ensures Collects(old(table), table, clock.now)
      ensures NoneExpired(table, {c}, old(clock.now))
      ensures Forgets(old(clientLastAddress), clientLastAddress, table)
      ensures if c in clientToLocks then clientToLocks[c] != [] else c !in clientLastAddress
      ensures clientToLocks.Keys + {c} == old(clientToLocks.Keys)
      ensures forall d | d in clientToLocks && d != c :: clientToLocks[d] == old(clientToLocks)[d]
      ensures clientLastAddress.Keys + {c} == old(clientLastAddress.Keys) + {c}
    {
      hide StandsFor, Collects, NoneExpired;
      SweepClient(c);
      if clientToLocks[c] == [] {
        AddOrDropEmptyList(clientToLocks, locksToClient, allLocks, infos, table, c);
        clientToLocks := clientToLocks - {c};
        clientLastAddress := clientLastAddress - {c};
      }
    }

    /** `order` is the shuffled list of clients. The sweep may stop after any of them. */
    method Maintenance(timeoutMs: Duration, order: seq<ClientId>) returns (finished: bool)
      requires Valid() && Shuffles(order, clientToLocks.Keys)
      modifies this, clock
      ensures Valid() && infos == old(infos) && old(clock.now) <= clock.now
      ensures Collects(old(table), table, clock.now)
      ensures Forgets(old(clientLastAddress), clientLastAddress, table)
      ensures !finished ==> clock.now > old(clock.now) + timeoutMs * 1000.0
      ensures finished ==> forall l | l in table :: !Expired(table[l], old(clock.now))
      ensures finished ==> forall c | c in clientToLocks :: clientToLocks[c] != []
      ensures forall c | c in old(clientToLocks) && c !in clientToLocks :: c !in clientLastAddress
    {
      hide StandsFor, Collects, Forgets, NoneExpired, SweptSoFar;
      var now := clock.Time();
      var finishAt := now + timeoutMs * 1000.0;
      SweepBegins(table, clientLastAddress, clientToLocks, old(clock.now), now);
      assert Before(order, 0) == {};
      for i := 0 to |order|
        invariant Valid() && infos == old(infos) && old(clock.now) <= clock.now
        invariant clientToLocks.Keys <= old(clientToLocks.Keys) <= clientToLocks.Keys + Before(order, i)
        invariant SweptSoFar(old(table), table, old(clientLastAddress), clientLastAddress, clientToLocks,
          Before(order, i),
                             old(clock.now), clock.now)
        invariant i == |order| ==> Before(order, i) == old(clientToLocks.Keys)
      {
        hide Before, Shuffles;
        NextInOrder(order, i, old(clientToLocks.Keys));
        ghost var t, addresses, clients, before := table, clientLastAddress, clientToLocks, clock.now;
        SweepOrDrop(order[i]);
        ghost var swept := clock.now;
        var later := clock.Time();
        SweepGoesOn(old(table), t, table, old(clientLastAddress), addresses, clientLastAddress, clients, clientToLocks,
                    Before(order, i), order[i], old(clock.now), before, swept, later);
        if later > finishAt {
          finished := i + 1 == |order|;
          SweepStops(clientToLocks, locksToClient, allLocks, infos, old(table), table, old(clientLastAddress),
            clientLastAddress,
                     Before(order, i + 1), old(clock.now), later);
          return;
        }
      }
      finished := true;
      SweepStops(clientToLocks, locksToClient, allLocks, infos, old(table), table, old(clientLastAddress),
        clientLastAddress,
                 Before(order, |order|), old(clock.now), clock.now);
    }

    /** `order` is the lock index's iteration order, `matches` the shell-style pattern test. */
    method Find(matches: LockId -> bool, order: seq<LockId>) returns (found: seq<(LockId, real)>)
      requires Valid() && Shuffles(order, allLocks.Keys)
      modifies clock
      ensures old(clock.now) <= clock.now
      ensures forall f | f in found ::
        f.0 in table && matches(f.0) && f.1 == table[f.0].time && !Expired(table[f.0], old(clock.now))
      ensures forall l | l in table && matches(l) && !Expired(table[l], clock.now) :: (l, table[l].time) in found
      ensures NoDuplicates(found)
    {
      hide StandsFor;
      found := [];
      for i := 0 to |order|
        invariant old(clock.now) <= clock.now
        invariant forall f | f in found :: f.0 in order[..i] && f.0 in table
        invariant forall f | f in found ::
          matches(f.0) && f.1 == table[f.0].time && !Expired(table[f.0], old(clock.now))
        invariant forall j | 0 <= j < i && order[j] in table && matches(order[j]) &&
          !Expired(table[order[j]], clock.now) ::
          (order[j], table[order[j]].time) in found
        invariant NoDuplicates(found)
      {
        var l := order[i];
        Lookup(clientToLocks, locksToClient, allLocks, infos, table, l);
        var expired := allLocks[l].Expired(clock);
        if !expired && matches(l) {
          assert (l, table[l].time) !in found;
          assert order[..i + 1] == order[..i] + [l];
          found := found + [(l, allLocks[l].time)];
        }
      }
      Unpack(clientToLocks, locksToClient, allLocks, infos, table);
    }

    method Dump() returns (s: Snapshot)
      requires Valid()
      ensures CoherentSnapshot(s) && SavedTable(s) == table && s.clientLastAddress == clientLastAddress
    {
      hide StandsFor, SavedTable;
      Unpack(clientToLocks, locksToClient, allLocks, infos, table);
      s := Snapshot(map c | c in clientToLocks :: Ids(clientToLocks[c]), locksToClient,
                    map l | l in allLocks :: RecordOf(allLocks[l]),
                    clientLastAddress);
      SnapshotIsCoherent(clientToLocks, locksToClient, allLocks, s);
      SnapshotSavesTable(locksToClient, allLocks, table, s);
    }

    static method ReviveOne(l: LockId, r: Record) returns (info: MemoryLockInfo)
      ensures fresh(info) && Revives(info, l, r)
    {
      info := new MemoryLockInfo(l, r.time);
      info.markFreeAfter, info.signals := r.markFreeAfter, r.signals;
    }

    /** One fresh object for each pickled one. */
    static method Revive(records: map<LockId, Record>) returns (locks: LockIndex)
      ensures locks.Keys == records.Keys && fresh(locks.Values)
      ensures forall l {:trigger locks[l]} | l in locks :: Revives(locks[l], l, records[l])
    {
      locks := map[];
      var todo := records.Keys;
      while todo != {}
        invariant locks.Keys + todo == records.Keys
        invariant forall l {:trigger locks[l]} | l in locks :: fresh(locks[l]) && Revives(locks[l], l, records[l])
        decreases todo
      {
        hide Revives;
        var l :| l in todo;
        var info := ReviveOne(l, records[l]);
        locks, todo := locks[l := info], todo - {l};
      }
    }

    static method ResolveLists(s: Snapshot, locks: LockIndex) returns (clients: ClientIndex)
      requires CoherentSnapshot(s) && locks.Keys == s.allLocks.Keys
      requires forall l {:trigger locks[l]} | l in locks :: Revives(locks[l], l, s.allLocks[l])
      ensures clients.Keys == s.clientToLocks.Keys
      ensures StandsFor(clients, s.locksToClient, locks, locks.Values, SavedTable(s))
    {
      hide StandsFor, Revives;
      forall c, l | c in s.clientToLocks && l in s.clientToLocks[c] ensures l in locks {
        assert SavedAs(s, c, l);
      }
      clients := map c | c in s.clientToLocks :: Resolve(s.clientToLocks[c], locks);
      RestoredStandsFor(s, clients, locks);
    }

    /** Unpickling: the indexes share the revived objects as they shared the pickled ones. */
    method Restore(s: Snapshot)
      requires CoherentSnapshot(s)
      modifies this
      ensures Valid() && fresh(infos) && table == SavedTable(s) && clientLastAddress == s.clientLastAddress
      ensures clientToLocks.Keys == s.clientToLocks.Keys
    {
      hide StandsFor, Revives, SavedTable;
      var locks := Revive(s.allLocks);
      var clients := ResolveLists(s, locks);
      Install(clients, s.locksToClient, locks, s.clientLastAddress, SavedTable(s));
    }

    method Install(clients: ClientIndex, owners: OwnerIndex, locks: LockIndex, addresses: map<ClientId, Address>,
                   ghost saved: Table)
      requires StandsFor(clients, owners, locks, locks.Values, saved)
      modifies this
      ensures Valid() && infos == locks.Values && table == saved && clientLastAddress == addresses &&
        clientToLocks == clients
    {
      hide StandsFor;
      clientToLocks, locksToClient, allLocks, clientLastAddress := clients, owners, locks, addresses;
      infos, table := locks.Values, saved;
    }

    method CleanAllData()
      modifies this
      ensures Valid() && table == map[] && clientLastAddress == map[] && infos == {}
    {
      clientToLocks, locksToClient, allLocks, clientLastAddress := map[], map[], map[], map[];
      table, infos := map[], {};
    }

    /** The final loop of a load: marks every client's locks. */
    method MarkEveryone(timeout: Duration)
      requires Valid() && timeout != 0.0
      modifies this`clientToLocks, this`table, clock, infos
      ensures Valid() && old(clock.now) <= clock.now
      ensures table.Keys == old(table.Keys)
      ensures forall l | l in table :: Remarked(old(table[l]), table[l], old(clock.now) + timeout, clock.now + timeout)
    {
      hide StandsFor;
      OwnersAreListed(clientToLocks, locksToClient, allLocks, infos, table);
      var todo := clientToLocks.Keys;
      while todo != {}
        invariant Valid() && old(clock.now) <= clock.now
        invariant Remarking(old(table), table, todo, old(clock.now), clock.now, timeout)
        decreases todo
      {
        hide Remarking;
        var c :| c in todo;
        ghost var t, before := table, clock.now;
        ReleaseAll(c, timeout);
        RemarkedOneMore(old(table), t, todo, c, old(clock.now), before, clock.now, timeout);
        todo := todo - {c};
      }
    }

    /** `order` is the shuffle of the maintenance run on the loaded data. */
    method LoadDump(file: DumpFile, order: seq<ClientId>)
      requires Valid()
      requires file.Saved? ==> CoherentSnapshot(file.snapshot) && Shuffles(order, file.snapshot.clientToLocks.Keys)
      modifies this, clock
      ensures Valid() && old(clock.now) <= clock.now
      ensures file.Missing? ==> table == old(table) && clientLastAddress == old(clientLastAddress)
      ensures file.Unreadable? ==> table == map[] && clientLastAddress == map[]
      ensures file.Saved? ==>
        && Loads(SavedTable(file.snapshot), table, old(clock.now), clock.now, releaseAllTimeout + 1.0)
        && Forgets(file.snapshot.clientLastAddress, clientLastAddress, table)
    {
      hide StandsFor, CoherentSnapshot, Shuffles, Loads, Forgets;
      match file
      case Missing =>
      case Unreadable =>
        CleanAllData();
      case Saved(s) =>
        Restore(s);
        CollectAndMark(order);
    }

    /** What follows the restoring of a dump: a sweep, then a new deadline for everyone. */
    method CollectAndMark(order: seq<ClientId>)
      requires Valid() && Shuffles(order, clientToLocks.Keys)
      modifies this, clock, infos
      ensures Valid() && old(clock.now) <= clock.now
      ensures Loads(old(table), table, old(clock.now), clock.now, releaseAllTimeout + 1.0)
      ensures Forgets(old(clientLastAddress), clientLastAddress, table)
    {
      hide StandsFor, Loads, Forgets, Collects, Shuffles, Remarked;
      var _ := Maintenance(60000.0, order);
      ghost var t, between := table, clock.now;
      MarkEveryone(releaseAllTimeout + 1.0);
      CollectedThenMarked(old(table), t, table, old(clientLastAddress), clientLastAddress,
                          old(clock.now), between, clock.now, releaseAllTimeout + 1.0);
    }
  }
}
