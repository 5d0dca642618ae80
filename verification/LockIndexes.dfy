/** The storage's three cross-linked indexes over shared lock objects, and what coherent ones stand for. */
module LockIndexes {
  import opened Wrappers
  import opened Clocks
  import opened LockTable

  /** One held lock. The same object is reached from the lock index and from its owner's list. */
  class MemoryLockInfo {
    const id: LockId
    const time: real
    var markFreeAfter: Option<real>
    var signals: Option<set<Signal>>

    constructor (id: LockId, time: real)
      ensures this.id == id && this.time == time && markFreeAfter == None && signals == None
    {
      this.id, this.time := id, time;
      markFreeAfter, signals := None, None;
    }

    /** The clock is read only when there is a deadline to compare with. */
    method Expired(clock: Clock) returns (b: bool)
      modifies clock
      ensures old(clock.now) <= clock.now
      ensures b == DeadlinePassed(markFreeAfter, clock.now)
    {
      if markFreeAfter.Some? && markFreeAfter.value != 0.0 {
        var t := clock.Time();
        b := t >= markFreeAfter.value;
      } else {
        b := false;
      }
    }

    method AddSignal(signal: Signal)
      modifies this`signals
      ensures signals == Some(old(if signals.Some? then signals.value else {}) + {signal})
    {
      if signals.None? {
        signals := Some({});
      }
      signals := Some(signals.value + {signal});
    }

    method HasSignal(signal: Signal) returns (b: bool)
      ensures b == (signals.Some? && signal in signals.value)
      ensures forall owner :: b <==> signal in Holding(owner).signals
    {
      b := signals.Some? && signal in signals.value;
    }

    ghost function Holding(owner: ClientId): Entry
      reads this
    {
      Entry(owner, time, markFreeAfter, if signals.Some? then signals.value else {})
    }
  }

  type ClientIndex = map<ClientId, seq<MemoryLockInfo>>
  type OwnerIndex = map<LockId, ClientId>
  type LockIndex = map<LockId, MemoryLockInfo>

  ghost predicate NoDuplicates<T>(s: seq<T>) {
    forall i, j :: 0 <= i < j < |s| ==> s[i] != s[j]
  }

  /** The object is known to both other indexes under its own id, as one of `c`'s locks. */
  ghost predicate Registered(owners: OwnerIndex, locks: LockIndex, c: ClientId, info: MemoryLockInfo) {
    && info.id in locks && locks[info.id] == info
    && info.id in owners && owners[info.id] == c
  }

  /** The lock's object carries its id and is in its owner's list. */
  ghost predicate Listed(clients: ClientIndex, owners: OwnerIndex, locks: LockIndex, l: LockId) {
    && l in locks && locks[l].id == l
    && l in owners && owners[l] in clients && locks[l] in clients[owners[l]]
  }

  /** The three indexes describe the same holdings. The triggers keep instances explicit. */
  ghost predicate Coherent(clients: ClientIndex, owners: OwnerIndex, locks: LockIndex) {
    && owners.Keys == locks.Keys
    && (forall l {:trigger Listed(clients, owners, locks, l)} | l in locks :: Listed(clients, owners, locks, l))
    && (forall c, info {:trigger Registered(owners, locks, c, info)} | c in clients && info in clients[c] ::
          Registered(owners, locks, c, info))
    && (forall c {:trigger NoDuplicates(clients[c])} | c in clients :: NoDuplicates(clients[c]))
  }

  /** `list.remove`: drops the first occurrence. */
  function RemoveFirst<T(==)>(s: seq<T>, x: T): seq<T> {
    if s == [] then [] else if s[0] == x then s[1..] else [s[0]] + RemoveFirst(s[1..], x)
  }

  lemma PrependDistinct<T>(x: T, s: seq<T>)
    requires NoDuplicates(s) && x !in s
    ensures NoDuplicates([x] + s)
  {
    forall i, j | 0 <= i < j < |[x] + s| ensures ([x] + s)[i] != ([x] + s)[j] {
      assert ([x] + s)[j] == s[j - 1];
    }
  }

  lemma {:induction false} RemoveFirstFromDistinct<T>(s: seq<T>, x: T)
    requires NoDuplicates(s)
    ensures NoDuplicates(RemoveFirst(s, x))
    ensures forall y | y in s :: y in RemoveFirst(s, x) <==> y != x
    ensures forall y | y in RemoveFirst(s, x) :: y in s && y != x
    ensures |RemoveFirst(s, x)| == |s| - (if x in s then 1 else 0)
  {
    if s != [] {
      assert s == [s[0]] + s[1..];
      assert NoDuplicates(s[1..]);
      assert s[0] !in s[1..];
      RemoveFirstFromDistinct(s[1..], x);
      if s[0] != x {
        PrependDistinct(s[0], RemoveFirst(s[1..], x));
      }
    }
  }

  function ListOf(clients: ClientIndex, c: ClientId): seq<MemoryLockInfo> {
    if c in clients then clients[c] else []
  }

  function Unlist(clients: ClientIndex, c: ClientId, info: MemoryLockInfo): ClientIndex {
    clients[c := RemoveFirst(ListOf(clients, c), info)]
  }

  function Enlist(clients: ClientIndex, c: ClientId, info: MemoryLockInfo): ClientIndex {
    clients[c := ListOf(clients, c) + [info]]
  }

  /** The table's entry for `l` is what the lock's object and owner say. */
  ghost predicate Mirrors(table: Table, owners: OwnerIndex, locks: LockIndex, infos: set<MemoryLockInfo>, l: LockId)
    reads infos
  {
    && l in table && l in locks && l in owners && locks[l] in infos
    && table[l] == locks[l].Holding(owners[l])
  }

  /** Coherent indexes over `infos` that stand for `table`. */
  ghost predicate StandsFor(clients: ClientIndex, owners: OwnerIndex, locks: LockIndex, infos: set<MemoryLockInfo>,
                            table: Table)
    reads infos
  {
    && Coherent(clients, owners, locks)
    && table.Keys == locks.Keys
    && (forall l {:trigger Mirrors(table, owners, locks, infos, l)} | l in locks ::
         Mirrors(table, owners, locks, infos, l))
  }

  /** What coherent indexes say of one lock. */
  lemma Lookup(clients: ClientIndex, owners: OwnerIndex, locks: LockIndex, infos: set<MemoryLockInfo>, table: Table,
               l: LockId)
    requires StandsFor(clients, owners, locks, infos, table)
    ensures l in locks <==> l in owners
    ensures l in locks <==> l in table
    ensures l in locks ==> Mirrors(table, owners, locks, infos, l) && Listed(clients, owners, locks, l)
  {
    if l in locks {
      assert Mirrors(table, owners, locks, infos, l) && Listed(clients, owners, locks, l);
    }
  }

  /** What coherent indexes say of one object on a client's list. */
  lemma LookupListed(clients: ClientIndex, owners: OwnerIndex, locks: LockIndex, infos: set<MemoryLockInfo>,
                     table: Table, c: ClientId, info: MemoryLockInfo)
    requires StandsFor(clients, owners, locks, infos, table) && info in ListOf(clients, c)
    ensures Registered(owners, locks, c, info) && info in infos
  {
    assert Registered(owners, locks, c, info);
    Lookup(clients, owners, locks, infos, table, info.id);
  }

  /** Taking a lock out of all three indexes leaves them coherent. */
  lemma DeleteKeepsCoherence(clients: ClientIndex, owners: OwnerIndex, locks: LockIndex, l: LockId)
    requires Coherent(clients, owners, locks) && l in locks
    ensures owners[l] in clients
    ensures Coherent(Unlist(clients, owners[l], locks[l]), owners - {l}, locks - {l})
  {
    assert Listed(clients, owners, locks, l);
    var c, info := owners[l], locks[l];
    var clients', owners', locks' := Unlist(clients, c, info), owners - {l}, locks - {l};
    assert NoDuplicates(clients[c]);
    RemoveFirstFromDistinct(clients[c], info);
    forall d, x | d in clients' && x in clients'[d] ensures Registered(owners', locks', d, x) {
      assert Registered(owners, locks, d, x);
    }
    forall k | k in locks' ensures Listed(clients', owners', locks', k) {
      assert Listed(clients, owners, locks, k);
    }
    forall d | d in clients' ensures NoDuplicates(clients'[d]) {
      assert d != c ==> NoDuplicates(clients[d]);
    }
  }

  lemma Delete(clients: ClientIndex, owners: OwnerIndex, locks: LockIndex, infos: set<MemoryLockInfo>, table: Table,
               l: LockId)
    requires StandsFor(clients, owners, locks, infos, table) && l in locks
    ensures l in owners && owners[l] in clients
    ensures StandsFor(Unlist(clients, owners[l], locks[l]), owners - {l}, locks - {l}, infos, table - {l})
  {
    DeleteKeepsCoherence(clients, owners, locks, l);
    forall k | k in locks - {l} ensures Mirrors(table - {l}, owners - {l}, locks - {l}, infos, k) {
      assert Mirrors(table, owners, locks, infos, k);
    }
  }

  /** Entering a fresh object for an unheld lock into all three indexes leaves them coherent. */
  lemma InsertKeepsCoherence(clients: ClientIndex, owners: OwnerIndex, locks: LockIndex, c: ClientId,
                             info: MemoryLockInfo)
    requires Coherent(clients, owners, locks) && info.id !in locks
    ensures Coherent(Enlist(clients, c, info), owners[info.id := c], locks[info.id := info])
  {
    var clients', owners', locks' := Enlist(clients, c, info), owners[info.id := c], locks[info.id := info];
    forall d, x | d in clients' && x in clients'[d] ensures Registered(owners', locks', d, x) {
      if d in clients && x in clients[d] {
        assert Registered(owners, locks, d, x);
      }
    }
    forall l | l in locks' ensures Listed(clients', owners', locks', l) {
      if l == info.id {
        assert clients'[c][|ListOf(clients, c)|] == info;
      } else {
        assert Listed(clients, owners, locks, l);
        if owners[l] == c {
          var i :| 0 <= i < |clients[c]| && clients[c][i] == locks[l];
          assert clients'[c][i] == locks[l];
        }
      }
    }
    forall d | d in clients' ensures NoDuplicates(clients'[d]) {
      if d in clients {
        assert NoDuplicates(clients[d]);
      }
      forall i | 0 <= i < |ListOf(clients, c)| ensures ListOf(clients, c)[i] != info {
        assert Registered(owners, locks, c, clients[c][i]);
      }
    }
  }

  lemma Insert(clients: ClientIndex, owners: OwnerIndex, locks: LockIndex, infos: set<MemoryLockInfo>, table: Table,
               c: ClientId, info: MemoryLockInfo)
    requires StandsFor(clients, owners, locks, infos, table) && info.id !in locks
    ensures StandsFor(Enlist(clients, c, info), owners[info.id := c], locks[info.id := info], infos + {info},
                      table[info.id := info.Holding(c)])
  {
    InsertKeepsCoherence(clients, owners, locks, c, info);
    var owners', locks', table' := owners[info.id := c], locks[info.id := info], table[info.id := info.Holding(c)];
    forall k | k in locks' ensures Mirrors(table', owners', locks', infos + {info}, k) {
      assert k != info.id ==> Mirrors(table, owners, locks, infos, k);
    }
  }

  lemma EmptyListKeepsCoherence(clients: ClientIndex, owners: OwnerIndex, locks: LockIndex, c: ClientId)
    requires Coherent(clients, owners, locks) && ListOf(clients, c) == []
    ensures Coherent(clients[c := []], owners, locks) && Coherent(clients - {c}, owners, locks)
  {
    forall l | l in locks
      ensures Listed(clients[c := []], owners, locks, l) && Listed(clients - {c}, owners, locks, l)
    {
      assert Listed(clients, owners, locks, l);
    }
    forall d, x | d in clients && x in clients[d] ensures Registered(owners, locks, d, x) {}
    forall d | d in clients ensures NoDuplicates(clients[d]) {}
  }

  lemma AddOrDropEmptyList(clients: ClientIndex, owners: OwnerIndex, locks: LockIndex, infos: set<MemoryLockInfo>,
                           table: Table, c: ClientId)
    requires StandsFor(clients, owners, locks, infos, table) && ListOf(clients, c) == []
    ensures StandsFor(clients[c := []], owners, locks, infos, table)
    ensures StandsFor(clients - {c}, owners, locks, infos, table)
    ensures forall l | l in table :: table[l].owner != c
  {
    EmptyListKeepsCoherence(clients, owners, locks, c);
    forall l | l in table ensures table[l].owner != c {
      Lookup(clients, owners, locks, infos, table, l);
    }
  }

  /** Giving the objects on `c`'s list one deadline gives it to `c`'s entries. */
  lemma Remark(clients: ClientIndex, owners: OwnerIndex, locks: LockIndex, infos: set<MemoryLockInfo>, table: Table,
               c: ClientId, mark: Option<real>)
    requires Coherent(clients, owners, locks) && table.Keys == locks.Keys && locks.Values <= infos
    requires forall l | l in locks ::
      locks[l].Holding(owners[l]) == if locks[l] in ListOf(clients, c) then table[l].(deadline := mark) else table[l]
    ensures StandsFor(clients, owners, locks, infos, SetDeadlines(table, c, mark))
  {
    forall l | l in locks ensures Mirrors(SetDeadlines(table, c, mark), owners, locks, infos, l) {
      assert Listed(clients, owners, locks, l) && locks[l] in locks.Values;
      assert locks[l] in ListOf(clients, c) ==> Registered(owners, locks, c, locks[l]);
    }
  }

  /** Changing the signals of one object changes them in that lock's entry only. */
  lemma Resignal(clients: ClientIndex, owners: OwnerIndex, locks: LockIndex, infos: set<MemoryLockInfo>, table: Table,
                 l: LockId, signals: set<Signal>)
    requires Coherent(clients, owners, locks) && table.Keys == locks.Keys && locks.Values <= infos && l in locks
    requires forall k | k in locks ::
      locks[k].Holding(owners[k]) == if locks[k] == locks[l] then table[k].(signals := signals) else table[k]
    ensures StandsFor(clients, owners, locks, infos, SetSignals(table, l, signals))
  {
    forall k | k in locks ensures Mirrors(SetSignals(table, l, signals), owners, locks, infos, k) {
      assert Listed(clients, owners, locks, k) && Listed(clients, owners, locks, l) && locks[k] in locks.Values;
    }
  }

  /** What `StandsFor` says, for use where it is hidden. */
  lemma Unpack(clients: ClientIndex, owners: OwnerIndex, locks: LockIndex, infos: set<MemoryLockInfo>, table: Table)
    requires StandsFor(clients, owners, locks, infos, table)
    ensures Coherent(clients, owners, locks) && table.Keys == locks.Keys && locks.Values <= infos
    ensures forall l | l in locks :: locks[l].Holding(owners[l]) == table[l]
  {
    forall l | l in locks ensures locks[l] in infos && locks[l].Holding(owners[l]) == table[l] {
      Lookup(clients, owners, locks, infos, table, l);
    }
  }

  /** A client's list names exactly its locks, each once. */
  lemma ListNamesLocks(clients: ClientIndex, owners: OwnerIndex, locks: LockIndex, infos: set<MemoryLockInfo>,
                       table: Table, c: ClientId)
    requires StandsFor(clients, owners, locks, infos, table) && c in clients
    ensures forall i | 0 <= i < |clients[c]| :: clients[c][i].id in locks && locks[clients[c][i].id] == clients[c][i]
    ensures forall i, j | 0 <= i < j < |clients[c]| :: clients[c][i].id != clients[c][j].id
    ensures forall l | l in table :: table[l].owner == c <==> locks[l] in clients[c]
    ensures forall l | l in table :: locks[l].id == l
  {
    assert NoDuplicates(clients[c]);
    forall i | 0 <= i < |clients[c]| ensures Registered(owners, locks, c, clients[c][i]) {}
    forall l | l in table ensures (table[l].owner == c <==> locks[l] in clients[c]) && locks[l].id == l {
      Lookup(clients, owners, locks, infos, table, l);
      if locks[l] in clients[c] {
        LookupListed(clients, owners, locks, infos, table, c, locks[l]);
      }
    }
  }

  function Ids(infos: seq<MemoryLockInfo>): (ids: seq<LockId>)
    ensures |ids| == |infos| && forall i | 0 <= i < |infos| :: ids[i] == infos[i].id
  {
    seq(|infos|, i requires 0 <= i < |infos| => infos[i].id)
  }

  /** The lengths of all clients' lists together. */
  ghost function ListedCount(clients: ClientIndex): nat {
    if clients == map[] then 0 else
      var c :| c in clients;
      |clients[c]| + ListedCount(clients - {c})
  }

  lemma {:induction false} DistinctIdsCount(ids: seq<LockId>)
    requires NoDuplicates(ids)
    ensures |set l | l in ids| == |ids|
  {
    if ids != [] {
      var init, last := ids[..|ids| - 1], ids[|ids| - 1];
      DistinctIdsCount(init);
      assert ids == init + [last];
      assert last !in init;
      assert (set l | l in ids) == (set l | l in init) + {last};
    }
  }

  /** Every held lock is on exactly one list, once: the lists together are as long as the lock index. */
  lemma {:induction false} ListsCountLocks(clients: ClientIndex, owners: OwnerIndex, locks: LockIndex)
    requires Coherent(clients, owners, locks)
    ensures |locks| == ListedCount(clients)
    decreases |clients|
  {
    LocksNeedClients(clients, owners, locks);
    if clients != map[] {
      var c :| c in clients && ListedCount(clients) == |clients[c]| + ListedCount(clients - {c});
      var mine := set l | l in owners && owners[l] == c;
      var clients', owners', locks' := clients - {c}, owners - mine, locks - mine;
      DropClientKeepsCoherence(clients, owners, locks, c, mine);
      ListsCountLocks(clients', owners', locks');
      OwnedCount(clients, owners, locks, c, mine);
      assert locks.Keys == locks'.Keys + mine;
      assert |locks.Keys| == |locks'.Keys| + |mine|;
    }
  }

  lemma LocksNeedClients(clients: ClientIndex, owners: OwnerIndex, locks: LockIndex)
    requires Coherent(clients, owners, locks)
    ensures locks != map[] ==> clients != map[]
  {
    if locks != map[] {
      var l :| l in locks;
      assert Listed(clients, owners, locks, l);
    }
  }

  lemma DropClientKeepsCoherence(clients: ClientIndex, owners: OwnerIndex, locks: LockIndex, c: ClientId,
                                 mine: set<LockId>)
    requires Coherent(clients, owners, locks) && mine == set l | l in owners && owners[l] == c
    ensures Coherent(clients - {c}, owners - mine, locks - mine)
  {
    forall d, x | d in clients - {c} && x in (clients - {c})[d] ensures Registered(owners - mine, locks - mine, d, x) {
      assert Registered(owners, locks, d, x);
    }
    forall l | l in locks - mine ensures Listed(clients - {c}, owners - mine, locks - mine, l) {
      assert Listed(clients, owners, locks, l);
    }
    forall d | d in clients - {c} ensures NoDuplicates((clients - {c})[d]) {
      assert NoDuplicates(clients[d]);
    }
  }

  lemma OwnedCount(clients: ClientIndex, owners: OwnerIndex, locks: LockIndex, c: ClientId, mine: set<LockId>)
    requires Coherent(clients, owners, locks) && c in clients && mine == set l | l in owners && owners[l] == c
    ensures |mine| == |clients[c]|
  {
    var ids := Ids(clients[c]);
    assert NoDuplicates(clients[c]);
    forall i | 0 <= i < |ids| ensures Registered(owners, locks, c, clients[c][i]) {}
    assert NoDuplicates(ids);
    forall l ensures l in ids <==> l in mine {
      SearchAgreesWithOwner(clients, owners, locks, c, l);
      if l in ids {
        var i :| 0 <= i < |ids| && ids[i] == l;
        assert clients[c][i] in ListOf(clients, c);
      }
      if l in mine {
        var info :| info in ListOf(clients, c) && info.id == l;
        var i :| 0 <= i < |clients[c]| && clients[c][i] == info;
        assert ids[i] == l;
      }
    }
    assert mine == set l | l in ids;
    DistinctIdsCount(ids);
  }

  /** The linear search of a client's list agrees with the owner index. */
  lemma SearchAgreesWithOwner(clients: ClientIndex, owners: OwnerIndex, locks: LockIndex, c: ClientId, l: LockId)
    requires Coherent(clients, owners, locks)
    ensures (exists info :: info in ListOf(clients, c) && info.id == l) <==> l in owners && owners[l] == c
  {
    if info :| info in ListOf(clients, c) && info.id == l {
      assert Registered(owners, locks, c, info);
    }
    if l in owners && owners[l] == c {
      assert Listed(clients, owners, locks, l);
      assert locks[l] in ListOf(clients, c) && locks[l].id == l;
    }
  }

  lemma OwnersAreListed(clients: ClientIndex, owners: OwnerIndex, locks: LockIndex, infos: set<MemoryLockInfo>,
                        table: Table)
    requires StandsFor(clients, owners, locks, infos, table)
    ensures forall l | l in table :: table[l].owner in clients
  {
    forall l | l in table ensures table[l].owner in clients {
      Lookup(clients, owners, locks, infos, table, l);
    }
  }

  /** Sweeping every client sweeps every lock. */
  lemma AllSwept(clients: ClientIndex, owners: OwnerIndex, locks: LockIndex, infos: set<MemoryLockInfo>, table: Table,
                 swept: set<ClientId>, start: real)
    requires StandsFor(clients, owners, locks, infos, table) && clients.Keys <= swept
    ensures NoneExpired(table, swept, start) ==> forall l | l in table :: !Expired(table[l], start)
  {
    OwnersAreListed(clients, owners, locks, infos, table);
  }

  /** The keys in some order. */
  ghost predicate Shuffles<T(!new)>(order: seq<T>, keys: set<T>) {
    NoDuplicates(order) && forall x :: x in order <==> x in keys
  }

  /** Only `c`'s list may have changed. */
  ghost predicate OnlyListOf(c: ClientId, clients: ClientIndex, clients': ClientIndex) {
    && clients'.Keys == clients.Keys
    && (forall d | d in clients && d != c :: clients'[d] == clients[d])
  }

  ghost predicate Shrinks(locks: LockIndex, locks': LockIndex) {
    && locks'.Keys <= locks.Keys
    && (forall l | l in locks' :: locks'[l] == locks[l])
  }

  /** `c`'s list and what it names, before a sweep of it begins. */
  ghost predicate ListsLocksOf(listed: seq<MemoryLockInfo>, c: ClientId, locks: LockIndex, t: Table) {
    && locks.Keys == t.Keys
    && (forall i | 0 <= i < |listed| ::
         listed[i].id in locks && locks[listed[i].id] == listed[i] && t[listed[i].id].owner == c)
    && (forall i, j | 0 <= i < j < |listed| :: listed[i].id != listed[j].id)
  }

  /** A sweep of `listed` that began at `start` with `t0` has inspected the first `n`. */
  ghost predicate Inspected(listed: seq<MemoryLockInfo>, n: nat, locks0: LockIndex, locks: LockIndex, t0: Table,
                            t: Table, start: real, now: real)
    requires n <= |listed|
  {
    && start <= now && Collects(t0, t, now) && Shrinks(locks0, locks) && locks.Keys == t.Keys
    && (forall j | n <= j < |listed| :: listed[j].id in locks)
    && (forall j | 0 <= j < n && listed[j].id in t :: !Expired(t[listed[j].id], start))
  }

  lemma NextToInspect(listed: seq<MemoryLockInfo>, n: nat, c: ClientId, locks0: LockIndex, locks: LockIndex,
                      t0: Table, t: Table, start: real, now: real)
    requires n < |listed| && ListsLocksOf(listed, c, locks0, t0) &&
      Inspected(listed, n, locks0, locks, t0, t, start, now)
    ensures listed[n].id in locks && locks[listed[n].id] == listed[n] && listed[n].id in t && t[listed[n].id].owner == c
  {}

  lemma InspectedOneMore(listed: seq<MemoryLockInfo>, n: nat, c: ClientId, locks0: LockIndex, locks: LockIndex,
                         locks': LockIndex, t0: Table, t: Table, t': Table, start: real, now: real, now': real)
    requires n < |listed| && ListsLocksOf(listed, c, locks0, t0) &&
      Inspected(listed, n, locks0, locks, t0, t, start, now)
    requires now <= now' && Collects(t, t', now') && Shrinks(locks, locks') && locks'.Keys == t'.Keys
    requires locks'.Keys >= locks.Keys - {listed[n].id}
    requires listed[n].id in t' ==> !Expired(t'[listed[n].id], now)
    ensures Inspected(listed, n + 1, locks0, locks', t0, t', start, now')
  {
    CollectsIsTransitive(t0, t, t', now, now');
    CollectingKeeps(t, t', now');
  }

  lemma AllInspected(listed: seq<MemoryLockInfo>, c: ClientId, locks0: LockIndex, locks: LockIndex, t0: Table,
                     t: Table, start: real, now: real)
    requires Inspected(listed, |listed|, locks0, locks, t0, t, start, now) && locks0.Keys == t0.Keys
    requires forall l | l in t0 :: locks0[l].id == l && (t0[l].owner == c <==> locks0[l] in listed)
    ensures Collects(t0, t, now) && NoneExpired(t, {c}, start)
  {
    CollectingKeeps(t0, t, now);
  }

  /** The clients before position `n` of a shuffled list. */
  ghost function Before(order: seq<ClientId>, n: nat): set<ClientId>
    requires n <= |order|
  {
    set c | c in order[..n]
  }

  lemma NextInOrder(order: seq<ClientId>, n: nat, keys: set<ClientId>)
    requires n < |order| && Shuffles(order, keys)
    ensures order[n] in keys - Before(order, n) && Before(order, n + 1) == Before(order, n) + {order[n]}
    ensures n + 1 == |order| ==> Before(order, n + 1) == keys
  {
    assert order[..n + 1] == order[..n] + [order[n]];
    assert n + 1 == |order| ==> order[..n + 1] == order;
  }

  /** What a sweep that began at `start` has done by `now`, with the clients in `swept` behind it. */
  ghost predicate SweptSoFar(t0: Table, t: Table, addresses0: map<ClientId, Address>,
                             addresses: map<ClientId, Address>, clients: ClientIndex, swept: set<ClientId>,
                             start: real, now: real)
  {
    && Collects(t0, t, now) && Forgets(addresses0, addresses, t) && NoneExpired(t, swept, start)
    && (forall c | c in swept :: if c in clients then clients[c] != [] else c !in addresses)
  }

  lemma SweepBegins(t: Table, addresses: map<ClientId, Address>, clients: ClientIndex, start: real, now: real)
    ensures SweptSoFar(t, t, addresses, addresses, clients, {}, start, now)
  {}

  lemma SweepGoesOn(t0: Table, t: Table, t': Table, addresses0: map<ClientId, Address>,
                    addresses: map<ClientId, Address>, addresses': map<ClientId, Address>, clients: ClientIndex,
                    clients': ClientIndex, swept: set<ClientId>, c: ClientId, start: real, now: real, now': real,
                    later: real)
    requires SweptSoFar(t0, t, addresses0, addresses, clients, swept, start, now) && start <= now <= now' <= later
    requires Collects(t, t', now') && NoneExpired(t', {c}, now) && Forgets(addresses, addresses', t')
    requires if c in clients' then clients'[c] != [] else c !in addresses'
    requires clients'.Keys + {c} == clients.Keys && forall d | d in clients' && d != c :: clients'[d] == clients[d]
    ensures SweptSoFar(t0, t', addresses0, addresses', clients', swept + {c}, start, later)
  {
    SweptOneMore(t0, t, t', swept, c, start, now, now');
    CollectedByThen(t0, t', now', later);
    ForgetsIsTransitive(addresses0, addresses, addresses', t, t', now');
  }

  /** What is known where a sweep stops. */
  lemma SweepStops(clients: ClientIndex, owners: OwnerIndex, locks: LockIndex, infos: set<MemoryLockInfo>, t0: Table,
                   t: Table, addresses0: map<ClientId, Address>, addresses: map<ClientId, Address>,
                   swept: set<ClientId>, start: real, now: real)
    requires StandsFor(clients, owners, locks, infos, t)
    requires SweptSoFar(t0, t, addresses0, addresses, clients, swept, start, now)
    ensures Collects(t0, t, now) && Forgets(addresses0, addresses, t)
    ensures forall c | c in swept && c !in clients :: c !in addresses
    ensures clients.Keys <= swept ==> forall l | l in t :: !Expired(t[l], start)
    ensures clients.Keys <= swept ==> forall c | c in clients :: clients[c] != []
  {
    if clients.Keys <= swept {
      AllSwept(clients, owners, locks, infos, t, swept, start);
    }
  }

  /** A pickled lock object. */
  datatype Record = Record(time: real, markFreeAfter: Option<real>, signals: Option<set<Signal>>)

  /** A pickled heap. Pickling keeps sharing; here a reference is the id of the object it leads to. */
  datatype Snapshot = Snapshot(clientToLocks: map<ClientId, seq<LockId>>, locksToClient: OwnerIndex,
                               allLocks: map<LockId, Record>, clientLastAddress: map<ClientId, Address>)

  datatype DumpFile = Missing | Unreadable | Saved(snapshot: Snapshot)

  ghost predicate SavedAs(s: Snapshot, c: ClientId, l: LockId) {
    l in s.allLocks && l in s.locksToClient && s.locksToClient[l] == c
  }

  ghost predicate SavedOnList(s: Snapshot, l: LockId) {
    l in s.locksToClient && s.locksToClient[l] in s.clientToLocks && l in s.clientToLocks[s.locksToClient[l]]
  }

  /** A snapshot of coherent indexes. */
  ghost predicate CoherentSnapshot(s: Snapshot) {
    && s.locksToClient.Keys == s.allLocks.Keys
    && (forall l {:trigger SavedOnList(s, l)} | l in s.allLocks :: SavedOnList(s, l))
    && (forall c, l {:trigger SavedAs(s, c, l)} | c in s.clientToLocks && l in s.clientToLocks[c] :: SavedAs(s, c, l))
    && (forall c {:trigger NoDuplicates(s.clientToLocks[c])} | c in s.clientToLocks :: NoDuplicates(s.clientToLocks[c]))
  }

  ghost function SavedTable(s: Snapshot): Table {
    map l | l in s.allLocks && l in s.locksToClient ::
      var r := s.allLocks[l];
      Entry(s.locksToClient[l], r.time, r.markFreeAfter, if r.signals.Some? then r.signals.value else {})
  }

  /** Snapshots of coherent indexes are coherent. */
  lemma SnapshotIsCoherent(clients: ClientIndex, owners: OwnerIndex, locks: LockIndex, s: Snapshot)
    requires Coherent(clients, owners, locks)
    requires s.clientToLocks.Keys == clients.Keys && s.locksToClient == owners && s.allLocks.Keys == locks.Keys
    requires forall c | c in clients :: s.clientToLocks[c] == Ids(clients[c])
    ensures CoherentSnapshot(s)
  {
    forall l | l in s.allLocks ensures SavedOnList(s, l) {
      assert Listed(clients, owners, locks, l);
      var i :| 0 <= i < |clients[owners[l]]| && clients[owners[l]][i] == locks[l];
      assert Ids(clients[owners[l]])[i] == l;
    }
    forall c, l | c in s.clientToLocks && l in s.clientToLocks[c] ensures SavedAs(s, c, l) {
      var i :| 0 <= i < |clients[c]| && Ids(clients[c])[i] == l;
      assert Registered(owners, locks, c, clients[c][i]);
    }
    forall c | c in s.clientToLocks ensures NoDuplicates(s.clientToLocks[c]) {
      assert NoDuplicates(clients[c]);
      forall i | 0 <= i < |clients[c]| ensures Registered(owners, locks, c, clients[c][i]) {}
    }
  }

  function RecordOf(info: MemoryLockInfo): Record
    reads info
  {
    Record(info.time, info.markFreeAfter, info.signals)
  }

  lemma SnapshotSavesTable(owners: OwnerIndex, locks: LockIndex, table: Table, s: Snapshot)
    requires owners.Keys == locks.Keys == table.Keys && s.locksToClient == owners && s.allLocks.Keys == locks.Keys
    requires forall l {:trigger s.allLocks[l]} | l in locks :: s.allLocks[l] == RecordOf(locks[l])
    requires forall l {:trigger table[l]} | l in locks :: locks[l].Holding(owners[l]) == table[l]
    ensures SavedTable(s) == table
  {}

  /** The restored client lists: references resolved to the restored objects. */
  function Resolve(ids: seq<LockId>, locks: LockIndex): (infos: seq<MemoryLockInfo>)
    requires forall l | l in ids :: l in locks
    ensures |infos| == |ids| && forall i | 0 <= i < |ids| :: infos[i] == locks[ids[i]]
  {
    seq(|ids|, i requires 0 <= i < |ids| => locks[ids[i]])
  }

  /** Indexes rebuilt from a coherent snapshot are coherent. */
  lemma RestoredIsCoherent(s: Snapshot, clients: ClientIndex, locks: LockIndex)
    requires CoherentSnapshot(s) && locks.Keys == s.allLocks.Keys && clients.Keys == s.clientToLocks.Keys
    requires forall l | l in locks :: locks[l].id == l
    requires forall c, l | c in clients && l in s.clientToLocks[c] :: l in locks
    requires forall c | c in clients :: clients[c] == Resolve(s.clientToLocks[c], locks)
    ensures Coherent(clients, s.locksToClient, locks)
  {
    var owners := s.locksToClient;
    forall l | l in locks ensures Listed(clients, owners, locks, l) {
      assert SavedOnList(s, l);
      var c := owners[l];
      var i :| 0 <= i < |s.clientToLocks[c]| && s.clientToLocks[c][i] == l;
      assert clients[c][i] == locks[l];
    }
    forall c, info | c in clients && info in clients[c] ensures Registered(owners, locks, c, info) {
      var i :| 0 <= i < |clients[c]| && clients[c][i] == info;
      assert SavedAs(s, c, s.clientToLocks[c][i]);
    }
    forall c | c in clients ensures NoDuplicates(clients[c]) {
      assert NoDuplicates(s.clientToLocks[c]);
      forall i, j | 0 <= i < j < |clients[c]| ensures clients[c][i] != clients[c][j] {
        assert SavedAs(s, c, s.clientToLocks[c][i]) && SavedAs(s, c, s.clientToLocks[c][j]);
      }
    }
  }

  /** The object was revived from the record. */
  ghost predicate Revives(info: MemoryLockInfo, l: LockId, r: Record)
    reads info
  {
    info.id == l && info.time == r.time && info.markFreeAfter == r.markFreeAfter && info.signals == r.signals
  }

  /** ... and they stand for the saved table. */
  lemma RestoredStandsFor(s: Snapshot, clients: ClientIndex, locks: LockIndex)
    requires CoherentSnapshot(s) && locks.Keys == s.allLocks.Keys && clients.Keys == s.clientToLocks.Keys
    requires forall l {:trigger locks[l]} | l in locks :: Revives(locks[l], l, s.allLocks[l])
    requires forall c, l | c in clients && l in s.clientToLocks[c] :: l in locks
    requires forall c | c in clients :: clients[c] == Resolve(s.clientToLocks[c], locks)
    ensures StandsFor(clients, s.locksToClient, locks, locks.Values, SavedTable(s))
  {
    RestoredIsCoherent(s, clients, locks);
    hide Coherent;
    forall l | l in locks ensures Mirrors(SavedTable(s), s.locksToClient, locks, locks.Values, l) {
      assert Revives(locks[l], l, s.allLocks[l]);
    }
  }
}
