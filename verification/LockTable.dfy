/** The store as one map from locks to holdings: what the three cross-linked
    indexes of the in-memory storage stand for. */
module LockTable {
  import opened Wrappers

  /** Connections never carry an empty client id. */
  type ClientId = s: string | s != "" witness "client"
  type LockId = string
  type Signal = string
  datatype Address = Address(host: string, port: nat)

  datatype Entry = Entry(owner: ClientId, time: real, deadline: Option<real>, signals: set<Signal>)
  type Table = map<LockId, Entry>

  /** A zero deadline counts as no deadline, as the source's truth test does. */
  predicate DeadlinePassed(deadline: Option<real>, now: real) {
    deadline.Some? && deadline.value != 0.0 && deadline.value <= now
  }

  predicate Expired(e: Entry, now: real) {
    DeadlinePassed(e.deadline, now)
  }

  /** Whether `l` can be granted afresh: nobody holds it, or its holding has expired. */
  predicate Free(t: Table, l: LockId, now: real) {
    l in t ==> Expired(t[l], now)
  }

  predicate Reenters(t: Table, c: ClientId, l: LockId, reentrant: bool, now: real) {
    reentrant && !Free(t, l, now) && t[l].owner == c
  }

  predicate Acquires(t: Table, c: ClientId, l: LockId, reentrant: bool, now: real) {
    Free(t, l, now) || Reenters(t, c, l, reentrant, now)
  }

  function Acquire(t: Table, c: ClientId, l: LockId, now: real): Table {
    if Free(t, l, now) then t[l := Entry(c, now, None, {})] else t
  }

  predicate Holds(t: Table, c: ClientId, l: LockId) {
    l in t && t[l].owner == c
  }

  function Release(t: Table, c: ClientId, l: LockId): Table {
    if Holds(t, c, l) then t - {l} else t
  }

  /** Gives every holding of `c` the same deadline, or none. */
  function SetDeadlines(t: Table, c: ClientId, deadline: Option<real>): Table {
    map l | l in t :: if t[l].owner == c then t[l].(deadline := deadline) else t[l]
  }

  function CollectIfExpired(t: Table, l: LockId, now: real): Table {
    if l in t && Expired(t[l], now) then t - {l} else t
  }

  predicate Locked(t: Table, l: LockId, now: real) {
    l in t && !Expired(t[l], now)
  }

  function SetSignals(t: Table, l: LockId, signals: set<Signal>): Table
    requires l in t
  {
    t[l := t[l].(signals := signals)]
  }

  datatype Answer = Yes | No | KeyNotExists

  function AddSignal(t: Table, l: LockId, s: Signal): (Table, Answer) {
    if l in t then (SetSignals(t, l, t[l].signals + {s}), Yes) else (t, KeyNotExists)
  }

  function HasSignal(t: Table, l: LockId, s: Signal): Answer {
    if l !in t then KeyNotExists else if s in t[l].signals then Yes else No
  }

  function RemoveSignal(t: Table, l: LockId, s: Signal): (Table, Answer) {
    match HasSignal(t, l, s)
    case Yes => (SetSignals(t, l, t[l].signals - {s}), Yes)
    case answer => (t, answer)
  }

  /** Collects some expired holdings and leaves all others alone. */
  ghost predicate Collects(t: Table, t': Table, now: real) {
    && t'.Keys <= t.Keys
    && (forall l | l in t :: if l in t' then t'[l] == t[l] else Expired(t[l], now))
  }

  /** Forgets the addresses of some clients that hold nothing. */
  ghost predicate Forgets(addresses: map<ClientId, Address>, addresses': map<ClientId, Address>, t': Table) {
    && addresses'.Keys <= addresses.Keys
    && (forall c | c in addresses' :: addresses'[c] == addresses[c])
    && (forall c, l | c in addresses && c !in addresses' && l in t' :: t'[l].owner != c)
  }

  /** No holding of these clients had expired at `now`. */
  ghost predicate NoneExpired(t: Table, cs: set<ClientId>, now: real) {
    forall l | l in t && t[l].owner in cs :: !Expired(t[l], now)
  }

  lemma NothingCollected(t: Table, addresses: map<ClientId, Address>, now: real)
    ensures Collects(t, t, now) && Forgets(addresses, addresses, t) && NoneExpired(t, {}, now)
  {}

  lemma CollectedByThen(t: Table, t': Table, now: real, later: real)
    requires Collects(t, t', now) && now <= later
    ensures Collects(t, t', later)
  {}

  lemma CollectingKeeps(t: Table, t': Table, now: real)
    requires Collects(t, t', now)
    ensures forall l | l in t' :: l in t && t'[l] == t[l]
  {}

  lemma CollectsIsTransitive(t0: Table, t1: Table, t2: Table, now1: real, now2: real)
    requires Collects(t0, t1, now1) && Collects(t1, t2, now2) && now1 <= now2
    ensures Collects(t0, t2, now2)
  {
    forall l | l in t0 && l !in t2 ensures Expired(t0[l], now2) {
      assert l in t1 ==> t1[l] == t0[l];
    }
  }

  lemma ForgetsIsTransitive(addresses: map<ClientId, Address>, addresses1: map<ClientId, Address>,
                            addresses2: map<ClientId, Address>, t: Table, t': Table, now: real)
    requires Forgets(addresses, addresses1, t) && Forgets(addresses1, addresses2, t') && Collects(t, t', now)
    ensures Forgets(addresses, addresses2, t')
  {
    CollectingKeeps(t, t', now);
  }

  /** Sweeping one more client `c` extends what a sweep that began at `start` has done. */
  lemma SweptOneMore(t0: Table, t: Table, t': Table, swept: set<ClientId>, c: ClientId, start: real, now: real,
                     now': real)
    requires Collects(t0, t, now) && Collects(t, t', now') && start <= now <= now'
    requires NoneExpired(t, swept, start) && NoneExpired(t', {c}, now)
    ensures Collects(t0, t', now') && NoneExpired(t', swept + {c}, start)
  {
    CollectsIsTransitive(t0, t, t', now, now');
    CollectingKeeps(t, t', now');
  }

  /** The entry a load makes of a saved one: same holding, new deadline. */
  ghost predicate Remarked(saved: Entry, e: Entry, earliest: real, latest: real) {
    && e.deadline.Some? && earliest <= e.deadline.value <= latest
    && e == saved.(deadline := e.deadline)
  }

  /** A load between `start` and `now` drops some expired holdings and marks all others. */
  ghost predicate Loads(saved: Table, t: Table, start: real, now: real, timeout: real) {
    && t.Keys <= saved.Keys
    && (forall l | l in saved ::
         if l in t then Remarked(saved[l], t[l], start + timeout, now + timeout) else Expired(saved[l], now))
  }

  /** A load has marked the holdings of all clients but `todo`. */
  ghost predicate Remarking(t0: Table, t: Table, todo: set<ClientId>, start: real, now: real, timeout: real) {
    && t.Keys == t0.Keys && start <= now
    && (forall l | l in t ::
         if t0[l].owner in todo then t[l] == t0[l] else Remarked(t0[l], t[l], start + timeout, now + timeout))
  }

  lemma RemarkedOneMore(t0: Table, t: Table, todo: set<ClientId>, c: ClientId, start: real, now: real, now': real,
                        timeout: real)
    requires Remarking(t0, t, todo, start, now, timeout) && now <= now'
    ensures Remarking(t0, SetDeadlines(t, c, Some(now' + timeout)), todo - {c}, start, now', timeout)
  {
    forall l | l in t ensures t[l].owner == t0[l].owner {}
  }

  lemma CollectedThenMarked(saved: Table, t: Table, t': Table, addresses: map<ClientId, Address>,
                            addresses': map<ClientId, Address>, start: real, between: real, now: real, timeout: real)
    requires Collects(saved, t, between) && Forgets(addresses, addresses', t) && start <= between <= now
    requires t'.Keys == t.Keys
    requires forall l | l in t' :: Remarked(t[l], t'[l], between + timeout, now + timeout)
    ensures Loads(saved, t', start, now, timeout) && Forgets(addresses, addresses', t')
  {
    forall l | l in t' ensures t'[l].owner == t[l].owner {}
  }
}
