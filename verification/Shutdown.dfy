/** Termination by signal: a handler that may run between any two steps of the main thread,
    two counters and two flags that decide when the data is dumped and when the process exits. */
module Shutdown {
  import opened Wrappers
  import opened LockTable
  import opened LockIndexes
  import opened Commands

  /** The adaptor's counters and flags. */
  datatype Control = Control(killActive: bool, storageOperations: int, commands: int, dataDumped: bool, exited: bool)

  const Started := Control(false, 0, 0, false, false)

  /** Writing a dump and leaving the process, as effects of a control step, in this order. */
  datatype Effect = Effect(control: Control, dumps: nat)

  function Die(c: Control): Effect {
    Effect(c.(exited := true), if c.dataDumped then 0 else 1)
  }

  function OperationStart(c: Control): Control {
    c.(storageOperations := c.storageOperations + 1)
  }

  function OperationEnd(c: Control): Control {
    c.(storageOperations := c.storageOperations - 1)
  }

  /** The test that closes a storage operation. */
  function DumpIfLast(c: Control): Effect {
    if c.killActive && c.storageOperations == 0 then Effect(c.(dataDumped := true), 1) else Effect(c, 0)
  }

  function CommandStart(c: Control): Control {
    c.(commands := c.commands + 1)
  }

  function CommandEnd(c: Control): Control {
    c.(commands := c.commands - 1)
  }

  /** The test that closes a command. */
  function DieIfLast(c: Control): Effect {
    if c.killActive && c.commands == 0 then Die(c) else Effect(c, 0)
  }

  /** The signal handler. */
  function KillRequested(c: Control): Effect {
    var killed := c.(killActive := true);
    var first := if c.storageOperations == 0 then Effect(killed.(dataDumped := true), 1) else Effect(killed, 0);
    if c.commands == 0 then
      var last := Die(first.control);
      Effect(last.control, first.dumps + last.dumps)
    else
      first
  }

  // The store as a dump would save it.

  function SavedList(s: Snapshot, c: ClientId): seq<LockId> {
    if c in s.clientToLocks then s.clientToLocks[c] else []
  }

  function Listing(s: Snapshot, c: ClientId): set<LockId> {
    set l | l in SavedList(s, c)
  }

  /** `_delete_lock`, on all three indexes. */
  function Dropped(s: Snapshot, l: LockId): Snapshot
    requires l in s.locksToClient
  {
    var c := s.locksToClient[l];
    s.(clientToLocks := s.clientToLocks[c := RemoveFirst(SavedList(s, c), l)], locksToClient := s.locksToClient - {l},
       allLocks := s.allLocks - {l})
  }

  /** A client looked up in the default dictionary. */
  function LookedUp(s: Snapshot, c: ClientId): Snapshot {
    s.(clientToLocks := s.clientToLocks[c := SavedList(s, c)])
  }

  /** The lock objects in `ls` with a new deadline. */
  function Stamped(s: Snapshot, ls: set<LockId>, deadline: real): Snapshot {
    s.(allLocks := map l | l in s.allLocks ::
      if l in ls then s.allLocks[l].(markFreeAfter := Some(deadline)) else s.allLocks[l])
  }

  lemma DroppingKeepsCoherence(s: Snapshot, l: LockId)
    requires CoherentSnapshot(s) && l in s.allLocks
    ensures l in s.locksToClient && CoherentSnapshot(Dropped(s, l)) && SavedTable(Dropped(s, l)) == SavedTable(s) - {l}
  {
    var c, s' := s.locksToClient[l], Dropped(s, l);
    assert SavedOnList(s, l);
    assert NoDuplicates(s.clientToLocks[c]);
    RemoveFirstFromDistinct(s.clientToLocks[c], l);
    forall k | k in s'.allLocks ensures SavedOnList(s', k) {
      assert SavedOnList(s, k);
    }
    forall d, k | d in s'.clientToLocks && k in s'.clientToLocks[d] ensures SavedAs(s', d, k) {
      assert SavedAs(s, d, k);
    }
    forall d | d in s'.clientToLocks ensures NoDuplicates(s'.clientToLocks[d]) {
      assert d != c ==> NoDuplicates(s.clientToLocks[d]);
    }
  }

  lemma LookingUpKeepsCoherence(s: Snapshot, c: ClientId)
    requires CoherentSnapshot(s)
    ensures CoherentSnapshot(LookedUp(s, c)) && SavedTable(LookedUp(s, c)) == SavedTable(s)
    ensures SavedList(LookedUp(s, c), c) == SavedList(s, c)
  {
    var s' := LookedUp(s, c);
    forall k | k in s'.allLocks ensures SavedOnList(s', k) {
      assert SavedOnList(s, k);
    }
    forall d, k | d in s'.clientToLocks && k in s'.clientToLocks[d] ensures SavedAs(s', d, k) {
      assert SavedAs(s, d, k);
    }
    forall d | d in s'.clientToLocks ensures NoDuplicates(s'.clientToLocks[d]) {
      assert d in s.clientToLocks ==> NoDuplicates(s.clientToLocks[d]);
    }
  }

  /** Some or all of `c`'s locks have got the deadline. */
  ghost predicate MarksSome(t: Table, t': Table, c: ClientId, deadline: real) {
    && t'.Keys == t.Keys
    && (forall l | l in t :: t'[l] == t[l] || (t[l].owner == c && t'[l] == t[l].(deadline := Some(deadline))))
  }

  /** Marking objects in place touches no index. */
  lemma StampingKeepsCoherence(s: Snapshot, ls: set<LockId>, c: ClientId, deadline: real)
    requires CoherentSnapshot(s) && forall l | l in ls :: l in SavedList(s, c)
    ensures CoherentSnapshot(Stamped(s, ls, deadline))
    ensures MarksSome(SavedTable(s), SavedTable(Stamped(s, ls, deadline)), c, deadline)
    ensures (forall l | l in SavedList(s, c) :: l in ls) ==>
      SavedTable(Stamped(s, ls, deadline)) == SetDeadlines(SavedTable(s), c, Some(deadline))
  {
    var s' := Stamped(s, ls, deadline);
    forall k | k in s'.allLocks ensures SavedOnList(s', k) && (k in SavedList(s, c) <==> s.locksToClient[k] == c) {
      assert SavedOnList(s, k);
      if k in SavedList(s, c) { assert SavedAs(s, c, k); }
    }
    forall d, k | d in s'.clientToLocks && k in s'.clientToLocks[d] ensures SavedAs(s', d, k) {
      assert SavedAs(s, d, k);
    }
    forall d | d in s'.clientToLocks ensures NoDuplicates(s'.clientToLocks[d]) {
      assert NoDuplicates(s.clientToLocks[d]);
    }
  }

  // Guarded operations, and what clients have been told.

  datatype Operation =
    | Acquiring(c: ClientId, l: LockId, reentrant: bool)
    | Releasing(c: ClientId, l: LockId)
    | Unmarking(c: ClientId)
    | Addressing(c: ClientId, address: Address)
    | Signalling(l: LockId, s: Signal)
    | Unsignalling(l: LockId, s: Signal)

  function Perform(t: Table, op: Operation, at: real): Table {
    match op
    case Acquiring(c, l, _) => Acquire(t, c, l, at)
    case Releasing(c, l) => Release(t, c, l)
    case Unmarking(c) => SetDeadlines(t, c, None)
    case Addressing(_, _) => t
    case Signalling(l, s) => AddSignal(t, l, s).0
    case Unsignalling(l, s) => RemoveSignal(t, l, s).0
  }

  /** The operation leads from one coherent store to another. */
  ghost predicate Performs(s: Snapshot, op: Operation, at: real, s': Snapshot) {
    && CoherentSnapshot(s') && SavedTable(s') == Perform(SavedTable(s), op, at)
    && s'.clientLastAddress == (if op.Addressing? then s.clientLastAddress[op.c := op.address] else s.clientLastAddress)
  }

  /** A grant that was answered '1' and not released since, with the deadline the client's losses have given it. */
  datatype Promise = Promise(client: ClientId, deadline: Option<real>)
  type Promises = map<LockId, Promise>

  /** A new deadline, or none, for what `c` still holds; what has run out by now is void. */
  function Redated(promises: Promises, c: ClientId, deadline: Option<real>, now: real): Promises {
    map l | l in promises && !(promises[l].client == c && DeadlinePassed(promises[l].deadline, now)) ::
      if promises[l].client == c then Promise(c, deadline) else promises[l]
  }

  /** What clients may rely on once the operation on `t` has been answered. */
  function Promised(promises: Promises, t: Table, op: Operation, at: real, now: real): Promises {
    match op
    case Acquiring(c, l, reentrant) =>
      if Acquires(t, c, l, reentrant, at) then promises[l := Promise(c, Acquire(t, c, l, at)[l].deadline)] else promises
    case Releasing(c, l) => if Holds(t, c, l) then promises - {l} else promises
    case Unmarking(c) => Redated(promises, c, None, now)
    case _ => promises
  }

  /** A grant that is answered '1' is promised, and so is a re-entry; a release that is answered '1' ends the
      promise. */
  lemma AnswersPromise(promises: Promises, t: Table, c: ClientId, l: LockId, reentrant: bool, at: real, now: real)
    ensures
      var promises' := Promised(promises, t, Acquiring(c, l, reentrant), at, now);
      var held := l in t && !Expired(t[l], at);
      if !held then promises' == promises[l := Promise(c, None)]
      else if reentrant && t[l].owner == c then promises' == promises[l := Promise(c, t[l].deadline)]
      else promises' == promises
    ensures Promised(promises, t, Releasing(c, l), at, now) ==
      if l in t && t[l].owner == c then promises - {l} else promises
  {}

  /** Nothing else takes a promise away: a new deadline, or none, for one client's promises leaves all others as
      they are, and drops only what has run out. */
  lemma PromisesLast(promises: Promises, t: Table, op: Operation, c: ClientId, deadline: Option<real>, at: real,
                     now: real)
    requires !op.Acquiring? && !op.Releasing? && !op.Unmarking?
    ensures Promised(promises, t, op, at, now) == promises
    ensures Promised(promises, t, Unmarking(c), at, now) == Redated(promises, c, None, now)
    ensures forall l :: l in Redated(promises, c, deadline, now) <==>
      l in promises && !(promises[l].client == c && DeadlinePassed(promises[l].deadline, now))
    ensures forall l | l in Redated(promises, c, deadline, now) ::
      Redated(promises, c, deadline, now)[l] == if promises[l].client == c then Promise(c, deadline) else promises[l]
  {}

  ghost predicate Keeps(t: Table, promises: Promises, now: real) {
    forall l | l in promises && !DeadlinePassed(promises[l].deadline, now) ::
      Holds(t, promises[l].client, l) && t[l].deadline == promises[l].deadline
  }

  /** The same while `c`'s locks are being marked. */
  ghost predicate KeepsMarking(t: Table, promises: Promises, now: real, c: ClientId, deadline: real) {
    forall l | l in promises && !DeadlinePassed(promises[l].deadline, now) ::
      && Holds(t, promises[l].client, l)
      && (t[l].deadline == promises[l].deadline || (promises[l].client == c && t[l].deadline == Some(deadline)))
  }

  lemma PerformingKeeps(t: Table, promises: Promises, op: Operation, at: real, now: real)
    requires Keeps(t, promises, now) && at <= now
    ensures Keeps(Perform(t, op, at), Promised(promises, t, op, at, now), now)
  {}

  lemma MarkingKeeps(t: Table, t': Table, promises: Promises, now: real, c: ClientId, deadline: real)
    requires KeepsMarking(t, promises, now, c, deadline)
    ensures MarksSome(t, t', c, deadline) ==> KeepsMarking(t', promises, now, c, deadline)
    ensures Keeps(SetDeadlines(t, c, Some(deadline)), Redated(promises, c, Some(deadline), now), now)
  {}

  lemma CollectingKeepsPromises(t: Table, t': Table, promises: Promises, now: real)
    requires Keeps(t, promises, now) && Collects(t, t', now)
    ensures Keeps(t', promises, now)
  {}

  // The process.

  datatype Action = Write(op: Operation) | CollectOne(l: LockId)

  /** Where the main thread is. Commands do not overlap: none yields between its two counter updates. */
  datatype Place =
    | Idle
    | Working(actions: seq<Action>)                    // inside a command
    | Entering(op: Operation, actions: seq<Action>)    // past the guard's test, not yet counted
    | Writing(op: Operation, before: Snapshot, since: real, actions: seq<Action>)   // counted; the indexes may disagree
    | Leaving(actions: seq<Action>)                    // no longer counted, before the guard's closing test
    | Ending                                           // command no longer counted, before its closing test
    | LossEntering(c: ClientId)                        // a lost connection's `release_all`, outside any command
    | LossCounted(c: ClientId)                         // counted, the clock not yet read
    | LossMarking(c: ClientId, deadline: real)
    | LossLeaving

  datatype ServerProcess = ServerProcess(control: Control, place: Place, store: Snapshot, promises: Promises,
    dumps: seq<Snapshot>, now: real)

  function Apply(p: ServerProcess, e: Effect): ServerProcess {
    p.(control := e.control, dumps := p.dumps + seq(e.dumps, _ => p.store))
  }

  /** `locked` finds the lock expired and deletes it. */
  function Collected(s: Snapshot, l: LockId, now: real): Snapshot {
    if l in s.allLocks && l in s.locksToClient && DeadlinePassed(s.allLocks[l].markFreeAfter, now) then Dropped(s, l)
      else s
  }

  /** A sweep between commands drops some expired locks, and the addresses of some clients that hold nothing. */
  ghost predicate Sweeps(p: ServerProcess, p': ServerProcess) {
    && CoherentSnapshot(p'.store) && Collects(SavedTable(p.store), SavedTable(p'.store), p.now)
    && Forgets(p.store.clientLastAddress, p'.store.clientLastAddress, SavedTable(p'.store))
    && p' == p.(store := p'.store)
  }

  /** One step of the main thread. */
  ghost predicate Advances(p: ServerProcess, p': ServerProcess) {
    match p.place
    case Idle =>
      || (exists actions :: p' == p.(control := CommandStart(p.control), place := Working(actions)))
      || (exists c :: p' == p.(place := LossEntering(c)))
      || Sweeps(p, p')
    case Working(actions) =>
      if actions == [] then
        p' == p.(control := CommandEnd(p.control), place := Ending)
      else (
        match actions[0]
        case Write(op) =>
          // the guard refuses once a signal has arrived, and the command fails
          p' == p.(place := if p.control.killActive then Working([]) else Entering(op, actions[1..]))
        case CollectOne(l) =>
          p' == p.(store := Collected(p.store, l, p.now), place := Working(actions[1..])))
    case Entering(op, actions) =>
      p' == p.(control := OperationStart(p.control), place := Writing(op, p.store, p.now, actions))
    case Writing(op, before, since, actions) =>
      || p' == p.(store := p'.store)
      || (exists at :: Finishes(p, p', at))
    case Leaving(actions) =>
      p' == Apply(p, DumpIfLast(p.control)).(place := Working(actions))
    case Ending =>
      p' == Apply(p, DieIfLast(p.control)).(place := Idle)
    case LossEntering(c) =>
      p' == if p.control.killActive then p.(place := Idle)
            else p.(control := OperationStart(p.control), place := LossCounted(c))
    case LossCounted(c) =>
      p' == p.(place := LossMarking(c, p.now + RELEASE_ALL_TIMEOUT))
    case LossMarking(c, deadline) =>
      || p' == p.(store := LookedUp(p.store, c))
      || (exists l :: l in SavedList(p.store, c) && p' == p.(store := Stamped(p.store, {l}, deadline)))
      || p' == p.(control := OperationEnd(p.control),
           store := Stamped(LookedUp(p.store, c), Listing(p.store, c), deadline),
                  promises := Redated(p.promises, c, Some(deadline), p.now), place := LossLeaving)
    case LossLeaving =>
      p' == Apply(p, DumpIfLast(p.control)).(place := Idle)
  }

  /** The write is done: it took effect at time `at`, and its answer counts. */
  ghost predicate Finishes(p: ServerProcess, p': ServerProcess, at: real)
    requires p.place.Writing?
  {
    && p.place.since <= at <= p.now
    && Performs(p.place.before, p.place.op, at, p'.store)
    && p' == p.(control := OperationEnd(p.control), store := p'.store,
                promises := Promised(p.promises, SavedTable(p.place.before), p.place.op, at, p.now),
                  place := Leaving(p.place.actions))
  }

  /** A process that has not exited advances, lets time pass or receives a signal. */
  ghost predicate Next(p: ServerProcess, p': ServerProcess) {
    && !p.control.exited
    && (Advances(p, p') || (p.now <= p'.now && p' == p.(now := p'.now)) || p' == Apply(p, KillRequested(p.control)))
  }

  ghost predicate IsRun(run: seq<ServerProcess>) {
    && run != []
    && run[0] == ServerProcess(Started, Idle, run[0].store, run[0].promises, [], run[0].now)
    && CoherentSnapshot(run[0].store) && Keeps(SavedTable(run[0].store), run[0].promises, run[0].now)
    && (forall i | 0 <= i < |run| - 1 :: Next(run[i], run[i + 1]))
  }

  /** The last dump is of coherent indexes, and the store differs from it only by expired locks it has dropped since. */
  ghost predicate LastDumpPreserves(p: ServerProcess) {
    && p.dumps != []
    && var dump := p.dumps[|p.dumps| - 1];
      && CoherentSnapshot(dump) && Collects(SavedTable(dump), SavedTable(p.store), p.now)
      && dump.clientLastAddress == p.store.clientLastAddress
  }

  predicate InCommand(place: Place) {
    place.Working? || place.Entering? || place.Writing? || place.Leaving?
  }

  /** The store is coherent and keeps what was promised; in the middle of a write, the store from before it does. */
  ghost predicate StoreIsSound(p: ServerProcess) {
    match p.place
    case Writing(_, before, _, _) => CoherentSnapshot(before) && Keeps(SavedTable(before), p.promises, p.now)
    case LossMarking(c, deadline) => CoherentSnapshot(p.store) &&
      KeepsMarking(SavedTable(p.store), p.promises, p.now, c, deadline)
    case _ => CoherentSnapshot(p.store) && Keeps(SavedTable(p.store), p.promises, p.now)
  }

  ghost predicate CountersAreRight(p: ServerProcess) {
    && p.control.commands == (if InCommand(p.place) then 1 else 0)
    && p.control.storageOperations ==
         (if p.place.Writing? || p.place.LossCounted? || p.place.LossMarking? then 1 else 0)
    && (p.control.dataDumped || p.control.exited || p.dumps != [] ==> p.control.killActive)
    && (p.control.killActive && !p.control.exited ==> InCommand(p.place) || p.place.Ending?)
    && (p.control.exited ==> !p.place.Writing?)
  }

  ghost predicate DumpsAreSound(p: ServerProcess) {
    && (forall d | d in p.dumps :: CoherentSnapshot(d))
    && (p.control.killActive && (p.place.Working? || p.place.Ending?) ==> p.control.dataDumped && LastDumpPreserves(p))
    && (p.control.exited ==> LastDumpPreserves(p))
  }

  ghost predicate Inv(p: ServerProcess) {
    StoreIsSound(p) && CountersAreRight(p) && DumpsAreSound(p)
  }

  lemma SavedCollects(s: Snapshot, l: LockId, now: real)
    requires CoherentSnapshot(s)
    ensures CoherentSnapshot(Collected(s, l, now)) && Collects(SavedTable(s), SavedTable(Collected(s, l, now)), now)
    ensures SavedTable(Collected(s, l, now)) == CollectIfExpired(SavedTable(s), l, now)
    ensures Collected(s, l, now).clientLastAddress == s.clientLastAddress
  {
    if l in s.allLocks {
      DroppingKeepsCoherence(s, l);
    }
  }

  lemma AdvancingKeepsStore(p: ServerProcess, p': ServerProcess)
    requires Inv(p) && !p.control.exited && Advances(p, p')
    ensures StoreIsSound(p')
  {
    hide CoherentSnapshot, SavedTable, Keeps, KeepsMarking, Collected, Stamped, LookedUp, Promised, Redated, Perform;
    match p.place
    case Idle =>
      if Sweeps(p, p') {
        CollectingKeepsPromises(SavedTable(p.store), SavedTable(p'.store), p.promises, p.now);
      }
    case Working(actions) =>
      if actions != [] && actions[0].CollectOne? {
        SavedCollects(p.store, actions[0].l, p.now);
        CollectingKeepsPromises(SavedTable(p.store), SavedTable(p'.store), p.promises, p.now);
      }
    case Writing(op, before, since, _) =>
      if at :| Finishes(p, p', at) {
        PerformingKeeps(SavedTable(before), p.promises, op, at, p.now);
      }
    case LossCounted(c) =>
      BeforeMarking(SavedTable(p.store), p.promises, p.now, c, p.now + RELEASE_ALL_TIMEOUT);
    case LossMarking(c, deadline) =>
      LossMarkingKeepsStore(p, p', c, deadline);
    case _ =>
  }

  lemma BeforeMarking(t: Table, promises: Promises, now: real, c: ClientId, deadline: real)
    requires Keeps(t, promises, now)
    ensures KeepsMarking(t, promises, now, c, deadline)
  {}

  lemma LossMarkingKeepsStore(p: ServerProcess, p': ServerProcess, c: ClientId, deadline: real)
    requires StoreIsSound(p) && p.place == LossMarking(c, deadline) && Advances(p, p')
    ensures StoreIsSound(p')
  {
    hide CoherentSnapshot, SavedTable, Keeps, KeepsMarking, Stamped, LookedUp, Redated;
    var t, s := SavedTable(p.store), LookedUp(p.store, c);
    LookingUpKeepsCoherence(p.store, c);
    if l :| l in SavedList(p.store, c) && p' == p.(store := Stamped(p.store, {l}, deadline)) {
      StampingKeepsCoherence(p.store, {l}, c, deadline);
      MarkingKeeps(t, SavedTable(p'.store), p.promises, p.now, c, deadline);
    }
    StampingKeepsCoherence(s, Listing(p.store, c), c, deadline);
    MarkingKeeps(t, t, p.promises, p.now, c, deadline);
  }

  lemma AdvancingKeepsCounters(p: ServerProcess, p': ServerProcess)
    requires Inv(p) && !p.control.exited && Advances(p, p')
    ensures CountersAreRight(p')
  {
    hide StoreIsSound, Performs, Collected, Stamped, LookedUp, Redated, Promised, CoherentSnapshot, Collects;
  }

  lemma AdvancingKeepsDumps(p: ServerProcess, p': ServerProcess)
    requires Inv(p) && !p.control.exited && Advances(p, p')
    ensures DumpsAreSound(p')
  {
    hide CoherentSnapshot, SavedTable, Keeps, KeepsMarking, Collected, Stamped, LookedUp, Promised, Redated, Perform,
      Collects;
    NothingCollected(SavedTable(p'.store), map[], p'.now);
    if p.place.Working? && p.place.actions != [] && p.place.actions[0].CollectOne? && p.control.killActive {
      SavedCollects(p.store, p.place.actions[0].l, p.now);
      CollectsIsTransitive(SavedTable(p.dumps[|p.dumps| - 1]), SavedTable(p.store), SavedTable(p'.store), p.now, p.now);
    }
  }

  lemma WaitingKeepsInv(p: ServerProcess, p': ServerProcess)
    requires Inv(p) && !p.control.exited && p.now <= p'.now && p' == p.(now := p'.now)
    ensures Inv(p')
  {
    hide CoherentSnapshot, SavedTable;
    if p.dumps != [] && Collects(SavedTable(p.dumps[|p.dumps| - 1]), SavedTable(p.store), p.now) {
      CollectedByThen(SavedTable(p.dumps[|p.dumps| - 1]), SavedTable(p.store), p.now, p'.now);
    }
    hide Collects;
  }

  lemma SignalKeepsInv(p: ServerProcess, p': ServerProcess)
    requires Inv(p) && !p.control.exited && p' == Apply(p, KillRequested(p.control))
    ensures Inv(p')
  {
    hide CoherentSnapshot, SavedTable, Keeps, KeepsMarking, Collects;
    NothingCollected(SavedTable(p'.store), map[], p'.now);
  }

  lemma NextKeepsInv(p: ServerProcess, p': ServerProcess)
    requires Inv(p) && Next(p, p')
    ensures Inv(p')
  {
    if Advances(p, p') {
      AdvancingKeepsStore(p, p');
      AdvancingKeepsCounters(p, p');
      AdvancingKeepsDumps(p, p');
    } else if p' == p.(now := p'.now) {
      WaitingKeepsInv(p, p');
    } else {
      SignalKeepsInv(p, p');
    }
  }

  lemma {:induction false} RunsKeepInv(run: seq<ServerProcess>, i: nat)
    requires IsRun(run) && i < |run|
    ensures Inv(run[i])
  {
    if i > 0 {
      RunsKeepInv(run, i - 1);
      NextKeepsInv(run[i - 1], run[i]);
    }
  }

  /** Wherever signals land, every dump ever written is of coherent indexes. Once the process has exited, the last
      one holds every lock whose grant was answered '1', that was not released since and whose deadline, if a loss
      gave it one, has not passed; it holds all that the store holds, with the same owner, time, deadline and
      signals, and beyond that only locks that have expired; and it has the store's addresses. Before a
      signal nothing is dumped and the process does not exit. */
  lemma FinalDumpIsCoherentAndComplete(run: seq<ServerProcess>, i: nat)
    requires IsRun(run) && i < |run|
    ensures forall d | d in run[i].dumps :: CoherentSnapshot(d)
    ensures run[i].control.exited ==> run[i].dumps != []
    ensures run[i].control.exited ==>
      var dump, store := run[i].dumps[|run[i].dumps| - 1], run[i].store;
      && (forall l | l in run[i].promises && !DeadlinePassed(run[i].promises[l].deadline, run[i].now) ::
            Holds(SavedTable(dump), run[i].promises[l].client, l))
      && (forall l | l in SavedTable(store) :: l in SavedTable(dump) && SavedTable(dump)[l] == SavedTable(store)[l])
      && (forall l | l in SavedTable(dump) && l !in SavedTable(store) :: Expired(SavedTable(dump)[l], run[i].now))
      && dump.clientLastAddress == store.clientLastAddress
    ensures run[i].control.killActive && !run[i].control.exited ==> InCommand(run[i].place) || run[i].place.Ending?
    ensures !run[i].control.killActive ==> run[i].dumps == [] && !run[i].control.exited
  {
    RunsKeepInv(run, i);
    hide CoherentSnapshot, SavedTable;
    if run[i].control.exited {
      CollectingKeeps(SavedTable(run[i].dumps[|run[i].dumps| - 1]), SavedTable(run[i].store), run[i].now);
    }
  }

  /** How far the interrupted command is from its end. */
  function Distance(place: Place): nat {
    match place
    case Working(actions) => 4 * |actions| + 2
    case Entering(_, actions) => 4 * |actions| + 5
    case Writing(_, _, _, actions) => 4 * |actions| + 4
    case Leaving(actions) => 4 * |actions| + 3
    case Ending => 1
    case _ => 0
  }

  /** After a signal every step brings the main thread closer to the exit, which it then takes, but for the small
      steps inside a write that was already under way. */
  lemma KilledProcessExits(p: ServerProcess, p': ServerProcess)
    requires Inv(p) && p.control.killActive && !p.control.exited && Advances(p, p')
    ensures Distance(p'.place) < Distance(p.place) || (p.place.Writing? && p' == p.(store := p'.store))
    ensures p'.control.exited <==> p.place.Ending?
  {
    hide StoreIsSound, DumpsAreSound, Performs, Collected, Stamped, LookedUp, Redated, Promised;
  }

  /** The exit waits for the interrupted command, so that its reply is sent: the handler itself exits only outside
      commands. */
  lemma HandlerExitsOnlyBetweenCommands(p: ServerProcess)
    requires Inv(p) && !p.control.exited
    ensures Apply(p, KillRequested(p.control)).control.exited <==> !InCommand(p.place)
  {
    hide StoreIsSound, DumpsAreSound;
  }
}
