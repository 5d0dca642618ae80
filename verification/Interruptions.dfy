/** A signal in the middle of a command, and the next process that loads what was dumped: together they are steps
    of a run. */
module Interruptions {
  import opened Wrappers
  import opened LockTable
  import opened LockIndexes
  import opened Commands
  import opened Shutdown
  import Runs

  type World = Runs.World
  type ConnId = Runs.ConnId

  ghost function CoreOf(s: Snapshot): Core {
    Core(SavedTable(s), s.clientLastAddress)
  }

  /** What the command does to the store, write by write. */
  function ActionsOf(cmd: Command, client: Option<ClientId>, peer: Address): seq<Action> {
    match cmd
    case ConnAs(id) => [Write(Unmarking(id)), Write(Addressing(id, peer))]
    case ConnNew(id) => [Write(Addressing(id, peer))]
    case _ => if client.Some? && !IsConn(cmd) then ActionsFor(cmd, client.value) else []
  }

  function ActionsFor(cmd: Command, c: ClientId): seq<Action> {
    match cmd
    case Aq(l, reentrant) => [Write(Acquiring(c, l, reentrant))]
    case ReleaseLock(l) => [Write(Releasing(c, l))]
    case IsLocked(l) => [CollectOne(l)]
    case SigSet(l, s) => [Write(Signalling(l, s))]
    case SigDel(l, s) => [Write(Unsignalling(l, s))]
    case _ => []
  }

  function Done(core: Core, action: Action, at: real): Core {
    match action
    case Write(op) => Written(core, op, at)
    case CollectOne(l) => core.(table := CollectIfExpired(core.table, l, at))
  }

  function PerformAll(core: Core, actions: seq<Action>, at: real): Core
    decreases |actions|
  {
    if actions == [] then core else PerformAll(Done(core, actions[0], at), actions[1..], at)
  }

  /** Uninterrupted, the writes of a command have the effect the command has in a run. */
  lemma ActionsServe(core: Core, cmd: Command, client: Option<ClientId>, peer: Address, at: real)
    ensures PerformAll(core, ActionsOf(cmd, client, peer), at) == Serve(core, client, peer, cmd, at).core
  {
    var actions := ActionsOf(cmd, client, peer);
    if |actions| == 2 {
      PerformTwo(core, actions[0].op, actions[1].op, at);
      assert actions == [Write(actions[0].op), Write(actions[1].op)];
    } else if |actions| == 1 {
      PerformOne(core, actions[0], at);
      assert actions == [actions[0]];
    }
  }

  lemma PerformOne(core: Core, action: Action, at: real)
    ensures PerformAll(core, [action], at) == Done(core, action, at)
  {
    assert [action][1..] == [];
  }

  lemma PerformTwo(core: Core, op: Operation, op': Operation, at: real)
    ensures PerformAll(core, [Write(op), Write(op')], at) == Written(Written(core, op, at), op', at)
  {
    assert [Write(op), Write(op')][1..] == [Write(op')];
    PerformOne(Written(core, op, at), Write(op'), at);
  }

  /** The connection's command starts here, in a process whose store is the world's. */
  ghost predicate Starts(w: World, k: ConnId, cmd: Command, p: ServerProcess) {
    && k in w.links && w.links[k].open && w.now <= p.now
    && Inv(p) && !p.control.killActive && !p.control.exited
    && p.place == Working(ActionsOf(cmd, w.links[k].client, w.links[k].peer))
    && CoreOf(p.store) == w.core
  }

  ghost function Unmarked(core: Core, c: ClientId): Core {
    core.(table := SetDeadlines(core.table, c, None))
  }

  /** The command has happened or not, or it was a CONN that had cleared the deadlines and not yet recorded the
      address. */
  ghost predicate Reached(w: World, k: ConnId, cmd: Command, core: Core, now: real) {
    || core == w.core
    || (cmd.ConnAs? && core == Unmarked(w.core, cmd.id))
    || (exists w': World :: w'.now <= now && w'.core == core && Runs.Step(w, Runs.Request(k, cmd), w'))
  }

  /** With these actions to come, the store is where the command has got to. */
  ghost predicate Underway(w: World, k: ConnId, cmd: Command, actions: seq<Action>, core: Core, now: real)
    requires k in w.links
  {
    && Reached(w, k, cmd, core, now)
    && (|| actions == []
        || (actions == ActionsOf(cmd, w.links[k].client, w.links[k].peer) && core == w.core)
        || (cmd.ConnAs? && actions == [Write(Addressing(cmd.id, w.links[k].peer))] && core == Unmarked(w.core, cmd.id)))
  }

  /** Every dump from number `n` on, and the store where it is not being written, are where the command has got to. */
  ghost predicate Follows(w: World, k: ConnId, cmd: Command, n: nat, p: ServerProcess)
    requires k in w.links
  {
    && w.now <= p.now
    && (forall i | n <= i < |p.dumps| :: Reached(w, k, cmd, CoreOf(p.dumps[i]), p.now))
    && n <= |p.dumps| && (p.control.dataDumped || p.control.exited ==> n < |p.dumps|)
    && match p.place
       case Working(actions) => Underway(w, k, cmd, actions, CoreOf(p.store), p.now)
       case Entering(op, rest) => Underway(w, k, cmd, [Write(op)] + rest, CoreOf(p.store), p.now)
       case Writing(op, before, since, rest) => w.now <= since &&
         Underway(w, k, cmd, [Write(op)] + rest, CoreOf(before), p.now)
       case Leaving(rest) => Underway(w, k, cmd, rest, CoreOf(p.store), p.now)
       case _ => Reached(w, k, cmd, CoreOf(p.store), p.now)
  }

  lemma ReachedLater(w: World, k: ConnId, cmd: Command, core: Core, now: real, later: real)
    requires Reached(w, k, cmd, core, now) && now <= later
    ensures Reached(w, k, cmd, core, later)
  {
    hide Runs.Step;
  }

  /** The core after a guarded write. */
  function Written(core: Core, op: Operation, at: real): Core {
    Core(Perform(core.table, op, at), if op.Addressing? then core.addresses[op.c := op.address] else core.addresses)
  }

  lemma WriteReaches(w: World, k: ConnId, cmd: Command, op: Operation, rest: seq<Action>, core: Core, at: real,
                     now: real)
    requires k in w.links && w.links[k].open && w.now <= at <= now
    requires Underway(w, k, cmd, [Write(op)] + rest, core, now)
    ensures Underway(w, k, cmd, rest, Written(core, op, at), now)
  {
    var link := w.links[k];
    var served := Serve(w.core, link.client, link.peer, cmd, at);
    var w' := Runs.World(served.core, w.links[k := link.(client := served.client)],
                         if Runs.IsNaming(cmd) then w.latest[cmd.id := k] else w.latest, at);
    assert Runs.Step(w, Runs.Request(k, cmd), w');
    assert ([Write(op)] + rest)[0] == Write(op) && ([Write(op)] + rest)[1..] == rest;
    if cmd.ConnAs? && core == w.core && op == Unmarking(cmd.id) {
      assert Written(core, op, at) == Unmarked(w.core, cmd.id);
    }
  }

  lemma CollectionReaches(w: World, k: ConnId, cmd: Command, l: LockId, rest: seq<Action>, core: Core, now: real)
    requires k in w.links && w.links[k].open && w.now <= now
    requires Underway(w, k, cmd, [CollectOne(l)] + rest, core, now)
    ensures Underway(w, k, cmd, rest, core.(table := CollectIfExpired(core.table, l, now)), now)
  {
    var link := w.links[k];
    var served := Serve(w.core, link.client, link.peer, cmd, now);
    var w' := Runs.World(served.core, w.links[k := link.(client := served.client)], w.latest, now);
    assert ([CollectOne(l)] + rest)[0] == CollectOne(l) && ([CollectOne(l)] + rest)[1..] == rest;
    assert Runs.Step(w, Runs.Request(k, cmd), w');
  }

  lemma WorkingFollows(w: World, k: ConnId, cmd: Command, n: nat, p: ServerProcess, p': ServerProcess,
                       actions: seq<Action>)
    requires k in w.links && w.links[k].open && Inv(p) && !p.control.exited && Follows(w, k, cmd, n, p)
    requires Advances(p, p') && p.place == Working(actions) && actions != []
    ensures Follows(w, k, cmd, n, p')
  {
    hide Reached, CoherentSnapshot, SavedTable, ActionsOf, Unmarked, Inv, Collected;
    assert actions == [actions[0]] + actions[1..];
    if actions[0].CollectOne? {
      assert CoherentSnapshot(p.store) by { WorkingIsCoherent(p); }
      SavedCollects(p.store, actions[0].l, p.now);
      CollectionReaches(w, k, cmd, actions[0].l, actions[1..], CoreOf(p.store), p.now);
    }
  }

  lemma WorkingIsCoherent(p: ServerProcess)
    requires Inv(p) && p.place.Working?
    ensures CoherentSnapshot(p.store)
  {}

  lemma WritingFollows(w: World, k: ConnId, cmd: Command, n: nat, p: ServerProcess, p': ServerProcess)
    requires k in w.links && w.links[k].open && !p.control.exited && Follows(w, k, cmd, n, p)
    requires Advances(p, p') && p.place.Writing?
    ensures Follows(w, k, cmd, n, p')
  {
    hide Reached, CoherentSnapshot, SavedTable, Perform, ActionsOf, Unmarked, Underway;
    if at :| Finishes(p, p', at) {
      WriteReaches(w, k, cmd, p.place.op, p.place.actions, CoreOf(p.place.before), at, p.now);
    }
  }

  /** The steps that leave the store alone, and may dump it. */
  lemma ControlFollows(w: World, k: ConnId, cmd: Command, n: nat, p: ServerProcess, p': ServerProcess)
    requires k in w.links && CountersAreRight(p) && !p.control.exited && Follows(w, k, cmd, n, p)
    requires Advances(p, p') && (p.place.Entering? || p.place.Leaving? || p.place.Ending? || p.place == Working([]))
    ensures Follows(w, k, cmd, n, p')
  {
    hide Reached, SavedTable, ActionsOf, Unmarked;
  }

  lemma WaitingFollows(w: World, k: ConnId, cmd: Command, n: nat, p: ServerProcess, p': ServerProcess)
    requires k in w.links && Follows(w, k, cmd, n, p) && p.now <= p'.now && p' == p.(now := p'.now)
    ensures Follows(w, k, cmd, n, p')
  {
    forall core | Reached(w, k, cmd, core, p.now) ensures Reached(w, k, cmd, core, p'.now) {
      ReachedLater(w, k, cmd, core, p.now, p'.now);
    }
    hide Reached, SavedTable, ActionsOf, Unmarked;
  }

  lemma SignalFollows(w: World, k: ConnId, cmd: Command, n: nat, p: ServerProcess)
    requires k in w.links && CountersAreRight(p) && !p.control.exited && Follows(w, k, cmd, n, p)
    requires InCommand(p.place) || p.place.Ending?
    ensures Follows(w, k, cmd, n, Apply(p, KillRequested(p.control)))
  {
    hide Reached, SavedTable, ActionsOf, Unmarked;
  }

  lemma NextFollows(w: World, k: ConnId, cmd: Command, n: nat, p: ServerProcess, p': ServerProcess)
    requires k in w.links && w.links[k].open && Inv(p) && Follows(w, k, cmd, n, p) && Next(p, p')
    requires InCommand(p.place) || p.place.Ending?
    ensures Follows(w, k, cmd, n, p')
  {
    hide Follows, Advances;
    if Advances(p, p') {
      if p.place.Working? && p.place.actions != [] {
        WorkingFollows(w, k, cmd, n, p, p', p.place.actions);
      } else if p.place.Writing? {
        WritingFollows(w, k, cmd, n, p, p');
      } else {
        ControlFollows(w, k, cmd, n, p, p');
      }
    } else if p' == p.(now := p'.now) {
      WaitingFollows(w, k, cmd, n, p, p');
    } else {
      SignalFollows(w, k, cmd, n, p);
    }
  }

  /** The process from the command's start on, for as long as it has not left the command. */
  ghost predicate IsCommand(w: World, k: ConnId, cmd: Command, ps: seq<ServerProcess>) {
    && ps != [] && Starts(w, k, cmd, ps[0])
    && (forall i | 0 <= i < |ps| - 1 :: Next(ps[i], ps[i + 1]) && (InCommand(ps[i].place) || ps[i].place.Ending?))
  }

  lemma {:induction false} CommandFollows(w: World, k: ConnId, cmd: Command, ps: seq<ServerProcess>, i: nat)
    requires IsCommand(w, k, cmd, ps) && i < |ps|
    ensures Inv(ps[i]) && Follows(w, k, cmd, |ps[0].dumps|, ps[i])
  {
    if i > 0 {
      CommandFollows(w, k, cmd, ps, i - 1);
      NextKeepsInv(ps[i - 1], ps[i]);
      NextFollows(w, k, cmd, |ps[0].dumps|, ps[i - 1], ps[i]);
    }
  }

  /** A load gives every lock a deadline of its own, so that it does not matter whether some had been cleared. */
  lemma UnmarkedLoads(t: Table, c: ClientId, t': Table, start: real, now: real, timeout: real)
    requires Loads(SetDeadlines(t, c, None), t', start, now, timeout)
    ensures Loads(t, t', start, now, timeout)
  {
    var t0 := SetDeadlines(t, c, None);
    forall l | l in t && l !in t' ensures Expired(t[l], now) {
      assert l in t0 && Expired(t0[l], now);
    }
  }

  /** Wherever in a command a signal arrives, the process that loads the last dump goes on as after a run in which
      the command happened as a whole or not at all, and the restart came next. */
  lemma InterruptedCommandRestarts(w: World, k: ConnId, cmd: Command, ps: seq<ServerProcess>, core: Core,
                                   timeout: real, loadedAt: real, now: real)
    requires IsCommand(w, k, cmd, ps) && ps[|ps| - 1].control.exited && 0.0 < timeout &&
      ps[|ps| - 1].now <= loadedAt <= now
    requires ps[|ps| - 1].dumps != []
    requires var dump := ps[|ps| - 1].dumps[|ps[|ps| - 1].dumps| - 1];
      && Loads(SavedTable(dump), core.table, loadedAt, now, timeout)
      && Forgets(dump.clientLastAddress, core.addresses, core.table)
    ensures CoherentSnapshot(ps[|ps| - 1].dumps[|ps[|ps| - 1].dumps| - 1])
    ensures exists w': World ::
      && (w' == w || Runs.Step(w, Runs.Request(k, cmd), w'))
      && Runs.Step(w', Runs.Restart(timeout, loadedAt), Runs.Restarted(w', core, now))
  {
    var p := ps[|ps| - 1];
    var dump := p.dumps[|p.dumps| - 1];
    LastDumpIsReached(w, k, cmd, ps);
    hide IsCommand, Inv, Follows, CoherentSnapshot;
    ReachedRestarts(w, k, cmd, CoreOf(dump), p.now, core, timeout, loadedAt, now);
  }

  lemma LastDumpIsReached(w: World, k: ConnId, cmd: Command, ps: seq<ServerProcess>)
    requires IsCommand(w, k, cmd, ps) && ps[|ps| - 1].control.exited
    ensures
      var p := ps[|ps| - 1];
      && p.dumps != [] && CoherentSnapshot(p.dumps[|p.dumps| - 1]) && w.now <= p.now
      && Reached(w, k, cmd, CoreOf(p.dumps[|p.dumps| - 1]), p.now)
  {
    CommandFollows(w, k, cmd, ps, |ps| - 1);
    hide CoherentSnapshot, Reached, IsCommand, Underway;
  }

  lemma ReachedRestarts(w: World, k: ConnId, cmd: Command, dumped: Core, stopped: real, core: Core, timeout: real,
                        loadedAt: real, now: real)
    requires Reached(w, k, cmd, dumped, stopped) && w.now <= stopped <= loadedAt <= now && 0.0 < timeout
    requires Loads(dumped.table, core.table, loadedAt, now, timeout)
    requires Forgets(dumped.addresses, core.addresses, core.table)
    ensures exists w': World ::
      && (w' == w || Runs.Step(w, Runs.Request(k, cmd), w'))
      && Runs.Step(w', Runs.Restart(timeout, loadedAt), Runs.Restarted(w', core, now))
  {
    hide Loads, Forgets, Runs.Step;
    if w': World :| w'.now <= stopped && w'.core == dumped && Runs.Step(w, Runs.Request(k, cmd), w') {
      Runs.RestartingIsAStep(w', core, timeout, loadedAt, now);
    } else {
      if cmd.ConnAs? && dumped == Unmarked(w.core, cmd.id) {
        UnmarkedLoads(w.core.table, cmd.id, core.table, loadedAt, now, timeout);
      }
      Runs.RestartingIsAStep(w, core, timeout, loadedAt, now);
    }
  }
}
