/** One server process after another over its real objects, and the run of the state machine they produce. */
module ServerRuns {
  import opened Clocks
  import opened LockTable
  import opened LockIndexes
  import opened MemoryStorage
  import opened Commands
  import opened LockServer
  import opened Runs

  ghost predicate Requests(before: Run, after: Run, k: ConnId, cmd: Command) {
    && before.worlds != [] && k in Final(before).links && |before.worlds| == |before.events| + 1
    && after.worlds != [] && after == Extend(before, Request(k, cmd), Final(after))
  }

  /** What a command adds to a run: a request, answered as the run has it, unless the password gate ends it. */
  ghost predicate Extends(before: Run, after: Run, k: ConnId, setting: Setting, session: Session, verb: Verb,
                          args: seq<Bytes>, newId: ClientId, replies: seq<Reply>)
  {
    var cmd := Interpret(verb, args, setting.codec, newId, setting.shutdownSupport);
    match Gate(setting, session, verb, args)
    case Admitted => after == before && replies == [Bit(true)]
    case Failed => after == before && replies == []
    case Open => Requests(before, after, k, cmd) && replies == RepliesAt(after, |before.events|)
    case Complained =>
      && Requests(before, after, k, cmd)
      && replies == [Error(PASS_ERROR)] + RepliesAt(after, |before.events|)
  }

  /** The run after a processed command. */
  ghost function RunAfter(r: Run, k: ConnId, setting: Setting, session: Session, verb: Verb, args: seq<Bytes>,
                          newId: ClientId, now: real): Run
    requires IsRun(r) && k in Final(r).links
  {
    var cmd := Interpret(verb, args, setting.codec, newId, setting.shutdownSupport);
    if Gate(setting, session, verb, args) in {GateResult.Open, Complained}
    then Extend(r, Request(k, cmd),
      After(Final(r), k, cmd, Process(Final(r).core, setting, session, verb, args, newId, now), now))
    else r
  }

  lemma CommandExtends(r: Run, k: ConnId, setting: Setting, session: Session, verb: Verb, args: seq<Bytes>,
                       newId: ClientId, now: real)
    requires IsRun(r) && k in Final(r).links && Final(r).links[k] == Link(setting.peer, session.client, true) &&
      Final(r).now <= now
    ensures
      var p, r' := Process(Final(r).core, setting, session, verb, args, newId, now),
        RunAfter(r, k, setting, session, verb, args, newId, now);
      && IsRun(r') && r'.worlds != [] && Extends(r, r', k, setting, session, verb, args, newId, p.replies)
      && Final(r').core == p.core && Final(r').now <= now
      && Final(r').links == Final(r).links[k := Link(setting.peer, p.session.client, true)]
  {
    hide Interpret, Serve;
    var w := Final(r);
    assert w.links[k := w.links[k]] == w.links;
    ProcessingIsAStep(w, k, setting, session, verb, args, newId, now);
    if Gate(setting, session, verb, args) in {GateResult.Open, Complained} {
      var cmd := Interpret(verb, args, setting.codec, newId, setting.shutdownSupport);
      var w' := After(w, k, cmd, Process(w.core, setting, session, verb, args, newId, now), now);
      ExtendIsRun(r, Request(k, cmd), w');
      hide Step, IsRun;
      assert Extend(r, Request(k, cmd), w').worlds[|r.events|] == w;
    }
  }

  class Server {
    const clock: Clock
    var adaptor: StorageAdaptor
    /** The open connections. */
    var connections: map<ConnId, LiveLockProtocol>
    /** All that happened since the first start. */
    ghost var run: Run

    /** The open links are the connection objects, each with its client and peer, all over this process's adaptor. */
    ghost predicate Linked(links: map<ConnId, Link>)
      reads this`adaptor, this`connections, connections.Values
    {
      && connections.Keys <= links.Keys
      && (forall k | k in links && k !in connections :: !links[k].open)
      && (forall k | k in connections ::
            connections[k].adaptor == adaptor &&
              links[k] == Link(connections[k].setting.peer, connections[k].clientId, true))
      && (forall j, k | j in connections && k in connections && j != k :: connections[j] != connections[k])
    }

    ghost predicate Sound()
      reads this`adaptor, adaptor, adaptor.store, adaptor.store.infos
    {
      adaptor.store.clock == clock && adaptor.BetweenCommands()
    }

    ghost predicate Valid()
      reads this, adaptor, adaptor.store, clock, adaptor.store.infos, connections.Values
    {
      && Sound() && run.worlds != [] && IsRun(run)
      && Final(run).core == adaptor.Core() && Final(run).now <= clock.now
      && Linked(Final(run).links)
    }

    constructor (clock: Clock, timeout: Duration)
      requires 0.0 < clock.now
      ensures Valid() && fresh(adaptor) && fresh(adaptor.store) && this.clock == clock && !adaptor.killActive
      ensures run.events == [] && connections == map[]
    {
      this.clock := clock;
      var store := new InMemoryLockStorage(clock, timeout);
      adaptor := new StorageAdaptor(store);
      connections := map[];
      run := Run([World(Commands.Core(map[], map[]), map[], map[], clock.now)], []);
    }

    /** A new connection, under an id never used before. */
    method Open(k: ConnId, setting: Setting)
      requires Valid() && !adaptor.killActive && k !in Final(run).links && PeerIsNew(Final(run), setting.peer)
      modifies this
      ensures Valid() && !adaptor.killActive && adaptor == old(adaptor)
      ensures run == Extend(old(run), Opened(k, setting.peer), Final(run))
    {
      var connection := new LiveLockProtocol(adaptor, setting);
      connections := connections[k := connection];
      ghost var w := Final(run);
      ghost var w' := Opening(w, k, setting.peer, clock.now);
      OpeningIsAStep(w, k, setting.peer, clock.now);
      Record(Opened(k, setting.peer), w');
    }

    /** What a command does to the objects. */
    method Serve(k: ConnId, name: string, args: seq<Bytes>, newId: ClientId) returns (replies: seq<Reply>)
      requires Valid() && !adaptor.killActive && k in connections
      modifies connections[k], adaptor, adaptor.store, clock, adaptor.store.infos
      ensures Sound() && old(clock.now) <= clock.now
      ensures old(adaptor.Core()) == Final(run).core
      ensures k in Final(run).links &&
        Final(run).links[k] == Link(connections[k].setting.peer, old(connections[k].clientId), true)
      ensures Linked(Final(run).links[k := Link(connections[k].setting.peer, connections[k].clientId, true)])
      ensures Process(old(adaptor.Core()), connections[k].setting, old(connections[k].Session()), VerbOf(name), args,
        newId, clock.now)
        == Processed(adaptor.Core(), connections[k].Session(), replies)
    {
      hide StandsFor, IsRun, Process, VerbOf, CoherentSnapshot, SavedTable;
      replies := connections[k].ProcessCommand(name, args, newId);
    }

    /** A command of one connection: a request of the run, unless the password gate ends it. */
    method Command(k: ConnId, name: string, args: seq<Bytes>, newId: ClientId) returns (replies: seq<Reply>)
      requires Valid() && !adaptor.killActive && k in connections
      modifies this`run, connections[k], adaptor, adaptor.store, clock, adaptor.store.infos
      ensures Valid()
      ensures Extends(old(run), run, k, connections[k].setting, old(connections[k].Session()), VerbOf(name), args,
        newId, replies)
    {
      hide StandsFor, IsRun, Process, VerbOf, Sound, Linked, Extends, RunAfter, StorageAdaptor.BetweenCommands,
        CoherentSnapshot, SavedTable;
      ghost var session, setting, verb := connections[k].Session(), connections[k].setting, VerbOf(name);
      replies := Serve(k, name, args, newId);
      CommandExtends(run, k, setting, session, verb, args, newId, clock.now);
      run := RunAfter(run, k, setting, session, verb, args, newId, clock.now);
    }

    /** What the loss of a connection does to the objects. */
    method Drop(k: ConnId)
      requires Valid() && !adaptor.killActive && k in connections
      modifies this`connections, adaptor, adaptor.store, clock, adaptor.store.infos
      ensures Sound() && !adaptor.killActive && old(clock.now) <= clock.now && connections == old(connections) - {k}
      ensures var links, connection := Final(run).links, old(connections)[k];
        && k in links && links[k] == Link(connection.setting.peer, connection.clientId, true)
        && Linked(links[k := links[k].(open := false)])
        && adaptor.Core() == Commands.Lose(Final(run).core, connection.clientId, connection.setting.peer, clock.now)
    {
      hide StandsFor, IsRun, CoherentSnapshot, SavedTable, Commands.Lose;
      connections[k].ConnectionLost();
      connections := connections - {k};
    }

    method Lose(k: ConnId)
      requires Valid() && !adaptor.killActive && k in connections
      modifies this`run, this`connections, adaptor, adaptor.store, clock, adaptor.store.infos
      ensures Valid() && !adaptor.killActive
      ensures run == Extend(old(run), Lost(k), Final(run)) && connections == old(connections) - {k}
    {
      hide StandsFor, IsRun, Step, Sound, Linked, Commands.Lose, StorageAdaptor.BetweenCommands, CoherentSnapshot,
        SavedTable;
      ghost var w, connection := Final(run), connections[k];
      Drop(k);
      LosingIsAStep(w, k, connection.clientId, connection.setting.peer, clock.now);
      Record(Lost(k), Closing(w, k, adaptor.Core(), clock.now));
    }

    /** One turn of the maintenance scheduler. */
    method Sweep(timeoutMs: Duration, order: seq<ClientId>) returns (finished: bool)
      requires Valid() && !adaptor.killActive && Shuffles(order, adaptor.store.clientToLocks.Keys)
      modifies this`run, adaptor.store, clock
      ensures Valid() && !adaptor.killActive
      ensures run == Extend(old(run), Maintenance, Final(run))
      ensures finished ==> forall l | l in Final(run).core.table :: !Expired(Final(run).core.table[l], old(clock.now))
      ensures !finished ==> clock.now > old(clock.now) + timeoutMs * 1000.0
    {
      hide StandsFor, IsRun, CoherentSnapshot, SavedTable, Process, Interpret, Commands.Lose, Loads, Forgets,
        Collects, Step;
      ghost var w := Final(run);
      finished := adaptor.store.Maintenance(timeoutMs, order);
      ghost var w' := w.(core := adaptor.Core(), now := clock.now);
      SweepingIsAStep(w, adaptor.Core(), clock.now);
      Record(Maintenance, w');
    }

    /** A terminate signal between commands. */
    method Terminate()
      requires Valid() && !adaptor.killActive
      modifies adaptor
      ensures Valid() && adaptor.killActive
    {
      adaptor.OnKillRequested();
    }

    ghost method Record(e: Event, w: World)
      requires run.worlds != [] && IsRun(run) && Step(Final(run), e, w)
      modifies this`run
      ensures run == Extend(old(run), e, w) && run.worlds != [] && IsRun(run) && Final(run) == w
    {
      ExtendIsRun(run, e, w);
      run := Extend(run, e, w);
    }

    /** A new process over a store that loads this dump. */
    method Boot(timeout: Duration, dump: Snapshot, order: seq<ClientId>)
      requires CoherentSnapshot(dump) && Shuffles(order, dump.clientToLocks.Keys)
      modifies this`adaptor, this`connections, clock
      ensures Sound() && !adaptor.killActive && fresh(adaptor) && connections == map[] && old(clock.now) <= clock.now
      ensures Loads(SavedTable(dump), adaptor.store.table, old(clock.now), clock.now, timeout + 1.0)
      ensures Forgets(dump.clientLastAddress, adaptor.store.clientLastAddress, adaptor.store.table)
    {
      hide StandsFor, CoherentSnapshot, SavedTable, Loads, Forgets;
      var store := new InMemoryLockStorage(clock, timeout);
      store.LoadDump(Saved(dump), order);
      adaptor := new StorageAdaptor(store);
      connections := map[];
    }

    /** The next process, `downtime` after the last one exited, loads its last dump. */
    method Restart(timeout: Duration, downtime: Duration, order: seq<ClientId>)
      requires Valid() && adaptor.killActive
      requires Shuffles(order, adaptor.files[|adaptor.files| - 1].clientToLocks.Keys)
      modifies this, clock
      ensures Valid() && !adaptor.killActive && fresh(adaptor) && connections == map[]
      ensures run == Extend(old(run), Event.Restart(timeout + 1.0, old(clock.now) + downtime), Final(run))
    {
      hide StandsFor, IsRun, CoherentSnapshot, SavedTable, Loads, Forgets, Step;
      ghost var w := Final(run);
      var dump := adaptor.files[|adaptor.files| - 1];
      clock.Sleep(downtime);
      ghost var loadedAt := clock.now;
      hide Sound;
      Boot(timeout, dump, order);
      RestartingIsAStep(w, adaptor.Core(), timeout + 1.0, loadedAt, clock.now);
      Record(Event.Restart(timeout + 1.0, loadedAt), Restarted(w, adaptor.Core(), clock.now));
    }
  }
}
