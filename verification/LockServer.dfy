/** The server's adaptor and connection objects, proved against the command semantics. */
module LockServer {
  import opened Wrappers
  import opened LockTable
  import opened LockIndexes
  import opened MemoryStorage
  import opened Commands
  import opened Shutdown

  class StorageAdaptor {
    const store: InMemoryLockStorage
    var killActive: bool
    var storageOperations: int
    var commands: int
    var dataDumped: bool
    var exited: bool
    /** The dump files written so far. */
    var files: seq<Snapshot>

    constructor (store: InMemoryLockStorage)
      ensures this.store == store && Control() == Started && files == []
    {
      this.store := store;
      killActive, storageOperations, commands, dataDumped, exited, files := false, 0, 0, false, false, [];
    }

    ghost function Control(): Control
      reads this
    {
      Shutdown.Control(killActive, storageOperations, commands, dataDumped, exited)
    }

    ghost function Core(): Core
      reads this, store
    {
      Commands.Core(store.table, store.clientLastAddress)
    }

    /** A coherent dump of all that the store holds now. */
    ghost predicate Saves(s: Snapshot)
      reads this, store
    {
      CoherentSnapshot(s) && SavedTable(s) == store.table && s.clientLastAddress == store.clientLastAddress
    }

    /** A process that was told to stop has exited by now, and its last dump is of all that the store holds. */
    ghost predicate BetweenCommands()
      reads this, store, store.infos
    {
      && store.Valid() && storageOperations == 0
      && (if killActive then exited && files != [] && Saves(files[|files| - 1]) else commands == 0)
    }

    /** The files written since `before` are exactly `n` dumps of the present table. */
    ghost predicate Dumped(before: seq<Snapshot>, n: nat)
      reads this, store
    {
      && |files| == |before| + n && before <= files
      && (forall i | |before| <= i < |files| :: Saves(files[i]))
    }

    method Dump()
      requires store.Valid()
      modifies this`files
      ensures Dumped(old(files), 1)
    {
      var s := store.Dump();
      files := files + [s];
    }

    method OnStorageOperationStart()
      modifies this`storageOperations
      ensures Control() == OperationStart(old(Control()))
    {
      storageOperations := storageOperations + 1;
    }

    /** The counter never drops below zero, so the source's check of it never raises. */
    method OnStorageOperationEnd()
      requires store.Valid() && storageOperations >= 1
      modifies this`storageOperations, this`dataDumped, this`files
      ensures Control() == DumpIfLast(OperationEnd(old(Control()))).control
      ensures Dumped(old(files), DumpIfLast(OperationEnd(old(Control()))).dumps)
    {
      storageOperations := storageOperations - 1;
      if killActive && storageOperations == 0 {
        DumpBeforeDie();
      }
    }

    method OnCommandStart()
      modifies this`commands
      ensures Control() == CommandStart(old(Control()))
    {
      commands := commands + 1;
    }

    method OnCommandEnd()
      requires store.Valid()
      modifies this`commands, this`exited, this`files
      ensures Control() == DieIfLast(CommandEnd(old(Control()))).control
      ensures Dumped(old(files), DieIfLast(CommandEnd(old(Control()))).dumps)
    {
      commands := commands - 1;
      if killActive && commands == 0 {
        Die();
      }
    }

    method OnKillRequested()
      requires store.Valid()
      modifies this`killActive, this`dataDumped, this`exited, this`files
      ensures Control() == KillRequested(old(Control())).control
      ensures Dumped(old(files), KillRequested(old(Control())).dumps)
    {
      killActive := true;
      if storageOperations == 0 {
        DumpBeforeDie();
      }
      if commands == 0 {
        Die();
      }
    }

    method DumpBeforeDie()
      requires store.Valid()
      modifies this`dataDumped, this`files
      ensures dataDumped && Dumped(old(files), 1)
    {
      Dump();
      dataDumped := true;
    }

    method Die()
      requires store.Valid()
      modifies this`exited, this`files
      ensures exited && Dumped(old(files), if dataDumped then 0 else 1)
    {
      if !dataDumped {
        Dump();
      }
      exited := true;
    }

    /** The guard around a storage operation: refuses once a signal has arrived. */
    method GuardEnter() returns (entered: bool)
      modifies this`storageOperations
      ensures entered == !killActive
      ensures Control() == if entered then OperationStart(old(Control())) else old(Control())
    {
      if killActive {
        return false;
      }
      OnStorageOperationStart();
      entered := true;
    }

    method Acquire(c: ClientId, l: LockId, reentrant: bool) returns (r: Option<bool>)
      requires store.Valid() && storageOperations >= 0
      modifies this`storageOperations, this`dataDumped, this`files, store, store.clock
      ensures store.Valid() && fresh(store.infos - old(store.infos))
      ensures old(store.clock.now) <= store.clock.now && Control() == old(Control()) && files == old(files)
      ensures r.Some? == !killActive && (killActive ==> Core() == old(Core()))
      ensures r.Some? ==> (Core(), [Bit(r.value)]) == Execute(old(Core()), c, Aq(l, reentrant), store.clock.now)
    {
      hide StandsFor;
      var entered := GuardEnter();
      if !entered {
        return None;
      }
      var answer := store.Acquire(c, l, reentrant);
      OnStorageOperationEnd();
      r := Some(answer);
    }

    method Release(c: ClientId, l: LockId) returns (r: Option<bool>)
      requires store.Valid() && storageOperations >= 0
      modifies this`storageOperations, this`dataDumped, this`files, store
      ensures store.Valid() && fresh(store.infos - old(store.infos))
      ensures Control() == old(Control()) && files == old(files)
      ensures r.Some? == !killActive && (killActive ==> Core() == old(Core()))
      ensures r.Some? ==> (Core(), [Bit(r.value)]) == Execute(old(Core()), c, ReleaseLock(l), 0.0)
    {
      hide StandsFor;
      var entered := GuardEnter();
      if !entered {
        return None;
      }
      var answer := store.Release(c, l);
      OnStorageOperationEnd();
      r := Some(answer);
    }

    method ReleaseAll(c: ClientId) returns (r: bool)
      requires store.Valid() && storageOperations >= 0
      modifies this`storageOperations, this`dataDumped, this`files, store, store.clock, store.infos
      ensures store.Valid() && fresh(store.infos - old(store.infos))
      ensures old(store.clock.now) <= store.clock.now && Control() == old(Control()) && files == old(files)
      ensures r == !killActive && (killActive ==> Core() == old(Core()))
      ensures
        var marked := SetDeadlines(old(store.table), c, Some(store.clock.now + RELEASE_ALL_TIMEOUT));
        r ==> Core() == old(Core()).(table := marked)
    {
      hide StandsFor;
      var entered := GuardEnter();
      if !entered {
        return false;
      }
      store.ReleaseAll(c, RELEASE_ALL_TIMEOUT);
      OnStorageOperationEnd();
      r := true;
    }

    method UnreleaseAll(c: ClientId) returns (r: bool)
      requires store.Valid() && storageOperations >= 0
      modifies this`storageOperations, this`dataDumped, this`files, store, store.infos
      ensures store.Valid() && fresh(store.infos - old(store.infos))
      ensures Control() == old(Control()) && files == old(files)
      ensures r == !killActive && (killActive ==> Core() == old(Core()))
      ensures r ==> Core() == old(Core()).(table := SetDeadlines(old(store.table), c, None))
    {
      hide StandsFor;
      var entered := GuardEnter();
      if !entered {
        return false;
      }
      store.UnreleaseAll(c);
      OnStorageOperationEnd();
      r := true;
    }

    method SetClientLastAddress(c: ClientId, address: Address) returns (r: bool)
      requires store.Valid() && storageOperations >= 0
      modifies this`storageOperations, this`dataDumped, this`files, store
      ensures store.Valid() && fresh(store.infos - old(store.infos))
      ensures Control() == old(Control()) && files == old(files)
      ensures r == !killActive && (killActive ==> Core() == old(Core()))
      ensures r ==> Core() == old(Core()).(addresses := old(store.clientLastAddress)[c := address])
    {
      hide StandsFor;
      var entered := GuardEnter();
      if !entered {
        return false;
      }
      store.SetClientLastAddress(c, address);
      OnStorageOperationEnd();
      r := true;
    }

    method AddSignal(l: LockId, signal: Signal) returns (r: Option<Answer>)
      requires store.Valid() && storageOperations >= 0
      modifies this`storageOperations, this`dataDumped, this`files, store, store.infos
      ensures store.Valid() && fresh(store.infos - old(store.infos))
      ensures Control() == old(Control()) && files == old(files)
      ensures r.Some? == !killActive && (killActive ==> Core() == old(Core()))
      ensures r.Some? ==> LockTable.AddSignal(old(store.table), l, signal) == (store.table, r.value)
      ensures r.Some? ==> store.clientLastAddress == old(store.clientLastAddress)
    {
      hide StandsFor;
      var entered := GuardEnter();
      if !entered {
        return None;
      }
      var answer := store.AddSignal(l, signal);
      OnStorageOperationEnd();
      r := Some(answer);
    }

    method RemoveSignal(l: LockId, signal: Signal) returns (r: Option<Answer>)
      requires store.Valid() && storageOperations >= 0
      modifies this`storageOperations, this`dataDumped, this`files, store, store.infos
      ensures store.Valid() && fresh(store.infos - old(store.infos))
      ensures Control() == old(Control()) && files == old(files)
      ensures r.Some? == !killActive && (killActive ==> Core() == old(Core()))
      ensures r.Some? ==> LockTable.RemoveSignal(old(store.table), l, signal) == (store.table, r.value)
      ensures r.Some? ==> store.clientLastAddress == old(store.clientLastAddress)
    {
      hide StandsFor;
      var entered := GuardEnter();
      if !entered {
        return None;
      }
      var answer := store.RemoveSignal(l, signal);
      OnStorageOperationEnd();
      r := Some(answer);
    }
  }

  /** One connection: its client id, its peer's address and the server-wide adaptor. */
  class LiveLockProtocol {
    const adaptor: StorageAdaptor
    const setting: Setting
    var clientId: Option<ClientId>
    var authorized: bool
    var closing: bool

    constructor (adaptor: StorageAdaptor, setting: Setting)
      ensures this.adaptor == adaptor && this.setting == setting && Session() == Commands.Session(None, false, false)
    {
      this.adaptor, this.setting := adaptor, setting;
      clientId, authorized, closing := None, false, false;
    }

    ghost function Session(): Session
      reads this
    {
      Commands.Session(clientId, authorized, closing)
    }

    ghost predicate Valid()
      reads this, adaptor, adaptor.store, adaptor.store.infos
    {
      adaptor.store.Valid() && adaptor.storageOperations == 0
    }

    method ConnectionLost()
      requires Valid()
      modifies adaptor, adaptor.store, adaptor.store.clock, adaptor.store.infos
      ensures Valid() && adaptor.Control() == old(adaptor.Control()) && adaptor.files == old(adaptor.files)
      ensures old(adaptor.store.clock.now) <= adaptor.store.clock.now
      ensures adaptor.Core() ==
        if adaptor.killActive then old(adaptor.Core())
        else Lose(old(adaptor.Core()), clientId, setting.peer, adaptor.store.clock.now)
    {
      hide StandsFor;
      if adaptor.killActive || clientId.None? {
        return;
      }
      var addresses := adaptor.store.clientLastAddress;
      var c := clientId.value;
      if c !in addresses || addresses[c] == setting.peer {
        var _ := adaptor.ReleaseAll(c);
      }
    }

    /** CONN: restores the client's locks when it names itself, then records the connection's address. */
    method Connect(args: seq<Bytes>, newId: ClientId) returns (replies: seq<Reply>)
      requires Valid() && !adaptor.killActive
      modifies this`clientId, adaptor, adaptor.store, adaptor.store.infos
      ensures Valid() && adaptor.Control() == old(adaptor.Control()) && adaptor.files == old(adaptor.files)
      ensures fresh(adaptor.store.infos - old(adaptor.store.infos))
      ensures Served(adaptor.Core(), clientId, replies) ==
        Commands.Connect(old(adaptor.Core()), old(clientId), setting.peer,
          Interpret(CONN, args, setting.codec, newId, setting.shutdownSupport))
    {
      hide StandsFor;
      replies := if clientId.Some? then [Error(CONN_HAS_ID_ERROR)] else [];
      var id := newId;
      if args != [] {
        if args[0] == [] {
          return replies + [Error(WRONG_ARGS)];
        }
        var decoded := setting.codec.decode(args[0]);
        if decoded.None? {
          return replies + [];
        }
        id := decoded.value;
        clientId := Some(id);
        var _ := adaptor.UnreleaseAll(id);
      } else {
        clientId := Some(id);
      }
      var _ := adaptor.SetClientLastAddress(id, setting.peer);
      replies := replies + [Text(id)];
    }

    /** Every verb but CONN, once the connection has an id. */
    method Execute(verb: Verb, args: seq<Bytes>, newId: ClientId) returns (replies: seq<Reply>)
      requires Valid() && !adaptor.killActive && clientId.Some? && verb != CONN
      modifies adaptor, adaptor.store, adaptor.store.clock, adaptor.store.infos
      ensures Valid() && fresh(adaptor.store.infos - old(adaptor.store.infos))
      ensures old(adaptor.store.clock.now) <= adaptor.store.clock.now
      ensures var killed := KillRequested(old(adaptor.Control()));
        if verb == SHUTDOWN && setting.shutdownSupport
        then adaptor.Control() == killed.control && adaptor.Dumped(old(adaptor.files), killed.dumps)
        else adaptor.Control() == old(adaptor.Control()) && adaptor.files == old(adaptor.files)
      ensures (adaptor.Core(), replies) == Commands.Execute(old(adaptor.Core()), clientId.value,
        Interpret(verb, args, setting.codec, newId, setting.shutdownSupport), adaptor.store.clock.now)
    {
      hide StandsFor;
      match verb
      case AQ =>
        replies := Acquire(args, false);
      case AQR =>
        replies := Acquire(args, true);
      case RELEASE =>
        replies := Release(args);
      case LOCKED =>
        replies := IsLocked(args);
      case SIGSET =>
        replies := SetSignal(args);
      case SIGEXISTS =>
        replies := SignalExists(args);
      case SIGDEL =>
        replies := DeleteSignal(args);
      case SHUTDOWN =>
        if setting.shutdownSupport {
          adaptor.OnKillRequested();
        }
        replies := [if setting.shutdownSupport then Bit(true) else Error(UNKNOWN_COMMAND_ERROR)];
      case CONNINFO =>
        var lock := DecodeOne(args);
        replies := [if lock.Some? then Bit(true) else Error(WRONG_ARGS)];
      case PING =>
        replies := [Text("PONG")];
      case FIND =>
        if |args| != 1 || args[0] == [] {
          return [Error(WRONG_ARGS)];
        }
        replies := if setting.codec.decode(args[0]).Some? then [Data] else [];
      case STATS =>
        replies := [if args != [] then Error(WRONG_ARGS) else Data];
      case PASS =>
        replies := [Error(UNKNOWN_COMMAND_ERROR)];
      case OTHER =>
        replies := [Error(UNKNOWN_COMMAND_ERROR)];
    }

    method DecodeOne(args: seq<Bytes>) returns (text: Option<ClientId>)
      ensures text == if |args| == 1 && args[0] != [] then setting.codec.decode(args[0]) else None
    {
      text := if |args| != 1 || args[0] == [] then None else setting.codec.decode(args[0]);
    }

    method DecodeTwo(args: seq<Bytes>) returns (texts: Option<(ClientId, ClientId)>)
      ensures texts ==
        if |args| == 2 && args[0] != [] && args[1] != [] && setting.codec.decode(args[0]).Some? &&
          setting.codec.decode(args[1]).Some?
        then Some((setting.codec.decode(args[0]).value, setting.codec.decode(args[1]).value)) else None
    {
      if |args| != 2 || args[0] == [] || args[1] == [] {
        return None;
      }
      var first, second := setting.codec.decode(args[0]), setting.codec.decode(args[1]);
      texts := if first.Some? && second.Some? then Some((first.value, second.value)) else None;
    }

    method Acquire(args: seq<Bytes>, reentrant: bool) returns (replies: seq<Reply>)
      requires Valid() && !adaptor.killActive && clientId.Some?
      modifies adaptor, adaptor.store, adaptor.store.clock
      ensures Valid() && fresh(adaptor.store.infos - old(adaptor.store.infos))
      ensures adaptor.Control() == old(adaptor.Control()) && adaptor.files == old(adaptor.files)
      ensures old(adaptor.store.clock.now) <= adaptor.store.clock.now
      ensures (adaptor.Core(), replies) == Commands.Execute(old(adaptor.Core()), clientId.value,
        WithLock(args, setting.codec, l => Aq(l, reentrant)), adaptor.store.clock.now)
    {
      hide StandsFor;
      var lock := DecodeOne(args);
      if lock.None? {
        return [Error(WRONG_ARGS)];
      }
      var res := adaptor.Acquire(clientId.value, lock.value, reentrant);
      replies := [Bit(res.value)];
    }

    method Release(args: seq<Bytes>) returns (replies: seq<Reply>)
      requires Valid() && !adaptor.killActive && clientId.Some?
      modifies adaptor, adaptor.store
      ensures Valid() && fresh(adaptor.store.infos - old(adaptor.store.infos))
      ensures adaptor.Control() == old(adaptor.Control()) && adaptor.files == old(adaptor.files)
      ensures (adaptor.Core(), replies) == Commands.Execute(old(adaptor.Core()), clientId.value,
        WithLock(args, setting.codec, l => ReleaseLock(l)), adaptor.store.clock.now)
    {
      hide StandsFor;
      var lock := DecodeOne(args);
      if lock.None? {
        return [Error(WRONG_ARGS)];
      }
      var res := adaptor.Release(clientId.value, lock.value);
      replies := [Bit(res.value)];
    }

    /** LOCKED is not guarded: it reaches the store directly. */
    method IsLocked(args: seq<Bytes>) returns (replies: seq<Reply>)
      requires Valid() && clientId.Some?
      modifies adaptor.store, adaptor.store.clock
      ensures Valid() && fresh(adaptor.store.infos - old(adaptor.store.infos))
      ensures old(adaptor.store.clock.now) <= adaptor.store.clock.now
      ensures (adaptor.Core(), replies) == Commands.Execute(old(adaptor.Core()), clientId.value,
        WithLock(args, setting.codec, l => Command.IsLocked(l)), adaptor.store.clock.now)
    {
      hide StandsFor;
      var lock := DecodeOne(args);
      if lock.None? {
        return [Error(WRONG_ARGS)];
      }
      var res := adaptor.store.Locked(lock.value);
      replies := [Bit(res)];
    }

    method SetSignal(args: seq<Bytes>) returns (replies: seq<Reply>)
      requires Valid() && !adaptor.killActive && clientId.Some?
      modifies adaptor, adaptor.store, adaptor.store.infos
      ensures Valid() && fresh(adaptor.store.infos - old(adaptor.store.infos))
      ensures adaptor.Control() == old(adaptor.Control()) && adaptor.files == old(adaptor.files)
      ensures (adaptor.Core(), replies) == Commands.Execute(old(adaptor.Core()), clientId.value,
        WithSignal(args, setting.codec, (l, s) => SigSet(l, s)), adaptor.store.clock.now)
    {
      hide StandsFor;
      var texts := DecodeTwo(args);
      if texts.None? {
        return [Error(WRONG_ARGS)];
      }
      var res := adaptor.AddSignal(texts.value.0, setting.codec.lower(texts.value.1));
      replies := [AnswerReply(res.value)];
    }

    method SignalExists(args: seq<Bytes>) returns (replies: seq<Reply>)
      requires Valid() && clientId.Some?
      ensures (adaptor.Core(), replies) == Commands.Execute(adaptor.Core(), clientId.value,
        WithSignal(args, setting.codec, (l, s) => SigExists(l, s)), adaptor.store.clock.now)
    {
      hide StandsFor;
      var texts := DecodeTwo(args);
      if texts.None? {
        return [Error(WRONG_ARGS)];
      }
      var res := adaptor.store.HasSignal(texts.value.0, setting.codec.lower(texts.value.1));
      replies := [AnswerReply(res)];
    }

    method DeleteSignal(args: seq<Bytes>) returns (replies: seq<Reply>)
      requires Valid() && !adaptor.killActive && clientId.Some?
      modifies adaptor, adaptor.store, adaptor.store.infos
      ensures Valid() && fresh(adaptor.store.infos - old(adaptor.store.infos))
      ensures adaptor.Control() == old(adaptor.Control()) && adaptor.files == old(adaptor.files)
      ensures (adaptor.Core(), replies) == Commands.Execute(old(adaptor.Core()), clientId.value,
        WithSignal(args, setting.codec, (l, s) => SigDel(l, s)), adaptor.store.clock.now)
    {
      hide StandsFor;
      var texts := DecodeTwo(args);
      if texts.None? {
        return [Error(WRONG_ARGS)];
      }
      var res := adaptor.RemoveSignal(texts.value.0, setting.codec.lower(texts.value.1));
      replies := [AnswerReply(res.value)];
    }

    /** The body of `process_command`. */
    method Handle(verb: Verb, args: seq<Bytes>, newId: ClientId) returns (replies: seq<Reply>)
      requires Valid() && !adaptor.killActive
      modifies this, adaptor, adaptor.store, adaptor.store.clock, adaptor.store.infos
      ensures Valid() && fresh(adaptor.store.infos - old(adaptor.store.infos))
      ensures old(adaptor.store.clock.now) <= adaptor.store.clock.now
      ensures Processed(adaptor.Core(), Session(), replies) ==
        Process(old(adaptor.Core()), setting, old(Session()), verb, args, newId, adaptor.store.clock.now)
      ensures var killed := KillRequested(old(adaptor.Control()));
        if Stops(setting, old(Session()), verb, args)
        then adaptor.Control() == killed.control && adaptor.Dumped(old(adaptor.files), killed.dumps)
        else adaptor.Control() == old(adaptor.Control()) && adaptor.files == old(adaptor.files)
    {
      hide StandsFor, Interpret, Serve, KillRequested;
      replies := [];
      if setting.password != "" && !authorized {
        if verb == PASS && |args| == 1 && args[0] != [] {
          var given := setting.codec.decode(args[0]);
          if given.None? {
            return;
          }
          if given.value == setting.password {
            authorized := true;
            return [Bit(true)];
          }
        }
        replies := [Error(PASS_ERROR)];
        closing := true;
      }
      var more := Respond(verb, args, newId);
      replies := replies + more;
    }

    method Respond(verb: Verb, args: seq<Bytes>, newId: ClientId) returns (replies: seq<Reply>)
      requires Valid() && !adaptor.killActive
      modifies this`clientId, adaptor, adaptor.store, adaptor.store.clock, adaptor.store.infos
      ensures Valid() && fresh(adaptor.store.infos - old(adaptor.store.infos))
      ensures old(adaptor.store.clock.now) <= adaptor.store.clock.now
      ensures Served(adaptor.Core(), clientId, replies) == Serve(old(adaptor.Core()), old(clientId), setting.peer,
        Interpret(verb, args, setting.codec, newId, setting.shutdownSupport), adaptor.store.clock.now)
      ensures var killed := KillRequested(old(adaptor.Control()));
        if verb == SHUTDOWN && setting.shutdownSupport && old(clientId).Some?
        then adaptor.Control() == killed.control && adaptor.Dumped(old(adaptor.files), killed.dumps)
        else adaptor.Control() == old(adaptor.Control()) && adaptor.files == old(adaptor.files)
    {
      hide StandsFor, Interpret;
      OnlyConnConnects(verb, args, setting.codec, newId, setting.shutdownSupport);
      if verb == CONN {
        replies := Connect(args, newId);
      } else if clientId.None? {
        replies := [Error(CONN_REQUIRED_ERROR)];
      } else {
        replies := Execute(verb, args, newId);
      }
    }

    method ProcessCommand(name: string, args: seq<Bytes>, newId: ClientId) returns (replies: seq<Reply>)
      requires Valid()
      modifies this, adaptor, adaptor.store, adaptor.store.clock, adaptor.store.infos
      ensures Valid() && fresh(adaptor.store.infos - old(adaptor.store.infos))
      ensures old(adaptor.store.clock.now) <= adaptor.store.clock.now
      ensures old(adaptor.killActive) ==>
        replies == [Error(9)] && adaptor.Core() == old(adaptor.Core()) && Session() == old(Session())
      ensures !old(adaptor.killActive) ==>
        Process(old(adaptor.Core()), setting, old(Session()), VerbOf(name), args, newId, adaptor.store.clock.now)
          == Processed(adaptor.Core(), Session(), replies)
      ensures !adaptor.killActive || old(adaptor.killActive) ==>
        adaptor.Control() == old(adaptor.Control()) && adaptor.files == old(adaptor.files)
      ensures adaptor.killActive && !old(adaptor.killActive) ==>
        && adaptor.Dumped(old(adaptor.files), 1) && (old(adaptor.commands) == 0 ==> adaptor.exited)
      ensures !old(adaptor.killActive) ==> adaptor.killActive == Stops(setting, old(Session()), VerbOf(name), args)
      ensures old(adaptor.BetweenCommands()) ==> adaptor.BetweenCommands()
    {
      hide StandsFor, Process, VerbOf;
      if adaptor.killActive {
        return [Error(SERVER_TERMINATING)];
      }
      adaptor.OnCommandStart();
      replies := Handle(VerbOf(name), args, newId);
      adaptor.OnCommandEnd();
    }
  }
}
