/** What a command of one connection does to the store's contents, and what is replied. */
module Commands {
  import opened Wrappers
  import opened LockTable
  import ByteStrings

  datatype Reply = Text(text: string) | Error(code: nat) | Data

  const CONN_REQUIRED_ERROR := 1
  const WRONG_ARGS := 2
  const CONN_HAS_ID_ERROR := 3
  const UNKNOWN_COMMAND_ERROR := 4
  const PASS_ERROR := 5
  const KEY_NOT_EXISTS := 8
  const SERVER_TERMINATING := 9

  /** The timeout the adaptor hands to `release_all`: its own default. */
  const RELEASE_ALL_TIMEOUT := 5.0

  datatype Core = Core(table: Table, addresses: map<ClientId, Address>)

  /** A command whose arguments have been checked and decoded. */
  datatype Command =
    | ConnAs(id: ClientId)
    | ConnNew(id: ClientId)
    | ConnRejected(replies: seq<Reply>)
    | Aq(lock: LockId, reentrant: bool)
    | ReleaseLock(lock: LockId)
    | IsLocked(lock: LockId)
    | SigSet(lock: LockId, signal: Signal)
    | SigExists(lock: LockId, signal: Signal)
    | SigDel(lock: LockId, signal: Signal)
    | Inert(replies: seq<Reply>)

  predicate IsConn(cmd: Command) {
    cmd.ConnAs? || cmd.ConnNew? || cmd.ConnRejected?
  }

  datatype Served = Served(core: Core, client: Option<ClientId>, replies: seq<Reply>)

  function Bit(b: bool): Reply {
    Text(if b then "1" else "0")
  }

  function AnswerReply(a: Answer): Reply {
    match a
    case Yes => Bit(true)
    case No => Bit(false)
    case KeyNotExists => Error(KEY_NOT_EXISTS)
  }

  /** CONN. A connection that already has an id is told so, and then served all the same. */
  function Connect(core: Core, client: Option<ClientId>, peer: Address, cmd: Command): Served
    requires IsConn(cmd)
  {
    var complaint := if client.Some? then [Error(CONN_HAS_ID_ERROR)] else [];
    match cmd
    case ConnAs(id) =>
      Served(Core(SetDeadlines(core.table, id, None), core.addresses[id := peer]), Some(id), complaint + [Text(id)])
    case ConnNew(id) =>
      Served(core.(addresses := core.addresses[id := peer]), Some(id), complaint + [Text(id)])
    case ConnRejected(replies) =>
      Served(core, client, complaint + replies)
  }

  /** Every other command, by a connection that carries id `c`. */
  function Execute(core: Core, c: ClientId, cmd: Command, now: real): (Core, seq<Reply>)
    requires !IsConn(cmd)
  {
    var t := core.table;
    match cmd
    case Aq(l, reentrant) =>
      (core.(table := Acquire(t, c, l, now)), [Bit(Acquires(t, c, l, reentrant, now))])
    case ReleaseLock(l) =>
      (core.(table := Release(t, c, l)), [Bit(Holds(t, c, l))])
    case IsLocked(l) =>
      (core.(table := CollectIfExpired(t, l, now)), [Bit(Locked(t, l, now))])
    case SigSet(l, s) =>
      var (t', answer) := AddSignal(t, l, s);
      (core.(table := t'), [AnswerReply(answer)])
    case SigExists(l, s) =>
      (core, [AnswerReply(HasSignal(t, l, s))])
    case SigDel(l, s) =>
      var (t', answer) := RemoveSignal(t, l, s);
      (core.(table := t'), [AnswerReply(answer)])
    case Inert(replies) =>
      (core, replies)
  }

  function Serve(core: Core, client: Option<ClientId>, peer: Address, cmd: Command, now: real): Served {
    if IsConn(cmd) then Connect(core, client, peer, cmd)
    else if client.None? then Served(core, client, [Error(CONN_REQUIRED_ERROR)])
    else var (core', replies) := Execute(core, client.value, cmd, now); Served(core', client, replies)
  }

  /** A lost connection takes its client's locks with it unless a later connection's address is on record. */
  predicate LossMarks(core: Core, c: ClientId, peer: Address) {
    c in core.addresses ==> core.addresses[c] == peer
  }

  function Lose(core: Core, client: Option<ClientId>, peer: Address, now: real): Core {
    if client.Some? && LossMarks(core, client.value, peer)
    then core.(table := SetDeadlines(core.table, client.value, Some(now + RELEASE_ALL_TIMEOUT)))
    else core
  }

  type Bytes = ByteStrings.Bytes

  /** Text decoding is applied to non-empty arguments only. It may fail; what it yields is not empty. */
  datatype Codec = Codec(decode: Bytes -> Option<ClientId>, lower: string -> string)

  function WithLock(args: seq<Bytes>, codec: Codec, make: LockId -> Command): Command {
    if |args| != 1 || args[0] == [] then Inert([Error(WRONG_ARGS)])
    else match codec.decode(args[0])
      case Some(l) => make(l)
      case None => Inert([Error(WRONG_ARGS)])
  }

  function WithSignal(args: seq<Bytes>, codec: Codec, make: (LockId, Signal) -> Command): Command {
    if |args| != 2 || args[0] == [] || args[1] == [] then Inert([Error(WRONG_ARGS)])
    else match (codec.decode(args[0]), codec.decode(args[1]))
      case (Some(l), Some(s)) => make(l, codec.lower(s))
      case _ => Inert([Error(WRONG_ARGS)])
  }

  datatype Verb =
    | CONN | CONNINFO | AQ | AQR | RELEASE | LOCKED | SIGSET | SIGEXISTS | SIGDEL | PING | FIND | STATS | SHUTDOWN
    | PASS | OTHER

  function VerbOf(name: string): Verb {
    match name
    case "conn" => CONN
    case "conninfo" => CONNINFO
    case "aq" => AQ
    case "aqr" => AQR
    case "release" => RELEASE
    case "locked" => LOCKED
    case "sigset" => SIGSET
    case "sigexists" => SIGEXISTS
    case "sigdel" => SIGDEL
    case "ping" => PING
    case "find" => FIND
    case "stats" => STATS
    case "shutdown" => SHUTDOWN
    case "pass" => PASS
    case _ => OTHER
  }

  /** The command a verb and its raw arguments stand for. `newId` is the random id CONN hands out by itself. */
  function Interpret(verb: Verb, args: seq<Bytes>, codec: Codec, newId: ClientId, shutdownSupport: bool): Command {
    match verb
    case CONN =>
      if args == [] then ConnNew(newId)
      else if args[0] == [] then ConnRejected([Error(WRONG_ARGS)])
      else (match codec.decode(args[0])
        case Some(id) => ConnAs(id)
        case None => ConnRejected([]))
    case CONNINFO => WithLock(args, codec, _ => Inert([Bit(true)]))
    case AQ => WithLock(args, codec, l => Aq(l, false))
    case AQR => WithLock(args, codec, l => Aq(l, true))
    case RELEASE => WithLock(args, codec, l => ReleaseLock(l))
    case LOCKED => WithLock(args, codec, l => IsLocked(l))
    case SIGSET => WithSignal(args, codec, (l, s) => SigSet(l, s))
    case SIGEXISTS => WithSignal(args, codec, (l, s) => SigExists(l, s))
    case SIGDEL => WithSignal(args, codec, (l, s) => SigDel(l, s))
    case PING => Inert([Text("PONG")])
    case FIND =>
      if |args| != 1 || args[0] == [] then Inert([Error(WRONG_ARGS)])
      else Inert(if codec.decode(args[0]).Some? then [Data] else [])
    case STATS => Inert([if args != [] then Error(WRONG_ARGS) else Data])
    case SHUTDOWN => Inert([if shutdownSupport then Bit(true) else Error(UNKNOWN_COMMAND_ERROR)])
    case _ => Inert([Error(UNKNOWN_COMMAND_ERROR)])
  }

  lemma OnlyConnConnects(verb: Verb, args: seq<Bytes>, codec: Codec, newId: ClientId, shutdownSupport: bool)
    ensures IsConn(Interpret(verb, args, codec, newId, shutdownSupport)) <==> verb == CONN
  {}

  /** A connection's fixed facts, and what changes over its life. */
  datatype Setting = Setting(peer: Address, password: string, codec: Codec, shutdownSupport: bool)
  datatype Session = Session(client: Option<ClientId>, authorized: bool, closing: bool)
  datatype Processed = Processed(core: Core, session: Session, replies: seq<Reply>)

  datatype GateResult = Open | Admitted | Complained | Failed

  /** What the password gate makes of a command. */
  function Gate(setting: Setting, session: Session, verb: Verb, args: seq<Bytes>): GateResult {
    if setting.password == "" || session.authorized then Open
    else if verb == PASS && |args| == 1 && args[0] != [] then
      (match setting.codec.decode(args[0])
       case Some(p) => if p == setting.password then Admitted else Complained
       case None => Failed)
    else Complained
  }

  /** SHUTDOWN of a named connection, where it is supported. The password gate stops it only by ending the command. */
  predicate Stops(setting: Setting, session: Session, verb: Verb, args: seq<Bytes>) {
    verb == SHUTDOWN && setting.shutdownSupport && session.client.Some? &&
      Gate(setting, session, verb, args) in {Open, Complained}
  }

  /** A whole command. A complaint about the password or about a second CONN does not end it. */
  function Process(core: Core, setting: Setting, session: Session, verb: Verb, args: seq<Bytes>, newId: ClientId,
                   now: real): Processed {
    var gate := Gate(setting, session, verb, args);
    if gate == Admitted then Processed(core, session.(authorized := true), [Bit(true)])
    else if gate == Failed then Processed(core, session, [])
    else
      var served := Serve(core, session.client, setting.peer,
                          Interpret(verb, args, setting.codec, newId, setting.shutdownSupport), now);
      if gate == Open then Processed(served.core, session.(client := served.client), served.replies)
      else
        var replies := [Error(PASS_ERROR)] + served.replies;
        Processed(served.core, session.(client := served.client, closing := true), replies)
  }
}
