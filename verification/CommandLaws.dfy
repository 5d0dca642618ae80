/** What each command does, name by name, in terms of the table alone. */
module CommandLaws {
  import opened Wrappers
  import opened LockTable
  import opened Commands

  /** The holding has no deadline, or one that is still to come. */
  predicate InForce(e: Entry, now: real) {
    match e.deadline
    case None => true
    case Some(d) => d == 0.0 || now < d
  }

  /** Someone holds the lock, and that holding has not run out. */
  predicate IsHeld(t: Table, l: LockId, now: real) {
    l in t && InForce(t[l], now)
  }

  /** A connection of client `c` that has passed the password gate, if there is one. */
  predicate Speaks(setting: Setting, session: Session, c: ClientId) {
    session.client == Some(c) && (setting.password == "" || session.authorized)
  }

  predicate Reads(setting: Setting, arg: Bytes, text: string) {
    arg != [] && setting.codec.decode(arg).Some? && setting.codec.decode(arg).value == text
  }

  lemma Verbs()
    ensures VerbOf("conn") == CONN && VerbOf("conninfo") == CONNINFO && VerbOf("pass") == PASS
    ensures VerbOf("aq") == AQ && VerbOf("aqr") == AQR && VerbOf("release") == RELEASE && VerbOf("locked") == LOCKED
    ensures VerbOf("sigset") == SIGSET && VerbOf("sigexists") == SIGEXISTS && VerbOf("sigdel") == SIGDEL
    ensures VerbOf("ping") == PING && VerbOf("find") == FIND && VerbOf("stats") == STATS &&
      VerbOf("shutdown") == SHUTDOWN
  {}

  /** AQ and AQR grant a lock that nobody holds, with a fresh entry. A held lock is refused, but for AQR by its
      holder. */
  lemma AcquireDoes(core: Core, setting: Setting, session: Session, arg: Bytes, newId: ClientId, now: real,
                    c: ClientId, l: LockId, reentrant: bool)
    requires Speaks(setting, session, c) && Reads(setting, arg, l)
    ensures
      var p := Process(core, setting, session, VerbOf(if reentrant then "aqr" else "aq"), [arg], newId, now);
      if IsHeld(core.table, l, now)
      then p == Processed(core, session, [Text(if reentrant && core.table[l].owner == c then "1" else "0")])
      else p == Processed(core.(table := core.table[l := Entry(c, now, None, {})]), session, [Text("1")])
  {
    Verbs();
    hide VerbOf;
  }

  /** RELEASE by the holder frees the lock, by anyone else it does nothing. */
  lemma ReleaseDoes(core: Core, setting: Setting, session: Session, arg: Bytes, newId: ClientId, now: real,
                    c: ClientId, l: LockId)
    requires Speaks(setting, session, c) && Reads(setting, arg, l)
    ensures
      var p := Process(core, setting, session, VerbOf("release"), [arg], newId, now);
      if l in core.table && core.table[l].owner == c
      then p == Processed(core.(table := core.table - {l}), session, [Text("1")])
      else p == Processed(core, session, [Text("0")])
  {
    Verbs();
    hide VerbOf;
  }

  /** LOCKED tells whether the lock is held; only a holding that has run out goes. */
  lemma LockedDoes(core: Core, setting: Setting, session: Session, arg: Bytes, newId: ClientId, now: real,
                   c: ClientId, l: LockId)
    requires Speaks(setting, session, c) && Reads(setting, arg, l)
    ensures
      var p := Process(core, setting, session, VerbOf("locked"), [arg], newId, now);
      && p.session == session && p.replies == [Text(if IsHeld(core.table, l, now) then "1" else "0")]
      && p.core == (if l in core.table && !InForce(core.table[l], now) then core.(table := core.table - {l}) else core)
  {
    Verbs();
    hide VerbOf;
  }

  /** The table with other signals on one lock, which keeps its owner, time and deadline. */
  function Signalled(core: Core, l: LockId, signals: set<Signal>): Core
    requires l in core.table
  {
    var e := core.table[l];
    core.(table := core.table[l := Entry(e.owner, e.time, e.deadline, signals)])
  }

  /** The signal commands work on any lock in the table, whoever holds it; on others they report that there is none. */
  lemma SignalsDo(core: Core, setting: Setting, session: Session, arg: Bytes, arg': Bytes, newId: ClientId, now: real,
                  c: ClientId, l: LockId, text: string)
    requires Speaks(setting, session, c) && Reads(setting, arg, l) && Reads(setting, arg', text)
    ensures
      var s := setting.codec.lower(text);
      var added := Process(core, setting, session, VerbOf("sigset"), [arg, arg'], newId, now);
      var answered := Process(core, setting, session, VerbOf("sigexists"), [arg, arg'], newId, now);
      var removed := Process(core, setting, session, VerbOf("sigdel"), [arg, arg'], newId, now);
      if l !in core.table then added == answered == removed == Processed(core, session, [Error(8)])
      else
        var signals := core.table[l].signals;
        && added == Processed(Signalled(core, l, signals + {s}), session, [Text("1")])
        && answered == Processed(core, session, [Text(if s in signals then "1" else "0")])
        && removed == (if s in signals then Processed(Signalled(core, l, signals - {s}), session, [Text("1")])
                       else Processed(core, session, [Text("0")]))
  {
    Verbs();
    hide VerbOf;
  }

  /** The locks of `c` with this deadline, all others as they are. */
  ghost predicate Redated(t: Table, c: ClientId, deadline: Option<real>, t': Table) {
    && t'.Keys == t.Keys
    && (forall l | l in t :: t'[l] == if t[l].owner == c then Entry(c, t[l].time, deadline, t[l].signals) else t[l])
  }

  predicate Admitted(setting: Setting, session: Session) {
    setting.password == "" || session.authorized
  }

  /** CONN gives the connection the id, which it replies, records the peer's address and clears the deadlines of
      the id's locks. A second CONN is complained about and does the same. Without an id the connection gets a new
      one. */
  lemma ConnDoes(core: Core, setting: Setting, session: Session, arg: Bytes, newId: ClientId, now: real, id: ClientId)
    requires Admitted(setting, session) && Reads(setting, arg, id)
    ensures
      var named := Process(core, setting, session, VerbOf("conn"), [arg], newId, now);
      var complaint := if session.client.Some? then [Error(3)] else [];
      && named.session == session.(client := Some(id)) && named.replies == complaint + [Text(id)]
      && named.core.addresses == core.addresses[id := setting.peer] && Redated(core.table, id, None, named.core.table)
    ensures
      var renamed := Process(core, setting, session, VerbOf("conn"), [], newId, now);
      var complaint := if session.client.Some? then [Error(3)] else [];
      && renamed.session == session.(client := Some(newId)) && renamed.replies == complaint + [Text(newId)]
      && renamed.core == Core(core.table, core.addresses[newId := setting.peer])
  {
    Verbs();
    hide VerbOf;
  }

  /** The requests of a run that the names stand for. */
  lemma NamesMean(codec: Codec, arg: Bytes, arg': Bytes, newId: ClientId, support: bool)
    requires arg != [] && arg' != [] && codec.decode(arg).Some? && codec.decode(arg').Some?
    ensures
      var l, s := codec.decode(arg).value, codec.lower(codec.decode(arg').value);
      && Interpret(VerbOf("conn"), [], codec, newId, support) == ConnNew(newId)
      && Interpret(VerbOf("conn"), [arg], codec, newId, support) == ConnAs(l)
      && Interpret(VerbOf("aq"), [arg], codec, newId, support) == Aq(l, false)
      && Interpret(VerbOf("aqr"), [arg], codec, newId, support) == Aq(l, true)
      && Interpret(VerbOf("release"), [arg], codec, newId, support) == ReleaseLock(l)
      && Interpret(VerbOf("locked"), [arg], codec, newId, support) == IsLocked(l)
      && Interpret(VerbOf("sigset"), [arg, arg'], codec, newId, support) == SigSet(l, s)
      && Interpret(VerbOf("sigexists"), [arg, arg'], codec, newId, support) == SigExists(l, s)
      && Interpret(VerbOf("sigdel"), [arg, arg'], codec, newId, support) == SigDel(l, s)
  {
    Verbs();
    hide VerbOf;
  }

  predicate Unreadable(setting: Setting, arg: Bytes) {
    arg == [] || setting.codec.decode(arg).None?
  }

  /** Before its CONN a connection is told to send one. */
  lemma UnnamedDoes(core: Core, setting: Setting, session: Session, name: string, args: seq<Bytes>, newId: ClientId,
                    now: real)
    requires Admitted(setting, session) && session.client.None? && name != "conn"
    ensures Process(core, setting, session, VerbOf(name), args, newId, now) == Processed(core, session, [Error(1)])
  {}

  /** Arguments that are missing, too many, empty or not text are complained about and change nothing. */
  lemma WrongArgumentsDo(core: Core, setting: Setting, session: Session, name: string, args: seq<Bytes>,
                         newId: ClientId, now: real, c: ClientId)
    requires Speaks(setting, session, c)
    requires
      || (name in {"aq", "aqr", "release", "locked", "conninfo"} && (|args| != 1 || Unreadable(setting, args[0])))
      || (name in {"sigset", "sigexists", "sigdel"} &&
            (|args| != 2 || Unreadable(setting, args[0]) || Unreadable(setting, args[1])))
      || (name == "find" && (|args| != 1 || args[0] == []))
      || (name == "stats" && args != [])
    ensures Process(core, setting, session, VerbOf(name), args, newId, now) == Processed(core, session, [Error(2)])
  {
    Verbs();
    hide VerbOf;
  }

  /** CONN with an empty id is complained about; with one that is not text it fails without a reply of its own. */
  lemma WrongConnDoes(core: Core, setting: Setting, session: Session, args: seq<Bytes>, newId: ClientId, now: real)
    requires Admitted(setting, session) && args != [] && Unreadable(setting, args[0])
    ensures
      var complaint := if session.client.Some? then [Error(3)] else [];
      Process(core, setting, session, VerbOf("conn"), args, newId, now)
        == Processed(core, session, complaint + if args[0] == [] then [Error(2)] else [])
  {
    Verbs();
    hide VerbOf;
  }

  /** The commands that leave the store alone. */
  lemma OthersDo(core: Core, setting: Setting, session: Session, name: string, args: seq<Bytes>, newId: ClientId,
                 now: real, c: ClientId)
    requires Speaks(setting, session, c)
    requires name !in {"conn", "aq", "aqr", "release", "locked", "sigset", "sigexists", "sigdel"}
    requires name in {"conninfo", "find"} ==> |args| == 1 && !Unreadable(setting, args[0])
    requires name == "stats" ==> args == []
    ensures
      var reply :=
        if name == "ping" then Text("PONG")
        else if name == "conninfo" || (name == "shutdown" && setting.shutdownSupport) then Text("1")
        else if name in {"find", "stats"} then Data
        else Error(4);
      Process(core, setting, session, VerbOf(name), args, newId, now) == Processed(core, session, [reply])
  {}

  /** The password admits the connection. Any other first word is complained about, and then carried out all the
      same. */
  lemma PasswordDoes(core: Core, setting: Setting, session: Session, name: string, args: seq<Bytes>, newId: ClientId,
                     now: real)
    requires setting.password != "" && !session.authorized
    ensures
      var p := Process(core, setting, session, VerbOf(name), args, newId, now);
      var admitted := session.(authorized := true);
      var p' := Process(core, setting, admitted, VerbOf(name), args, newId, now);
      if name == "pass" && |args| == 1 && Reads(setting, args[0], setting.password)
      then p == Processed(core, admitted, [Text("1")])
      else if name == "pass" && |args| == 1 && args[0] != [] && Unreadable(setting, args[0])
      then p == Processed(core, session, [])
      else p == Processed(p'.core, p'.session.(authorized := false, closing := true), [Error(5)] + p'.replies)
  {
    PassIsPass(name);
    hide VerbOf, Interpret, Serve;
  }

  lemma PassIsPass(name: string)
    ensures VerbOf(name) == PASS <==> name == "pass"
  {}

  /** A lost connection that carries an id, and whose peer is on record for it or nobody is, gives all of the id's
      locks five seconds; any other changes nothing. */
  lemma LossDoes(core: Core, client: Option<ClientId>, peer: Address, now: real)
    ensures
      var after := Lose(core, client, peer, now);
      if client.Some? && (client.value in core.addresses ==> core.addresses[client.value] == peer)
      then after.addresses == core.addresses && Redated(core.table, client.value, Some(now + 5.0), after.table)
      else after == core
  {}

  /** "shutdown" by a connection that carries an id stops the server where this is supported, whatever the password
      gate says; nothing else does. */
  lemma StopsIff(setting: Setting, session: Session, name: string, args: seq<Bytes>)
    ensures Stops(setting, session, VerbOf(name), args) <==>
      name == "shutdown" && setting.shutdownSupport && session.client.Some?
  {}
}
