/** The sending side of a client's connection: opening it with a handshake, and resending a command over new ones. */
module ClientConnection {
  import opened Wrappers
  import opened ByteStrings
  import opened Replies

  /** What a connection sends: the handshake's commands, and any other. */
  datatype Message = Pass | Conn | ConnInfo | Call(payload: Bytes)

  /** What the server may see of it, socket by socket. */
  datatype Hop = Dialed(conn: nat) | Said(conn: nat, message: Message)

  /** What opening a connection comes to. A handshake that is answered with a complaint fails without a connection
      error. */
  datatype Opening = Up | Refused | Broken | Rejected

  /** What happens to a connection object. A delivery without an answer may or may not have reached the server. */
  datatype Event =
    | Open(dial: nat, opening: Opening, talk: seq<Turn>, hops: seq<Hop>)
    | Delivery(number: nat, conn: nat, message: Message, answer: Option<Response>)
    | DeadWrite
    | Pause

  /** The environment: whether the k-th socket connects, and what comes back for the k-th delivery. */
  datatype Network = Network(dials: nat -> bool, answers: nat -> Option<Response>)

  /** A socket that was closed is kept: the next command writes to it, and fails. */
  datatype Socket = NoSocket | Live | Dead

  datatype Reply = Received(response: Response) | TooLong | ConnectionError | Unaccepted

  const RECONNECT_ATTEMPTS: nat := 3

  /** One command of a handshake, what came of it, and the id the client went by when it was sent. */
  datatype Turn = Turn(message: Message, reply: Reply, id: Option<Bytes>)

  /** The circumstances of a command: the network, and whether connections opened for it begin with a handshake. */
  datatype Env = Env(network: Network, password: bool, handshake: bool)

  predicate IsUp(e: Event) {
    e.Open? && e.opening == Up
  }

  /** The command was answered, not with an error, and CONN with the id that it named. */
  predicate IsFine(t: Turn) {
    && t.reply.Received? && !t.reply.response.Raised?
    && (t.message == Conn && t.id.Some? ==> t.reply.response == Plain(t.id.value))
  }

  /** A client that had no id has the one that CONN was answered with. */
  predicate TakesId(t: Turn, clientId: Option<Bytes>) {
    IsFine(t) && t.id.None? && t.reply.response.Plain? ==> clientId == Some(t.reply.response.text)
  }

  /** The password first where there is one, then CONN, then CONNINFO. */
  function Script(password: bool): seq<Message> {
    if password then [Pass, Conn, ConnInfo] else [Conn, ConnInfo]
  }

  /** A handshake goes through the script up to the first command that does not come out well. */
  predicate IsHandshake(talk: seq<Turn>, password: bool, opening: Opening) {
    && 0 < |talk| <= |Script(password)|
    && (forall i | 0 <= i < |talk| :: talk[i].message == Script(password)[i])
    && (forall i | 0 <= i < |talk| - 1 :: IsFine(talk[i]))
    && var last := talk[|talk| - 1];
      match opening
      case Up => |talk| == |Script(password)| && IsFine(last)
      case Broken => last.reply == ConnectionError
      case Rejected => last.reply != ConnectionError && !IsFine(last)
      case Refused => false
  }

  /** A handshake on its way: everything so far came out well. */
  predicate GoesWell(talk: seq<Turn>, password: bool) {
    && |talk| <= |Script(password)|
    && (forall i | 0 <= i < |talk| :: talk[i].message == Script(password)[i] && IsFine(talk[i]))
  }

  lemma NothingSaid(password: bool)
    ensures GoesWell([], password)
  {}

  lemma NextTurn(talk: seq<Turn>, t: Turn, password: bool)
    requires GoesWell(talk, password) && |talk| < |Script(password)| && t.message == Script(password)[|talk|]
    ensures IsFine(t) ==> GoesWell(talk + [t], password)
    ensures IsFine(t) && |talk| + 1 == |Script(password)| ==> IsHandshake(talk + [t], password, Up)
    ensures !IsFine(t) ==> IsHandshake(talk + [t], password, if t.reply == ConnectionError then Broken else Rejected)
  {}

  /** Socket `k` has heard CONN and, after it, CONNINFO. */
  ghost predicate Greets(hops: seq<Hop>, k: nat) {
    exists i, j :: 0 <= i < j < |hops| && hops[i] == Said(k, Conn) && hops[j] == Said(k, ConnInfo)
  }

  /** The event is what the network made of it. */
  ghost predicate IsTrue(e: Event, env: Env) {
    match e
    case Open(dial, opening, talk, hops) =>
      && (opening == Refused <==> !env.network.dials(dial))
      && (opening == Refused ==> hops == [])
      && (opening != Refused ==> hops != [] && hops[0] == Dialed(dial))
      && (opening != Refused && env.handshake ==> IsHandshake(talk, env.password, opening))
      && (opening != Refused && !env.handshake ==> opening == Up && hops == [Dialed(dial)])
    case Delivery(number, _, _, answer) => answer == env.network.answers(number)
    case _ => true
  }

  /** The opening leads to a delivery on socket `k`: with a handshake, over a socket that has been greeted. */
  ghost predicate LeadsTo(e: Event, env: Env, k: nat) {
    IsUp(e) && (if env.handshake then Greets(e.hops, k) else k == e.dial)
  }

  predicate IsFailure(e: Event) {
    match e
    case Open(_, opening, _, _) => opening == Refused || opening == Broken
    case Delivery(_, _, _, answer) => answer.None?
    case DeadWrite => true
    case Pause => false
  }

  function Failures(events: seq<Event>): nat {
    if events == [] then 0
    else Failures(events[..|events| - 1]) + if IsFailure(events[|events| - 1]) then 1 else 0
  }

  function Pauses(events: seq<Event>): nat {
    if events == [] then 0
    else Pauses(events[..|events| - 1]) + if events[|events| - 1].Pause? then 1 else 0
  }

  function Deliveries(events: seq<Event>): nat {
    if events == [] then 0
    else Deliveries(events[..|events| - 1]) + if events[|events| - 1].Delivery? then 1 else 0
  }

  function HopsOf(e: Event): seq<Hop> {
    match e
    case Open(_, _, _, hops) => hops
    case Delivery(_, k, m, _) => [Said(k, m)]
    case _ => []
  }

  function Hops(events: seq<Event>): seq<Hop> {
    if events == [] then [] else Hops(events[..|events| - 1]) + HopsOf(events[|events| - 1])
  }

  lemma OneMoreEvent(events: seq<Event>, e: Event)
    ensures Failures(events + [e]) == Failures(events) + if IsFailure(e) then 1 else 0
    ensures Pauses(events + [e]) == Pauses(events) + if e.Pause? then 1 else 0
    ensures Deliveries(events + [e]) == Deliveries(events) + if e.Delivery? then 1 else 0
    ensures Hops(events + [e]) == Hops(events) + HopsOf(e)
  {
    assert (events + [e])[..|events|] == events;
  }

  lemma OneEvent(e: Event)
    ensures Failures([e]) == if IsFailure(e) then 1 else 0
    ensures Pauses([e]) == if e.Pause? then 1 else 0
    ensures Deliveries([e]) == if e.Delivery? then 1 else 0
    ensures Hops([e]) == HopsOf(e)
  {
    OneMoreEvent([], e);
    hide Failures, Pauses, Deliveries;
    assert [] + [e] == [e];
    assert Hops([]) + HopsOf(e) == HopsOf(e);
    NoEvents();
  }

  lemma NoEvents()
    ensures Failures([]) == Pauses([]) == Deliveries([]) == 0 && Hops([]) == []
  {}

  /** Every delivery is of this message and goes out over a connection opened right before it, but for one that
      finds the connection alive; and only the last event may be an answered delivery. */
  ghost predicate Orderly(events: seq<Event>, m: Message, live: bool, env: Env) {
    forall i {:trigger events[i]} :: 0 <= i < |events| ==>
      && IsTrue(events[i], env)
      && (events[i].Delivery? ==>
           && events[i].message == m
           && (if i == 0 then live else LeadsTo(events[i - 1], env, events[i].conn))
           && (events[i].answer.Some? ==> i == |events| - 1))
  }

  predicate Quiet(events: seq<Event>) {
    forall e | e in events :: e.Delivery? ==> e.answer == None
  }

  lemma OrderlyOneMore(events: seq<Event>, e: Event, m: Message, live: bool, env: Env)
    requires Orderly(events, m, live, env) && Quiet(events) && IsTrue(e, env)
    requires e.Delivery? ==>
      e.message == m && (if events == [] then live else LeadsTo(events[|events| - 1], env, e.conn))
    ensures Orderly(events + [e], m, live, env)
    ensures (e.Delivery? ==> e.answer == None) ==> Quiet(events + [e])
  {
    hide IsTrue, LeadsTo;
    var all := events + [e];
    forall i | 0 <= i < |events|
      ensures IsTrue(all[i], env)
      ensures all[i].Delivery? ==> all[i].message == m && all[i].answer == None
      ensures all[i].Delivery? ==> if i == 0 then live else LeadsTo(all[i - 1], env, all[i].conn)
    {
      assert events[i] == all[i] && events[i] in events && (i > 0 ==> events[i - 1] == all[i - 1]);
    }
  }

  /** An orderly command is delivered at most once more than it fails. */
  lemma {:induction false} FewDeliveries(events: seq<Event>, m: Message, live: bool, env: Env)
    requires Orderly(events, m, live, env)
    ensures Deliveries(events) <= Failures(events) + 1
    ensures (events != [] && events[|events| - 1].Delivery? && events[|events| - 1].answer.Some?)
      || Deliveries(events) <= Failures(events)
  {
    if events != [] {
      hide IsTrue;
      var before := events[..|events| - 1];
      forall i | 0 <= i < |before|
        ensures IsTrue(before[i], env)
        ensures before[i].Delivery? ==> before[i].message == m && before[i].answer.None?
        ensures before[i].Delivery? ==> if i == 0 then live else LeadsTo(before[i - 1], env, before[i].conn)
      {
        assert before[i] == events[i] && (i > 0 ==> before[i - 1] == events[i - 1]);
      }
      FewDeliveries(before, m, live, env);
    }
  }

  predicate IsDelivery(e: Event, m: Message, answer: Option<Response>) {
    e.Delivery? && e.message == m && e.answer == answer
  }

  /** How one round of the loop may go. */
  datatype Outcome = Answered(response: Response) | NoAnswer | Complaint

  function AnswerOf(o: Outcome): Option<Response> {
    if o.Answered? then Some(o.response) else None
  }

  ghost predicate IsRound(round: seq<Event>, m: Message, reopen: bool, live: bool, o: Outcome, env: Env) {
    && (forall e | e in round :: IsTrue(e, env))
    && if reopen then
      || (|round| == 2 && IsDelivery(round[1], m, AnswerOf(o)) && o != Complaint &&
           LeadsTo(round[0], env, round[1].conn))
      || (|round| == 1 && round[0].Open? && IsFailure(round[0]) && o == NoAnswer)
      || (|round| == 1 && round[0].Open? && round[0].opening == Rejected && o == Complaint)
    else if live then |round| == 1 && IsDelivery(round[0], m, AnswerOf(o)) && o != Complaint
    else round == [DeadWrite] && o == NoAnswer
  }

  /** What a first delivery on socket `k` comes after. */
  ghost predicate FreshStart(events: seq<Event>, live: bool, env: Env, k: nat) {
    (|events| == 1 && LeadsTo(events[0], env, k)) || (events == [] && live)
  }

  lemma OneMoreRound(events: seq<Event>, round: seq<Event>, m: Message, reopen: bool, sockLive: bool, live: bool,
                     o: Outcome, env: Env)
    requires Orderly(events, m, live, env) && Quiet(events) && IsRound(round, m, reopen, sockLive, o, env)
    requires !reopen && sockLive ==> FreshStart(events, live, env, round[0].conn)
    ensures Orderly(events + round, m, live, env) && round != []
    ensures Failures(events + round) == Failures(events) + if o == NoAnswer then 1 else 0
    ensures Pauses(events + round) == Pauses(events) && Hops(events + round) == Hops(events) + Hops(round)
    ensures !o.Answered? ==> Quiet(events + round)
    ensures o.Answered? ==> IsDelivery(round[|round| - 1], m, Some(o.response))
  {
    hide Failures, Pauses, Deliveries, Hops, HopsOf, Orderly, Quiet, IsTrue, LeadsTo;
    var e := round[0];
    assert e in round;
    if |round| == 2 { UpIsUp(e, env, round[1].conn); }
    OneMoreEvent(events, e);
    OneEvent(e);
    OrderlyOneMore(events, e, m, live, env);
    if |round| == 2 {
      var e' := round[1];
      assert e' in round;
      OneMoreEvent(events + [e], e');
      OneMoreEvent([e], e');
      OrderlyOneMore(events + [e], e', m, live, env);
      assert round == [e] + [e'];
      Regroup(Hops(events), HopsOf(e), HopsOf(e'));
      assert events + round == events + [e] + [e'];
    } else {
      assert round == [e];
    }
  }

  /** How a command that was begun with socket `sock` may end, `events` being all that happened. */
  predicate Concluded(events: seq<Event>, r: Reply, m: Message, reconnect: bool, sock: Socket, fits: bool) {
    var limit := if reconnect then 3 else 1;
    match r
    case Received(response) =>
      && fits && events != [] && IsDelivery(events[|events| - 1], m, Some(response))
      && Failures(events) < limit && Pauses(events) == (if Failures(events) == 2 then 1 else 0)
    case TooLong =>
      !fits && (if sock == NoSocket then |events| == 1 && IsUp(events[0]) else events == [])
    case ConnectionError =>
      && Quiet(events)
      && (|| (sock == NoSocket && |events| == 1 && IsFailure(events[0]))
          || (fits && Failures(events) == limit && Pauses(events) == (if reconnect then 1 else 0)))
    case Unaccepted =>
      && Quiet(events) && events != [] && events[|events| - 1].Open? && events[|events| - 1].opening == Rejected
      && Failures(events) < limit && (fits || (sock == NoSocket && |events| == 1))
  }

  /** A command reaches the wire at most three times, and once only where reconnecting is not allowed. */
  lemma DeliversAtMostThrice(events: seq<Event>, r: Reply, m: Message, reconnect: bool, sock: Socket, fits: bool,
                             env: Env)
    requires Orderly(events, m, sock == Live, env) && Concluded(events, r, m, reconnect, sock, fits)
    ensures Deliveries(events) <= if reconnect then 3 else 1
    ensures Deliveries(events) == 0 || !fits ==> !r.Received?
  {
    FewDeliveries(events, m, sock == Live, env);
    match r
    case Received(_) =>
    case TooLong =>
      if events != [] { OneMoreEvent([], events[0]); }
    case _ =>
      if |events| == 1 { OneMoreEvent([], events[0]); }
      if events != [] { assert events[|events| - 1] in events; }
  }

  lemma Regroup(a: seq<Hop>, b: seq<Hop>, c: seq<Hop>)
    ensures a + b + c == a + (b + c)
  {}

  /** What the loop knows with `attempts` left. */
  ghost predicate Underway(events: seq<Event>, m: Message, reconnect: bool, live: bool, attempts: nat, env: Env) {
    && Orderly(events, m, live, env) && Quiet(events)
    && 0 < attempts <= RECONNECT_ATTEMPTS
    && attempts + Failures(events) == RECONNECT_ATTEMPTS
    && Pauses(events) == (if attempts == 1 then 1 else 0)
    && (attempts < RECONNECT_ATTEMPTS ==> reconnect)
  }

  /** One round leads to an answer, to a complaint, to giving up, or on. */
  lemma RoundDone(events: seq<Event>, round: seq<Event>, m: Message, reconnect: bool, reopen: bool, sock: Socket,
                  sockLive: bool, attempts: nat, o: Outcome, fits: bool, env: Env)
    requires Underway(events, m, reconnect, sock == Live, attempts, env) && fits
    requires IsRound(round, m, reopen, sockLive, o, env)
    requires !reopen && sockLive ==> FreshStart(events, sock == Live, env, round[0].conn)
    ensures Orderly(events + round, m, sock == Live, env) && Hops(events + round) == Hops(events) + Hops(round)
    ensures o.Answered? ==> Concluded(events + round, Received(o.response), m, reconnect, sock, fits)
    ensures o == Complaint ==> Concluded(events + round, Unaccepted, m, reconnect, sock, fits)
    ensures
      o == NoAnswer && (!reconnect || attempts == 1) ==>
      Concluded(events + round, ConnectionError, m, reconnect, sock, fits)
    ensures
      o == NoAnswer && reconnect && attempts > 1 ==>
      Underway(if attempts == 2 then events + round + [Pause] else events + round, m, reconnect, sock == Live,
               attempts - 1, env)
    ensures Hops(events + round + [Pause]) == Hops(events + round)
  {
    hide IsTrue, LeadsTo, Orderly, Quiet, Failures, Pauses, Hops;
    RoundIsEvents(round, m, reopen, sockLive, o, env);
    OneMoreRound(events, round, m, reopen, sockLive, sock == Live, o, env);
    hide IsRound;
    OneMoreEvent(events + round, Pause);
    if o == NoAnswer {
      assert IsTrue(Pause, env) by { PauseIsTrue(env); }
      OrderlyOneMore(events + round, Pause, m, sock == Live, env);
    }
  }

  /** A command that ends before its loop: the connection does not open, or the payload is too long. */
  lemma EndsAtOnce(events: seq<Event>, m: Message, reconnect: bool, sock: Socket, fits: bool, env: Env)
    requires if sock == NoSocket then |events| == 1 && events[0].Open? && IsTrue(events[0], env) else events == []
    ensures Orderly(events, m, sock == Live, env)
    ensures sock == NoSocket && events[0].opening == Rejected ==>
      Concluded(events, Unaccepted, m, reconnect, sock, fits)
    ensures sock == NoSocket && (events[0].opening == Refused || events[0].opening == Broken) ==>
      Concluded(events, ConnectionError, m, reconnect, sock, fits)
    ensures !fits && (sock == NoSocket ==> IsUp(events[0])) ==> Concluded(events, TooLong, m, reconnect, sock, fits)
  {
    hide IsTrue;
    if sock == NoSocket {
      OneEvent(events[0]);
      assert events == [events[0]];
    }
  }

  lemma PauseIsTrue(env: Env)
    ensures IsTrue(Pause, env)
  {}

  lemma Begin(events: seq<Event>, m: Message, reconnect: bool, live: bool, env: Env)
    requires events == [] || (|events| == 1 && IsUp(events[0]) && IsTrue(events[0], env))
    ensures Underway(events, m, reconnect, live, RECONNECT_ATTEMPTS, env)
  {
    NoEvents();
    if events != [] {
      OneEvent(events[0]);
      hide Failures, Pauses, Deliveries, Hops;
      assert events == [events[0]];
    }
  }

  // What the server may see.

  /** Sockets are used one after the other, and CONN is said at most once on each. */
  ghost predicate Proper(wire: seq<Hop>) {
    && (forall i, j | 0 <= i < j < |wire| ::
         if wire[j].Dialed? then wire[i].conn < wire[j].conn else wire[i].conn <= wire[j].conn)
    && (forall i, j | 0 <= i < j < |wire| ::
         !(wire[i] == Said(wire[j].conn, Conn) && wire[j] == Said(wire[j].conn, Conn)))
  }

  /** All hops are over sockets dialled so far. */
  ghost predicate Within(wire: seq<Hop>, dialed: nat) {
    forall h | h in wire :: h.conn < dialed
  }

  lemma DiallingIsProper(wire: seq<Hop>, dialed: nat)
    requires Proper(wire) && Within(wire, dialed)
    ensures Proper(wire + [Dialed(dialed)]) && Within(wire + [Dialed(dialed)], dialed + 1)
    ensures Said(dialed, Conn) !in wire + [Dialed(dialed)]
  {
    forall i | 0 <= i < |wire| ensures wire[i].conn < dialed {
      assert wire[i] in wire;
    }
  }

  lemma SayingIsProper(wire: seq<Hop>, dialed: nat, m: Message)
    requires Proper(wire) && Within(wire, dialed) && 0 < dialed && (m == Conn ==> Said(dialed - 1, Conn) !in wire)
    ensures Proper(wire + [Said(dialed - 1, m)]) && Within(wire + [Said(dialed - 1, m)], dialed)
    ensures m != Conn && Said(dialed - 1, Conn) !in wire ==> Said(dialed - 1, Conn) !in wire + [Said(dialed - 1, m)]
  {
    forall i | 0 <= i < |wire| ensures wire[i].conn <= dialed - 1 && wire[i] in wire {
      assert wire[i] in wire;
    }
  }

  lemma GreetingStays(before: seq<Hop>, hops: seq<Hop>, after: seq<Hop>, k: nat)
    requires Greets(hops, k)
    ensures Greets(before + hops + after, k)
  {
    var i, j :| 0 <= i < j < |hops| && hops[i] == Said(k, Conn) && hops[j] == Said(k, ConnInfo);
    var n, all := |before|, before + hops + after;
    assert all[n + i] == Said(k, Conn) && all[n + j] == Said(k, ConnInfo);
  }

  lemma GreetingStaysAfter(before: seq<Hop>, hops: seq<Hop>, k: nat)
    requires Greets(hops, k)
    ensures Greets(before + hops, k)
  {
    GreetingStays(before, hops, [], k);
    assert before + hops + [] == before + hops;
  }

  /** A command that was delivered over a connection opened for it comes after that connection's greeting. */
  lemma DeliveryIsGreeted(events: seq<Event>, m: Message, live: bool, env: Env)
    requires Orderly(events, m, live, env) && env.handshake && |events| > 1 && events[|events| - 1].Delivery?
    ensures Greets(Hops(events), events[|events| - 1].conn)
  {
    var n, k := |events| - 2, events[|events| - 1].conn;
    assert LeadsTo(events[n], env, k);
    hide Orderly, LeadsTo, Hops, IsTrue, Greets, Failures, Pauses, Deliveries;
    UpIsGreeted(events[n], env, k);
    HopsOfLastTwo(events);
    GreetingStays(Hops(events[..n]), events[n].hops, HopsOf(events[n + 1]), k);
  }

  lemma HopsOfLastTwo(events: seq<Event>)
    requires |events| > 1
    ensures
      var n := |events| - 2;
      Hops(events) == Hops(events[..n]) + HopsOf(events[n]) + HopsOf(events[n + 1])
  {
    assert events[..|events| - 1][..|events| - 2] == events[..|events| - 2];
  }

  lemma UpIsGreeted(e: Event, env: Env, k: nat)
    requires LeadsTo(e, env, k) && env.handshake
    ensures e.Open? && Greets(e.hops, k) && HopsOf(e) == e.hops
  {}

  lemma GreetedHasHeard(before: seq<Hop>, hops: seq<Hop>, k: nat)
    requires Greets(hops, k)
    ensures Said(k, Conn) in before + hops
  {
    var i, j :| 0 <= i < j < |hops| && hops[i] == Said(k, Conn) && hops[j] == Said(k, ConnInfo);
    assert (before + hops)[|before| + i] == Said(k, Conn);
  }

  /** CONN as the last hop so far, and CONNINFO as the next one, greet the socket. */
  lemma GreetingDone(hops: seq<Hop>, k: nat)
    requires hops != [] && hops[|hops| - 1] == Said(k, Conn)
    ensures Greets(hops + [Said(k, ConnInfo)], k)
  {
    var all := hops + [Said(k, ConnInfo)];
    assert all[|hops| - 1] == Said(k, Conn) && all[|hops|] == Said(k, ConnInfo);
  }

  /** CONN went out last, and then CONNINFO, over the same socket or over new ones with a greeting of their own. */
  lemma GreetingCompleted(named: seq<Hop>, k: nat, events: seq<Event>, k': nat, env: Env)
    requires named != [] && named[|named| - 1] == Said(k, Conn) && env.handshake
    requires Orderly(events, ConnInfo, true, env) && events != [] && events[|events| - 1].Delivery?
    requires events[|events| - 1].conn == k' && (|events| == 1 ==> k == k')
    ensures Greets(named + Hops(events), k')
  {
    if |events| == 1 {
      OneEvent(events[0]);
      assert events == [events[0]];
      GreetingDone(named, k);
    } else {
      DeliveryIsGreeted(events, ConnInfo, true, env);
      GreetingStays(named, Hops(events), [], k');
      assert named + Hops(events) + [] == named + Hops(events);
    }
  }

  lemma LastHop(events: seq<Event>)
    requires events != [] && events[|events| - 1].Delivery?
    ensures
      var last, hops := events[|events| - 1], Hops(events);
      hops != [] && hops[|hops| - 1] == Said(last.conn, last.message)
  {}

  /** The sending side of a connection; its parser is a module of its own. */
  class LiveLockConnection {
    const network: Network
    const maxPayload: nat
    const encode: Message -> Bytes
    const password: bool
    var clientId: Option<Bytes>
    var sock: Socket
    var dialed: nat
    var sent: nat
    /** Everything put on the wire, handshakes included. */
    ghost var wire: seq<Hop>

    constructor (network: Network, maxPayload: nat, encode: Message -> Bytes, password: bool, clientId: Option<Bytes>)
      ensures Valid() && sock == NoSocket && wire == []
      ensures this.network == network && this.maxPayload == maxPayload && this.encode == encode &&
        this.password == password
    {
      this.network, this.maxPayload, this.encode, this.password, this.clientId := network, maxPayload, encode,
        password, clientId;
      sock, dialed, sent, wire := NoSocket, 0, 0, [];
    }

    ghost predicate Valid()
      reads this
    {
      Proper(wire) && Within(wire, dialed) && (sock != NoSocket ==> 0 < dialed)
    }

    /** The socket in use has not heard CONN yet. */
    ghost predicate Unnamed()
      reads this
    {
      sock == Live && 0 < dialed && Said(dialed - 1, Conn) !in wire
    }

    ghost function Circumstances(handshake: bool): Env
      reads this
    {
      Env(network, password, handshake)
    }

    /** A new socket, and over it the handshake if one is wanted. */
    method Connect(reconnect: bool, handshake: bool) returns (opening: Opening, ghost e: Event)
      requires Valid()
      modifies this
      ensures e.Open? && e.opening == opening && IsTrue(e, Circumstances(handshake)) && e.dial == old(dialed)
      ensures Valid() && wire == old(wire) + e.hops
      ensures opening == Up ==> sock == Live && LeadsTo(e, Circumstances(handshake), dialed - 1)
      ensures opening == Up ==> (Said(dialed - 1, Conn) in wire <==> handshake)
      ensures opening == Refused || opening == Broken ==> sock != Live
      ensures old(clientId).Some? || !handshake ==> clientId == old(clientId)
      decreases if reconnect then 1 else 0, 4
    {
      ghost var dial := dialed;
      if !network.dials(dialed) {
        sock, dialed := NoSocket, dialed + 1;
        assert wire == wire + [];
        return Refused, Open(dial, Refused, [], []);
      }
      DiallingIsProper(wire, dialed);
      hide Proper, Within, IsHandshake, Greets;
      ghost var hops, talk := [Dialed(dialed)], [];
      sock, wire, dialed := Live, wire + hops, dialed + 1;
      opening := Up;
      if handshake {
        ghost var said;
        opening, talk, said := SendConnect(reconnect);
        Regroup(old(wire), hops, said);
        if opening == Up { GreetingStaysAfter(hops, said, dialed - 1); }
        hops := hops + said;
      }
      e := Open(dial, opening, talk, hops);
    }

    /** The handshake: the password, CONN and CONNINFO. A client without an id takes the one that CONN is answered
        with. */
    method SendConnect(reconnect: bool) returns (opening: Opening, ghost talk: seq<Turn>, ghost hops: seq<Hop>)
      requires Valid() && Unnamed()
      modifies this
      ensures Valid() && wire == old(wire) + hops && IsHandshake(talk, password, opening)
      ensures opening == Up ==> sock == Live && Greets(hops, dialed - 1) && Said(dialed - 1, Conn) in wire
      ensures opening == Broken ==> sock != Live
      ensures old(clientId).Some? ==> clientId == old(clientId)
      ensures
        var i := if password then 1 else 0;
        |talk| > i ==> talk[i].id == old(clientId) && TakesId(talk[i], clientId)
      decreases if reconnect then 1 else 0, 3
    {
      hide Hops, Proper, Within, Orderly, LeadsTo, Failures, Pauses, IsHandshake, GoesWell, Greets, IsTrue, Quiet;
      hops, talk := [], [];
      ghost var id := clientId;
      assert wire == old(wire) + hops && GoesWell(talk, password) by { NothingSaid(password); }
      if password {
        var r, events := SendCommand(Pass, false, true);
        NextTurn(talk, Turn(Pass, r, id), password);
        hops, talk := Hops(events), talk + [Turn(Pass, r, id)];
        if !r.Received? { return if r == ConnectionError then Broken else Rejected, talk, hops; }
        if r.response.Raised? { return Rejected, talk, hops; }
      }
      ghost var said;
      opening, talk, said := SayConn(reconnect, talk);
      Regroup(old(wire), hops, said);
      if opening == Up { GreetingStaysAfter(hops, said, dialed - 1); }
      hops := hops + said;
    }

    /** CONN and CONNINFO, after what was said before. */
    method SayConn(reconnect: bool, ghost before: seq<Turn>)
      returns (opening: Opening, ghost talk: seq<Turn>, ghost hops: seq<Hop>)
      requires Valid() && Unnamed() && GoesWell(before, password) && |before| == if password then 1 else 0
      modifies this
      ensures Valid() && wire == old(wire) + hops && IsHandshake(talk, password, opening)
      ensures opening == Up ==> sock == Live && Greets(hops, dialed - 1) && Said(dialed - 1, Conn) in wire
      ensures opening == Broken ==> sock != Live
      ensures old(clientId).Some? ==> clientId == old(clientId)
      ensures |talk| > |before| && talk[|before|].id == old(clientId) && TakesId(talk[|before|], clientId)
      decreases if reconnect then 1 else 0, 2
    {
      hide Hops, Proper, Within, Orderly, LeadsTo, Failures, Pauses, IsHandshake, GoesWell, Greets, IsTrue, Quiet;
      ghost var id := clientId;
      var r, events := SendCommand(Conn, reconnect, false);
      NextTurn(before, Turn(Conn, r, id), password);
      hops, talk := Hops(events), before + [Turn(Conn, r, id)];
      if !r.Received? { return if r == ConnectionError then Broken else Rejected, talk, hops; }
      if r.response.Raised? { return Rejected, talk, hops; }
      if clientId.Some? {
        if r.response != Plain(clientId.value) { return Rejected, talk, hops; }
      } else if r.response.Plain? {
        clientId := Some(r.response.text);
      }
      LastHop(events);
      ghost var named, k, info := hops, dialed - 1, clientId;
      r, events := SendCommand(ConnInfo, reconnect, true);
      NextTurn(talk, Turn(ConnInfo, r, info), password);
      Regroup(old(wire), hops, Hops(events));
      hops, talk := hops + Hops(events), talk + [Turn(ConnInfo, r, info)];
      if !r.Received? { return if r == ConnectionError then Broken else Rejected, talk, hops; }
      if r.response.Raised? { return Rejected, talk, hops; }
      GreetingCompleted(named, k, events, dialed - 1, Circumstances(true));
      GreetedHasHeard(old(wire), hops, dialed - 1);
      return Up, talk, hops;
    }

    /** Writes the message and waits for the reply. */
    method Exchange(m: Message, ghost env: Env) returns (answer: Option<Response>, ghost e: Event)
      requires Valid() && (m == Conn && sock == Live ==> Unnamed()) && env.network == network
      modifies this`sent, this`wire
      ensures Valid() && wire == old(wire) + HopsOf(e) && IsTrue(e, env)
      ensures sock == Live ==> IsDelivery(e, m, answer) && sent == old(sent) + 1 && e.number == old(sent)
      ensures sock == Live ==> e.conn == dialed - 1
      ensures old(Unnamed()) && m != Conn ==> Unnamed()
      ensures sock != Live ==> e == DeadWrite && sent == old(sent) && answer == None
    {
      if sock != Live {
        assert wire == wire + [];
        return None, DeadWrite;
      }
      SayingIsProper(wire, dialed, m);
      answer := network.answers(sent);
      e := Delivery(sent, dialed - 1, m, answer);
      sent, wire := sent + 1, wire + [Said(dialed - 1, m)];
    }

    method Close()
      requires Valid()
      modifies this`sock
      ensures Valid() && sock != Live && (sock == NoSocket <==> old(sock) == NoSocket)
    {
      if sock != NoSocket { sock := Dead; }
    }

    /** The body of the loop's `try`: a new connection if the last one failed, then one exchange. */
    method Round(m: Message, reopen: bool, handshake: bool, ghost reconnect: bool)
      returns (o: Outcome, ghost round: seq<Event>)
      requires Valid() && (reopen ==> reconnect)
      requires m == Conn ==> !handshake && (!reopen && sock == Live ==> Unnamed())
      modifies this
      ensures Valid() && wire == old(wire) + Hops(round)
      ensures IsRound(round, m, reopen, old(sock) == Live, o, Circumstances(handshake))
      ensures o.Answered? ==> sock == Live && round[|round| - 1].conn == dialed - 1
      ensures !reopen ==> sock == old(sock) && dialed == old(dialed) && (old(Unnamed()) && m != Conn ==> Unnamed())
      ensures !reopen && sock == Live ==> round[0].conn == dialed - 1
      ensures old(clientId).Some? || !handshake || !reopen ==> clientId == old(clientId)
      decreases if reconnect then 1 else 0, 0
    {
      hide Failures, Pauses, Deliveries, Hops, Proper, Within, IsTrue, LeadsTo;
      NoEvents();
      round := [];
      if reopen {
        sock := NoSocket;
        var opening, first := Connect(false, handshake);
        OneEvent(first);
        round := [first];
        if opening == Rejected { return Complaint, round; }
        if opening != Up { return NoAnswer, round; }
      }
      var answer, e := Exchange(m, Circumstances(handshake));
      OneMoreEvent(round, e);
      OneEvent(e);
      Regroup(old(wire), Hops(round), HopsOf(e));
      round := round + [e];
      return if answer.Some? then Answered(answer.value) else NoAnswer, round;
    }

    /** Gives up after one failure, or three where reconnecting is allowed, and not before. */
    method SendCommand(m: Message, reconnect: bool, handshake: bool) returns (r: Reply, ghost events: seq<Event>)
      requires Valid() && (m == Conn ==> !handshake && Unnamed())
      modifies this
      ensures Valid() && wire == old(wire) + Hops(events)
      ensures Orderly(events, m, old(sock) == Live, Circumstances(handshake))
      ensures Concluded(events, r, m, reconnect, old(sock), |encode(m)| <= maxPayload + 1)
      ensures r.Received? ==> sock == Live && events[|events| - 1].conn == dialed - 1
      ensures r.Received? && |events| == 1 ==> dialed == old(dialed)
      ensures r == ConnectionError ==> sock != Live
      ensures old(sock) == Dead && !reconnect ==>
        (r == TooLong && events == []) || (r == ConnectionError && events == [DeadWrite])
      ensures old(Unnamed()) && !reconnect && m != Conn && r.Received? ==> Unnamed()
      ensures old(clientId).Some? || !handshake || (!reconnect && old(sock) != NoSocket) ==> clientId == old(clientId)
      decreases if reconnect then 1 else 0, if sock == NoSocket then 5 else 1
    {
      hide Failures, Pauses, Deliveries, Hops, Proper, Within, LeadsTo, IsTrue, Underway, Concluded, Orderly, IsRound;
      NoEvents();
      events := [];
      ghost var env := Circumstances(handshake);
      if sock == NoSocket {
        var opening, e := Connect(reconnect, handshake);
        OneEvent(e);
        events := [e];
        EndsAtOnce(events, m, reconnect, NoSocket, |encode(m)| <= maxPayload + 1, env);
        if opening == Rejected { return Unaccepted, events; }
        if opening != Up { return ConnectionError, events; }
        UpIsUp(e, env, dialed - 1);
      }
      EndsAtOnce(events, m, reconnect, old(sock), |encode(m)| <= maxPayload + 1, env);
      Begin(events, m, reconnect, old(sock) == Live, env);
      if |encode(m)| > maxPayload + 1 { return TooLong, events; }
      var attempts := RECONNECT_ATTEMPTS;
      var reconnectPhase := false;
      while attempts > 0
        invariant 0 < attempts <= RECONNECT_ATTEMPTS && Valid() && (reconnectPhase ==> reconnect)
        invariant wire == old(wire) + Hops(events) && Underway(events, m, reconnect, old(sock) == Live, attempts, env)
        invariant !reconnectPhase && sock == Live ==> FreshStart(events, old(sock) == Live, env, dialed - 1)
        invariant !reconnectPhase && sock == Live && m == Conn ==> Unnamed()
        invariant old(sock) == Dead && !reconnect ==> sock == Dead && events == [] && !reconnectPhase
        invariant old(Unnamed()) && !reconnect ==> Unnamed() && events == []
        invariant events == [] ==> dialed == old(dialed) && !reconnectPhase
        invariant old(clientId).Some? || !handshake || (!reconnect && old(sock) != NoSocket) ==>
          clientId == old(clientId)
      {
        ghost var sockLive := sock == Live;
        var o, round := Round(m, reconnectPhase, handshake, reconnect);
        RoundIsEvents(round, m, reconnectPhase, sockLive, o, env);
        RoundDone(events, round, m, reconnect, reconnectPhase, old(sock), sockLive, attempts, o, true, env);
        Regroup(old(wire), Hops(events), Hops(round));
        events := events + round;
        if o.Answered? { return Received(o.response), events; }
        if o == Complaint { return Unaccepted, events; }
        attempts := attempts - 1;
        Close();
        if !reconnect || attempts == 0 { return ConnectionError, events; }
        if attempts != RECONNECT_ATTEMPTS - 1 {
          events := events + [Pause];
        }
        reconnectPhase := true;
      }
      assert false;
    }
  }

  lemma UpIsUp(e: Event, env: Env, k: nat)
    requires LeadsTo(e, env, k)
    ensures IsUp(e)
  {}

  lemma RoundIsEvents(round: seq<Event>, m: Message, reopen: bool, live: bool, o: Outcome, env: Env)
    requires IsRound(round, m, reopen, live, o, env)
    ensures round != [] && (reopen && o.Answered? ==> |round| == 2) && (!reopen && live ==> round[0].Delivery?)
    ensures o == Complaint ==> round[|round| - 1].Open? && round[|round| - 1].opening == Rejected
    ensures !reopen && !live ==> round == [DeadWrite] && [] + round == round
  {}
}
