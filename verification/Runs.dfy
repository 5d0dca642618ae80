/** Whole runs of the server: many connections, many clients, one clock. */
module Runs {
  import opened Wrappers
  import opened LockTable
  import opened Commands

  type ConnId = nat

  datatype Link = Link(peer: Address, client: Option<ClientId>, open: bool)

  /** `latest` only observes: it names the connection of each client's last CONN. */
  datatype World = World(core: Core, links: map<ConnId, Link>, latest: map<ClientId, ConnId>, now: real)

  datatype Event =
    | Opened(conn: ConnId, peer: Address)
    | Request(conn: ConnId, cmd: Command)
    | Lost(conn: ConnId)
    | Maintenance
    // an orderly stop, and a start that loads the final dump from `loadedAt` on
    | Restart(timeout: real, loadedAt: real)

  ghost predicate Initial(w: World) {
    w.core == Core(map[], map[]) && w.links == map[] && w.latest == map[] && 0.0 < w.now
  }

  /** Connections that are open at the same time have different peer addresses. */
  ghost predicate PeerIsNew(w: World, peer: Address) {
    forall k | k in w.links && w.links[k].open :: w.links[k].peer != peer
  }

  /** The event happens at time `w'.now`. LOCKED may leave an expired lock for later collection: a command that was
      under way when the final dump was written may have collected one that is in the dump. */
  ghost predicate Step(w: World, e: Event, w': World) {
    && w.now <= w'.now
    && match e
       case Opened(k, peer) =>
         && k !in w.links && PeerIsNew(w, peer)
         && w' == w.(links := w.links[k := Link(peer, None, true)], now := w'.now)
       case Request(k, cmd) =>
         && k in w.links && w.links[k].open
         && var served := Serve(w.core, w.links[k].client, w.links[k].peer, cmd, w'.now);
         && (w'.core == served.core || (cmd.IsLocked? && w'.core == w.core))
         && w'.links == w.links[k := w.links[k].(client := served.client)]
         && w'.latest == (if cmd.ConnAs? || cmd.ConnNew? then w.latest[cmd.id := k] else w.latest)
       case Lost(k) =>
         && k in w.links && w.links[k].open
         && w'.core == Lose(w.core, w.links[k].client, w.links[k].peer, w'.now)
         && w'.links == w.links[k := w.links[k].(open := false)]
         && w'.latest == w.latest
       case Maintenance =>
         && Collects(w.core.table, w'.core.table, w'.now)
         && Forgets(w.core.addresses, w'.core.addresses, w'.core.table)
         && w' == w.(core := w'.core, now := w'.now)
       case Restart(timeout, loadedAt) =>
         && 0.0 < timeout && w.now <= loadedAt <= w'.now
         && Loads(w.core.table, w'.core.table, loadedAt, w'.now, timeout)
         && Forgets(w.core.addresses, w'.core.addresses, w'.core.table)
         && w'.links == (map k | k in w.links :: w.links[k].(open := false))
         && w'.latest == w.latest
  }

  datatype Run = Run(worlds: seq<World>, events: seq<Event>)

  ghost predicate StepAt(r: Run, i: nat)
    requires i < |r.events| < |r.worlds|
  {
    Step(r.worlds[i], r.events[i], r.worlds[i + 1])
  }

  /** The trigger keeps a long run from being unfolded at every index mentioned. */
  ghost predicate IsRun(r: Run) {
    && |r.worlds| == |r.events| + 1
    && Initial(r.worlds[0])
    && (forall i {:trigger StepAt(r, i)} | 0 <= i < |r.events| :: StepAt(r, i))
  }

  function Extend(r: Run, e: Event, w: World): Run {
    Run(r.worlds + [w], r.events + [e])
  }

  function Final(r: Run): World
    requires r.worlds != []
  {
    r.worlds[|r.worlds| - 1]
  }

  lemma ExtendIsRun(r: Run, e: Event, w: World)
    requires IsRun(r) && Step(Final(r), e, w)
    ensures IsRun(Extend(r, e, w)) && Extend(r, e, w).worlds != [] && Final(Extend(r, e, w)) == w
  {
    var r' := Extend(r, e, w);
    forall i | 0 <= i < |r'.events| ensures StepAt(r', i) {
      if i < |r.events| {
        assert StepAt(r, i);
      }
    }
  }

  /** What the sender of the request at `i` is answered. */
  function RepliesAt(r: Run, i: nat): seq<Reply>
    requires i < |r.events| < |r.worlds| && r.events[i].Request? && r.events[i].conn in r.worlds[i].links
  {
    var link := r.worlds[i].links[r.events[i].conn];
    Serve(r.worlds[i].core, link.client, link.peer, r.events[i].cmd, r.worlds[i + 1].now).replies
  }

  // What one step does to one lock.

  /** The request comes from a connection that carries id `c`. */
  ghost predicate Sent(w: World, e: Event, c: ClientId) {
    e.Request? && e.conn in w.links && w.links[e.conn].client == Some(c)
  }

  /** A fresh grant: the lock was free. A re-entry is not one. */
  ghost predicate Grants(w: World, e: Event, w': World, c: ClientId, l: LockId) {
    Sent(w, e, c) && e.cmd.Aq? && e.cmd.lock == l && Free(w.core.table, l, w'.now)
  }

  ghost predicate GrantsAnyone(w: World, e: Event, w': World, l: LockId) {
    exists c :: Grants(w, e, w', c, l)
  }

  /** A release that is answered '1'. */
  ghost predicate Releases(w: World, e: Event, c: ClientId, l: LockId) {
    Sent(w, e, c) && e.cmd == ReleaseLock(l) && Holds(w.core.table, c, l)
  }

  /** CONN by which a client names itself, and so asks for its locks back. */
  predicate Reconnects(e: Event, c: ClientId) {
    e.Request? && e.cmd == ConnAs(c)
  }

  /** The event gives all of `c`'s locks a deadline. */
  ghost predicate Marks(w: World, e: Event, c: ClientId) {
    || (e.Lost? && e.conn in w.links && w.links[e.conn].client == Some(c) && LossMarks(w.core, c, w.links[e.conn].peer))
    || e.Restart?
  }

  /** How long a marked lock is kept. */
  function Grace(e: Event): real {
    if e.Restart? then e.timeout else RELEASE_ALL_TIMEOUT
  }

  /** From when the grace of a mark counts: from the loss, or from the load of the dump. */
  function MarkedFrom(e: Event, w': World): real {
    if e.Restart? then e.loadedAt else w'.now
  }

  ghost predicate SetsSignal(w: World, e: Event, l: LockId, s: Signal) {
    e.Request? && e.cmd == SigSet(l, s) && e.conn in w.links && w.links[e.conn].client.Some?
  }

  ghost predicate DeletesSignal(w: World, e: Event, l: LockId, s: Signal) {
    e.Request? && e.cmd == SigDel(l, s) && e.conn in w.links && w.links[e.conn].client.Some?
  }

  /** A lock comes to be held only by a fresh grant, with a fresh entry. */
  lemma OnlyGrantsCreate(w: World, e: Event, w': World, l: LockId)
    requires Step(w, e, w')
    ensures l !in w.core.table && l in w'.core.table ==> GrantsAnyone(w, e, w', l)
    ensures forall c | Grants(w, e, w', c, l) :: l in w'.core.table && w'.core.table[l] == Entry(c, w'.now, None, {})
  {
    if l !in w.core.table && l in w'.core.table {
      if e.Maintenance? {
        CollectingKeeps(w.core.table, w'.core.table, w'.now);
      } else if e.Request? && e.cmd.Aq? && w.links[e.conn].client.Some? {
        assert Grants(w, e, w', w.links[e.conn].client.value, l);
      }
    }
  }

  /** A holding ends only by its owner's release or by expiry. */
  lemma HoldingEnds(w: World, e: Event, w': World, l: LockId)
    requires Step(w, e, w') && l in w.core.table
    requires l !in w'.core.table || GrantsAnyone(w, e, w', l)
    ensures Releases(w, e, w.core.table[l].owner, l) || Expired(w.core.table[l], w'.now)
  {
    if c :| Grants(w, e, w', c, l) {
      assert Free(w.core.table, l, w'.now);
    }
  }

  /** What a step may do to a holding that goes on: its owner and time stay, its deadline changes by losses, reloads and
      reconnects of its owner alone, its signals by signal commands for this lock alone. */
  lemma HoldingGoesOn(w: World, e: Event, w': World, l: LockId)
    requires Step(w, e, w') && l in w.core.table && l in w'.core.table && !GrantsAnyone(w, e, w', l)
    ensures w'.core.table[l].owner == w.core.table[l].owner && w'.core.table[l].time == w.core.table[l].time
    ensures var c, before, after := w.core.table[l].owner, w.core.table[l].deadline, w'.core.table[l].deadline;
      if Marks(w, e, c) then after.Some? && MarkedFrom(e, w') + Grace(e) <= after.value <= w'.now + Grace(e)
      else if Reconnects(e, c) then after == None
      else after == before
    ensures e.Lost? && Marks(w, e, w.core.table[l].owner) ==>
      w'.core.table[l].deadline == Some(w'.now + RELEASE_ALL_TIMEOUT)
    ensures forall s :: s in w'.core.table[l].signals <==>
      SetsSignal(w, e, l, s) || (s in w.core.table[l].signals && !DeletesSignal(w, e, l, s))
  {
    if e.Maintenance? {
      CollectingKeeps(w.core.table, w'.core.table, w'.now);
    } else if e.Request? && w.links[e.conn].client.Some? {
      var c := w.links[e.conn].client.value;
      assert !Grants(w, e, w', c, l);
      assert Sent(w, e, c);
    }
  }

  /** The same, for a step that neither grants the lock nor ends its holding. */
  lemma HoldingStays(w: World, e: Event, w': World, l: LockId)
    requires Step(w, e, w') && l in w.core.table
    requires !Releases(w, e, w.core.table[l].owner, l) && !Expired(w.core.table[l], w'.now)
    ensures l in w'.core.table && !GrantsAnyone(w, e, w', l)
  {
    if l !in w'.core.table || GrantsAnyone(w, e, w', l) {
      HoldingEnds(w, e, w', l);
    }
  }

  lemma {:induction false} TimeIsMonotone(r: Run, i: nat, j: nat)
    requires IsRun(r) && i <= j <= |r.events|
    ensures r.worlds[i].now <= r.worlds[j].now
  {
    if i < j {
      TimeIsMonotone(r, i, j - 1);
      assert StepAt(r, j - 1);
    }
  }

  // How the connection objects produce these steps.

  /** The world after a command of connection `k` was processed at time `now`. */
  function After(w: World, k: ConnId, cmd: Command, p: Processed, now: real): World
    requires k in w.links
  {
    World(p.core, w.links[k := w.links[k].(client := p.session.client)],
          if IsNaming(cmd) then w.latest[cmd.id := k] else w.latest, now)
  }

  predicate IsNaming(cmd: Command) {
    cmd.ConnAs? || cmd.ConnNew?
  }

  /** A processed command is a request step, even where the password gate complained first; where the gate ends the
      command, the store and the client id stay as they were. */
  lemma ProcessingIsAStep(w: World, k: ConnId, setting: Setting, session: Session, verb: Verb, args: seq<Bytes>,
                          newId: ClientId, now: real)
    requires k in w.links && w.links[k].open && w.links[k].client == session.client && w.links[k].peer == setting.peer
    requires w.now <= now
    ensures
      var p := Process(w.core, setting, session, verb, args, newId, now);
      var cmd := Interpret(verb, args, setting.codec, newId, setting.shutdownSupport);
      if Gate(setting, session, verb, args) in {Open, Complained}
      then Step(w, Request(k, cmd), After(w, k, cmd, p, now))
      else p.core == w.core && p.session.client == session.client
  {
    hide Interpret, Serve;
  }

  /** The world after a connection was opened, lost, or after a sweep or a restart that left this core. */
  function Opening(w: World, k: ConnId, peer: Address, now: real): World {
    w.(links := w.links[k := Link(peer, None, true)], now := now)
  }

  function Closing(w: World, k: ConnId, core: Core, now: real): World
    requires k in w.links
  {
    World(core, w.links[k := w.links[k].(open := false)], w.latest, now)
  }

  function Restarted(w: World, core: Core, now: real): World {
    World(core, map k | k in w.links :: w.links[k].(open := false), w.latest, now)
  }

  lemma OpeningIsAStep(w: World, k: ConnId, peer: Address, now: real)
    requires k !in w.links && PeerIsNew(w, peer) && w.now <= now
    ensures Step(w, Opened(k, peer), Opening(w, k, peer, now))
  {}

  lemma LosingIsAStep(w: World, k: ConnId, client: Option<ClientId>, peer: Address, now: real)
    requires k in w.links && w.links[k] == Link(peer, client, true) && w.now <= now
    ensures Step(w, Lost(k), Closing(w, k, Lose(w.core, client, peer, now), now))
  {}

  lemma SweepingIsAStep(w: World, core: Core, now: real)
    requires w.now <= now && Collects(w.core.table, core.table, now) &&
      Forgets(w.core.addresses, core.addresses, core.table)
    ensures Step(w, Maintenance, w.(core := core, now := now))
  {}

  lemma RestartingIsAStep(w: World, core: Core, timeout: real, loadedAt: real, now: real)
    requires 0.0 < timeout && w.now <= loadedAt <= now
    requires Loads(w.core.table, core.table, loadedAt, now, timeout) &&
      Forgets(w.core.addresses, core.addresses, core.table)
    ensures Step(w, Restart(timeout, loadedAt), Restarted(w, core, now))
  {}

  /** A command under way when the final dump is written may collect an expired lock that is in the dump. The world
      keeps what is in the dump: LOCKED answers the same for it, and leaves it as one step, so that the restart is
      a step too. */
  lemma DeferredCollection(w: World, k: ConnId, l: LockId, collected: Table, now: real)
    requires k in w.links && w.links[k].open && w.links[k].client.Some? && w.now <= now &&
      Collects(w.core.table, collected, w.now)
    ensures Step(w, Request(k, IsLocked(l)), w.(now := now))
    ensures var link, cmd := w.links[k], IsLocked(l);
      && Serve(w.core, link.client, link.peer, cmd, now).replies
           == Serve(w.core.(table := collected), link.client, link.peer, cmd, now).replies
      && Collects(w.core.table, Serve(w.core.(table := collected), link.client, link.peer, cmd, now).core.table, now)
  {
    assert w.links[k := w.links[k]] == w.links;
    CollectingKeeps(w.core.table, collected, w.now);
    CollectsIsTransitive(w.core.table, collected, CollectIfExpired(collected, l, now), w.now, now);
  }
}
