/** What the server promises over whole runs. */
module Guarantees {
  import opened Wrappers
  import opened LockTable
  import opened Commands
  import opened Runs

  // No orphaned locks.

  /** The recorded address is that of the client's last CONN, or absent. */
  ghost predicate AddressesAreLatest(w: World) {
    forall c | c in w.core.addresses ::
      c in w.latest && w.latest[c] in w.links && w.core.addresses[c] == w.links[w.latest[c]].peer
  }

  ghost predicate LatestIsOpen(w: World, c: ClientId) {
    c in w.latest && w.latest[c] in w.links && w.links[w.latest[c]].open
  }

  /** A lock without a deadline is held by a client whose latest connection is open. */
  ghost predicate NoOrphans(w: World) {
    forall l | l in w.core.table && w.core.table[l].deadline == None :: LatestIsOpen(w, w.core.table[l].owner)
  }

  /** A client's latest connection carries its id. */
  ghost predicate LatestCarries(w: World) {
    forall c | c in w.latest :: w.latest[c] in w.links && w.links[w.latest[c]].client == Some(c)
  }

  /** As the client library behaves: one CONN for each connection, and AQ only while the client's latest connection
      is open. */
  ghost predicate Disciplined(w: World, e: Event) {
    e.Request? && e.conn in w.links ==>
      && (e.cmd.ConnAs? || e.cmd.ConnNew? ==> w.links[e.conn].client == None)
      && (e.cmd.Aq? && w.links[e.conn].client.Some? ==> LatestIsOpen(w, w.links[e.conn].client.value))
  }

  ghost predicate NoOrphansInv(w: World) {
    AddressesAreLatest(w) && LatestCarries(w) && NoOrphans(w)
  }

  lemma StepKeepsAddresses(w: World, e: Event, w': World)
    requires Step(w, e, w') && AddressesAreLatest(w)
    ensures AddressesAreLatest(w')
  {}

  lemma DisciplinedStepKeepsNoOrphans(w: World, e: Event, w': World)
    requires Step(w, e, w') && Disciplined(w, e) && NoOrphansInv(w)
    ensures NoOrphansInv(w')
  {
    StepKeepsAddresses(w, e, w');
    forall l | l in w'.core.table && w'.core.table[l].deadline == None
      ensures LatestIsOpen(w', w'.core.table[l].owner) {
      OnlyGrantsCreate(w, e, w', l);
      if l in w.core.table && !GrantsAnyone(w, e, w', l) {
        HoldingGoesOn(w, e, w', l);
      } else {
        var c :| Grants(w, e, w', c, l);
      }
    }
  }

  /** In every run of disciplined clients no lock outlives its owner without a deadline. */
  lemma {:induction false} NoOrphanedLocks(r: Run, i: nat)
    requires IsRun(r) && i <= |r.events|
    requires forall j | 0 <= j < i :: Disciplined(r.worlds[j], r.events[j])
    ensures NoOrphans(r.worlds[i])
    ensures NoOrphansInv(r.worlds[i])
  {
    if i > 0 {
      NoOrphanedLocks(r, i - 1);
      assert StepAt(r, i - 1);
      DisciplinedStepKeepsNoOrphans(r.worlds[i - 1], r.events[i - 1], r.worlds[i]);
    }
  }

  /** Where the discipline matters, 1: a grant leaves no orphan exactly when the client's latest connection is open. */
  lemma GrantOrphansIff(w: World, e: Event, w': World, c: ClientId, l: LockId)
    requires Step(w, e, w') && NoOrphansInv(w) && Grants(w, e, w', c, l)
    ensures NoOrphans(w') <==> LatestIsOpen(w, c)
  {
    OnlyGrantsCreate(w, e, w', l);
    if LatestIsOpen(w, c) {
      DisciplinedStepKeepsNoOrphans(w, e, w');
    } else {
      assert w'.core.table[l].owner == c && w'.core.table[l].deadline == None;
      assert !LatestIsOpen(w', c);
    }
  }

  /** Some client whose latest connection is `k` holds an unmarked lock, and `k` carries another id by now. */
  ghost predicate Forsakes(w: World, k: ConnId, c: ClientId, l: LockId) {
    && c in w.latest && w.latest[c] == k && k in w.links && w.links[k].client != Some(c)
    && Holds(w.core.table, c, l) && w.core.table[l].deadline == None
  }

  ghost predicate ForsakesSomeone(w: World, k: ConnId) {
    exists c, l :: Forsakes(w, k, c, l)
  }

  /** A lock is granted to a client whose latest connection is not open. */
  ghost predicate GrantsAstray(w: World, e: Event, w': World) {
    exists c, l :: Grants(w, e, w', c, l) && !LatestIsOpen(w, c)
  }

  /** Where the discipline matters, 2: in any world without orphans, however it came about, the loss of a
      connection leaves one exactly when the connection was named anew after it was a holder's latest. */
  lemma LossOrphansIff(w: World, k: ConnId, w': World)
    requires AddressesAreLatest(w) && NoOrphans(w) && Step(w, Lost(k), w')
    ensures NoOrphans(w') <==> !ForsakesSomeone(w, k)
  {
    var marked := w'.core.table;
    forall c ensures LatestIsOpen(w', c) <==> LatestIsOpen(w, c) && w.latest[c] != k {}
    if c, l :| Forsakes(w, k, c, l) {
      assert marked[l] == w.core.table[l];
      assert !LatestIsOpen(w', c);
    }
    forall l | l in marked && marked[l].deadline == None
      ensures LatestIsOpen(w', marked[l].owner) || Forsakes(w, k, marked[l].owner, l)
    {
      assert marked[l].owner == w.core.table[l].owner;
      assert w.core.table[l].deadline == None;
      assert LatestIsOpen(w, marked[l].owner);
    }
  }

  /** The only two ways to an orphan, in any run: a grant over a connection that is not its client's open latest
      one, and the loss of a connection that was named anew. */
  lemma StepOrphansIff(r: Run, i: nat)
    requires IsRun(r) && i < |r.events| && NoOrphans(r.worlds[i])
    ensures NoOrphans(r.worlds[i + 1]) <==>
      && !GrantsAstray(r.worlds[i], r.events[i], r.worlds[i + 1])
      && !(r.events[i].Lost? && ForsakesSomeone(r.worlds[i], r.events[i].conn))
  {
    var w, e, w' := r.worlds[i], r.events[i], r.worlds[i + 1];
    PeersAlwaysDiffer(r, i);
    assert StepAt(r, i);
    hide IsRun, OpenPeersDiffer;
    if e.Lost? {
      LossOrphansIff(w, e.conn, w');
    } else {
      GrantingOrphansIff(w, e, w');
    }
  }

  ghost predicate OrphansAt(r: Run, i: nat)
    requires i < |r.events| < |r.worlds|
  {
    || GrantsAstray(r.worlds[i], r.events[i], r.worlds[i + 1])
    || (r.events[i].Lost? && ForsakesSomeone(r.worlds[i], r.events[i].conn))
  }

  /** A run is free of orphans exactly when no event of it is of these two kinds. */
  lemma {:induction false} OrphanFreeIff(r: Run, n: nat)
    requires IsRun(r) && n <= |r.events|
    ensures (forall i | 0 <= i <= n :: NoOrphans(r.worlds[i])) <==> (forall i | 0 <= i < n :: !OrphansAt(r, i))
  {
    if n > 0 {
      OrphanFreeIff(r, n - 1);
      if NoOrphans(r.worlds[n - 1]) {
        StepOrphansIff(r, n - 1);
      }
      hide NoOrphans, OrphansAt;
      var p: nat := n - 1;
      var orphanFree := forall i | 0 <= i <= p :: NoOrphans(r.worlds[i]);
      var innocent := forall i | 0 <= i < p :: !OrphansAt(r, i);
      assert (forall i | 0 <= i < n :: !OrphansAt(r, i)) <==> innocent && !OrphansAt(r, p);
      assert (forall i | 0 <= i <= n :: NoOrphans(r.worlds[i])) <==> orphanFree && NoOrphans(r.worlds[n]);
    }
  }

  lemma GrantingOrphansIff(w: World, e: Event, w': World)
    requires Step(w, e, w') && NoOrphans(w) && !e.Lost?
    ensures NoOrphans(w') <==> !GrantsAstray(w, e, w')
  {
    forall c, l | Grants(w, e, w', c, l)
      ensures l in w'.core.table && w'.core.table[l] == Entry(c, w'.now, None, {})
      ensures LatestIsOpen(w', c) <==> LatestIsOpen(w, c)
    {
      OnlyGrantsCreate(w, e, w', l);
    }
    forall l | l in w'.core.table && w'.core.table[l].deadline == None && !GrantsAnyone(w, e, w', l)
      ensures LatestIsOpen(w', w'.core.table[l].owner)
    {
      OnlyGrantsCreate(w, e, w', l);
      HoldingGoesOn(w, e, w', l);
    }
  }

  /** A second CONN on a connection, under another id given or handed out: where this was the first id's latest
      connection, its unmarked locks are orphans once the connection is lost, and there are no others. */
  lemma SecondConnOrphansIff(w: World, w1: World, w2: World, k: ConnId, c1: ClientId, cmd: Command)
    requires NoOrphansInv(w) && k in w.links && w.links[k].client == Some(c1) && IsNaming(cmd) && cmd.id != c1
    requires Step(w, Request(k, cmd), w1) && Step(w1, Lost(k), w2)
    ensures NoOrphans(w2) <==>
      !(c1 in w.latest && w.latest[c1] == k &&
        exists l :: l in w.core.table && w.core.table[l].owner == c1 && w.core.table[l].deadline == None)
  {
    StepKeepsAddresses(w, Request(k, cmd), w1);
    NamingKeepsNoOrphans(w, w1, k, cmd);
    LossOrphansIff(w1, k, w2);
    forall c, l ensures Forsakes(w1, k, c, l) <==> c == c1 && Forsakes(w1, k, c1, l) {
      assert c in w1.latest && c != cmd.id ==> c in w.latest && w.latest[c] == w1.latest[c];
    }
    forall l | l in w.core.table ensures l in w1.core.table && w1.core.table[l].owner == w.core.table[l].owner {}
    if l :| Holds(w.core.table, c1, l) && w.core.table[l].deadline == None {
      assert w1.core.table[l] == w.core.table[l];
      assert w1.latest[c1] == k && c1 in w.latest && w.latest[c1] == k ==> Forsakes(w1, k, c1, l);
    }
  }

  lemma NamingKeepsNoOrphans(w: World, w1: World, k: ConnId, cmd: Command)
    requires AddressesAreLatest(w) && NoOrphans(w) && IsNaming(cmd) && Step(w, Request(k, cmd), w1)
    ensures NoOrphans(w1)
  {
    forall l | l in w1.core.table && w1.core.table[l].deadline == None
      ensures LatestIsOpen(w1, w1.core.table[l].owner) {
      assert w1.core.table[l].owner == w.core.table[l].owner;
    }
  }

  // Retention.

  ghost predicate OpenPeersDiffer(w: World) {
    forall k, k' | k in w.links && k' in w.links && k != k' && w.links[k].open && w.links[k'].open ::
      w.links[k].peer != w.links[k'].peer
  }

  lemma {:induction false} PeersAlwaysDiffer(r: Run, i: nat)
    requires IsRun(r) && i <= |r.events|
    ensures OpenPeersDiffer(r.worlds[i]) && AddressesAreLatest(r.worlds[i])
  {
    if i > 0 {
      PeersAlwaysDiffer(r, i - 1);
      assert StepAt(r, i - 1);
      StepKeepsAddresses(r.worlds[i - 1], r.events[i - 1], r.worlds[i]);
    }
  }

  /** `c` holds `l` and nothing it holds has a deadline; the record names its open connection `b`. */
  ghost predicate Retains(w: World, b: ConnId, c: ClientId, l: LockId) {
    && Holds(w.core.table, c, l)
    && (forall m | Holds(w.core.table, c, m) :: w.core.table[m].deadline == None)
    && b in w.links && w.links[b].open
    && c in w.core.addresses && w.core.addresses[c] == w.links[b].peer
  }

  /** The event neither loses `b`, nor is another CONN under `c`, a restart or `c`'s release of `l`. */
  ghost predicate LeavesAlone(w: World, e: Event, b: ConnId, c: ClientId, l: LockId) {
    && e != Lost(b) && !e.Restart?
    && !(e.Request? && (e.cmd == ConnAs(c) || e.cmd == ConnNew(c)))
    && !Releases(w, e, c, l)
  }

  /** Of what `c` holds, the step takes at most what `c` releases. */
  ghost predicate LosesNothing(w: World, e: Event, w': World, c: ClientId) {
    forall m | Holds(w.core.table, c, m) && !Releases(w, e, c, m) :: Holds(w'.core.table, c, m)
  }

  lemma StepRetains(w: World, e: Event, w': World, b: ConnId, c: ClientId, l: LockId)
    requires Step(w, e, w') && OpenPeersDiffer(w) && Retains(w, b, c, l) && LeavesAlone(w, e, b, c, l)
    ensures Retains(w', b, c, l)
    ensures LosesNothing(w, e, w', c)
  {
    assert !Marks(w, e, c);
    forall m | Holds(w.core.table, c, m) && !Releases(w, e, c, m) ensures Holds(w'.core.table, c, m) {
      HoldingStays(w, e, w', m);
      HoldingGoesOn(w, e, w', m);
    }
    forall m | Holds(w'.core.table, c, m) ensures w'.core.table[m].deadline == None {
      OnlyGrantsCreate(w, e, w', m);
      if d :| Grants(w, e, w', d, m) {
      } else {
        HoldingGoesOn(w, e, w', m);
      }
    }
    assert Holds(w'.core.table, c, l);
  }

  /** A client that held `l` when it sent CONN on `b` keeps all it holds, unmarked, for as long as it keeps `l` and
      `b` is its latest and open connection, whatever stale connections, sweeps and other clients do. */
  lemma {:induction false} Retention(r: Run, i: nat, j: nat, b: ConnId, c: ClientId, l: LockId)
    requires IsRun(r) && i < j <= |r.events|
    requires r.events[i] == Request(b, ConnAs(c)) && Holds(r.worlds[i].core.table, c, l)
    requires forall k | i < k < j :: LeavesAlone(r.worlds[k], r.events[k], b, c, l)
    ensures Retains(r.worlds[j], b, c, l)
    ensures forall k | i < k < j :: LosesNothing(r.worlds[k], r.events[k], r.worlds[k + 1], c)
  {
    var w, e, w' := r.worlds[j - 1], r.events[j - 1], r.worlds[j];
    assert StepAt(r, j - 1);
    if j == i + 1 {
      ConnRetains(w, w', b, c, l);
    } else {
      hide IsRun, Step, Retains, Holds, Releases, LosesNothing;
      Retention(r, i, j - 1, b, c, l);
      PeersAlwaysDiffer(r, j - 1);
      StepRetains(w, e, w', b, c, l);
    }
  }

  lemma ConnRetains(w: World, w': World, b: ConnId, c: ClientId, l: LockId)
    requires Step(w, Request(b, ConnAs(c)), w') && Holds(w.core.table, c, l)
    ensures Retains(w', b, c, l)
  {}

  /** Why a lock must be held: the loss of a stale connection spares the client's locks exactly while an address is
      on record. */
  lemma StaleLossMarksIff(r: Run, i: nat, k: ConnId, c: ClientId)
    requires IsRun(r) && i <= |r.events|
    requires k in r.worlds[i].links && r.worlds[i].links[k].open && r.worlds[i].links[k].client == Some(c)
    requires LatestIsOpen(r.worlds[i], c) && r.worlds[i].latest[c] != k
    ensures Marks(r.worlds[i], Lost(k), c) <==> c !in r.worlds[i].core.addresses
  {
    PeersAlwaysDiffer(r, i);
  }
}
