/** Why clients that use the library are disciplined: what their connections put on the wire leaves no lock without
    an owner. */
module Discipline {
  import opened Wrappers
  import opened LockTable
  import opened Commands
  import opened Runs
  import opened Guarantees
  import C = ClientConnection

  /** Which client a connection of the run belongs to, as which of its sockets, and where in the client's hops a
      request was sent. */
  datatype Origins = Origins(client: ConnId -> nat, socket: ConnId -> nat, hop: nat -> nat)

  ghost predicate SentAt(wires: seq<seq<C.Hop>>, o: Origins, r: Run, i: nat)
    requires i < |r.events| && r.events[i].Request?
  {
    var k, cmd := r.events[i].conn, r.events[i].cmd;
    && o.client(k) < |wires| && o.hop(i) < |wires[o.client(k)]|
    && var hop := wires[o.client(k)][o.hop(i)];
      hop.Said? && hop.conn == o.socket(k) && (IsNaming(cmd) ==> hop.message == C.Conn)
  }

  predicate NamesAt(r: Run, i: nat) {
    i < |r.events| && r.events[i].Request? && IsNaming(r.events[i].cmd)
  }

  predicate AreRequests(r: Run, i: int, j: int) {
    0 <= i < |r.events| && 0 <= j < |r.events| && r.events[i].Request? && r.events[j].Request?
  }

  predicate SameClient(o: Origins, r: Run, i: nat, j: nat)
    requires AreRequests(r, i, j)
  {
    o.client(r.events[i].conn) == o.client(r.events[j].conn)
  }

  /** Requests are what clients sent, each client's in the order it sent them, though some may be lost; and no two
      clients go by one id. */
  ghost predicate Delivers(wires: seq<seq<C.Hop>>, o: Origins, r: Run) {
    && (forall wire | wire in wires :: C.Proper(wire))
    && (forall i, j {:trigger o.hop(i), o.hop(j)} | AreRequests(r, i, j) && SameClient(o, r, i, j) &&
          o.socket(r.events[i].conn) == o.socket(r.events[j].conn) :: r.events[i].conn == r.events[j].conn)
    && (forall i {:trigger SentAt(wires, o, r, i)} | 0 <= i < |r.events| && r.events[i].Request? ::
         SentAt(wires, o, r, i))
    && (forall i, j {:trigger o.hop(i), o.hop(j)} | AreRequests(r, i, j) && SameClient(o, r, i, j) && i < j ::
          o.hop(i) < o.hop(j))
    && (forall i: nat, j: nat {:trigger NamesAt(r, i), NamesAt(r, j)} |
          NamesAt(r, i) && NamesAt(r, j) && r.events[i].cmd.id == r.events[j].cmd.id :: SameClient(o, r, i, j))
  }

  /** A connection's later requests never come from an older socket of the client, and CONN comes once on each. */
  lemma InOrder(wires: seq<seq<C.Hop>>, o: Origins, r: Run, i: nat, j: nat)
    requires Delivers(wires, o, r) && i < j < |r.events| && r.events[i].Request? && r.events[j].Request?
    requires SameClient(o, r, i, j)
    ensures o.socket(r.events[i].conn) <= o.socket(r.events[j].conn)
    ensures o.socket(r.events[i].conn) == o.socket(r.events[j].conn) ==> r.events[i].conn == r.events[j].conn
    ensures NamesAt(r, i) && NamesAt(r, j) ==> r.events[i].conn != r.events[j].conn
  {
    assert SentAt(wires, o, r, i) && SentAt(wires, o, r, j);
    assert o.hop(i) < o.hop(j);
    assert C.Proper(wires[o.client(r.events[i].conn)]);
  }

  /** Event `i` is the last before `n` that named a connection `c`. */
  ghost predicate LastNaming(r: Run, i: nat, n: nat, c: ClientId) {
    && i < n && NamesAt(r, i) && r.events[i].cmd.id == c
    && (forall j {:trigger NamesAt(r, j)} | i < j < n && NamesAt(r, j) :: r.events[j].cmd.id != c)
  }

  ghost predicate NamedBefore(r: Run, i: nat, n: nat, k: ConnId, c: ClientId) {
    i < n && NamesAt(r, i) && r.events[i].conn == k && r.events[i].cmd.id == c
  }

  /** Ids on links and latest connections all stem from CONNs of the run. */
  ghost predicate Named(r: Run, n: nat)
    requires n < |r.worlds|
  {
    && (forall k | k in r.worlds[n].links && r.worlds[n].links[k].client.Some? ::
          exists i: nat :: NamedBefore(r, i, n, k, r.worlds[n].links[k].client.value))
    && (forall c | c in r.worlds[n].latest :: exists i: nat ::
         LastNaming(r, i, n, c) && r.events[i].conn == r.worlds[n].latest[c])
    && (forall i: nat | i < n && NamesAt(r, i) :: r.events[i].cmd.id in r.worlds[n].latest)
  }

  lemma {:induction false} AlwaysNamed(r: Run, n: nat)
    requires IsRun(r) && n <= |r.events|
    ensures Named(r, n)
  {
    if n > 0 {
      var p: nat := n - 1;
      AlwaysNamed(r, p);
      assert StepAt(r, p);
      NamingGoesOn(r, p);
    }
  }

  lemma NamingGoesOn(r: Run, p: nat)
    requires p < |r.events| < |r.worlds| && Named(r, p) && Step(r.worlds[p], r.events[p], r.worlds[p + 1])
    ensures Named(r, p + 1)
  {
    hide Execute, Lose, Collects, Loads, Forgets, PeerIsNew;
    var n, w, e, w' := p + 1, r.worlds[p], r.events[p], r.worlds[p + 1];
    forall k | k in w'.links && w'.links[k].client.Some?
      ensures exists i: nat :: NamedBefore(r, i, n, k, w'.links[k].client.value)
    {
      var c := w'.links[k].client.value;
      if k in w.links && w.links[k].client == Some(c) {
        var i: nat :| NamedBefore(r, i, p, k, c);
        assert NamedBefore(r, i, n, k, c);
      } else {
        assert NamedBefore(r, p, n, k, c);
      }
    }
    forall c | c in w'.latest ensures exists i: nat :: LastNaming(r, i, n, c) && r.events[i].conn == w'.latest[c] {
      if NamesAt(r, p) && e.cmd.id == c {
        assert LastNaming(r, p, n, c);
      } else {
        var i: nat :| LastNaming(r, i, p, c) && r.events[i].conn == w.latest[c];
        assert LastNaming(r, i, n, c);
      }
    }
  }

  /** A client's requests meet the discipline that the server's guarantee asks for. */
  lemma RequestIsDisciplined(wires: seq<seq<C.Hop>>, o: Origins, r: Run, n: nat)
    requires IsRun(r) && Delivers(wires, o, r) && n < |r.events|
    ensures Disciplined(r.worlds[n], r.events[n])
  {
    AlwaysNamed(r, n);
    assert StepAt(r, n);
    var w, e := r.worlds[n], r.events[n];
    if e.Request? && w.links[e.conn].client.Some? {
      var k, c := e.conn, w.links[e.conn].client.value;
      var i: nat :| NamedBefore(r, i, n, k, c);
      InOrder(wires, o, r, i, n);
      var j: nat :| LastNaming(r, j, n, c) && r.events[j].conn == w.latest[c];
      assert SameClient(o, r, i, j) && SameClient(o, r, j, i);
      InOrder(wires, o, r, j, n);
      if i < j { InOrder(wires, o, r, i, j); }
      assert w.latest[c] == k;
    }
  }

  /** However clients that use the library connect, fail, resend and are cut off, no lock outlives its owner
      unmarked. */
  lemma LibraryClientsLeaveNoOrphans(wires: seq<seq<C.Hop>>, o: Origins, r: Run, n: nat)
    requires IsRun(r) && Delivers(wires, o, r) && n <= |r.events|
    ensures NoOrphans(r.worlds[n])
  {
    forall j | 0 <= j < n ensures Disciplined(r.worlds[j], r.events[j]) {
      RequestIsDisciplined(wires, o, r, j);
    }
    NoOrphanedLocks(r, n);
  }
}
