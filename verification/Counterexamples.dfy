/** Runs that show why the guarantees ask what they ask. */
module Counterexamples {
  import opened Wrappers
  import opened LockTable
  import opened Commands
  import opened Runs
  import opened Guarantees

  const C: ClientId := "c"
  const L: LockId := "l"
  const P0 := Address("host", 1)
  const P1 := Address("host", 2)

  /** Two connections of `C`, the second one the latest; each holds its CONN. */
  function TwoConnections(t: Table, addresses: map<ClientId, Address>, first: bool, second: bool): World {
    World(Core(t, addresses), map[0 := Link(P0, Some(C), first), 1 := Link(P1, Some(C), second)], map[C := 1], 1.0)
  }

  function Start(): Run {
    Run([World(Core(map[], map[]), map[], map[], 1.0),
         World(Core(map[], map[]), map[0 := Link(P0, None, true)], map[], 1.0),
         World(Core(map[], map[C := P0]), map[0 := Link(P0, Some(C), true)], map[C := 0], 1.0),
         World(Core(map[], map[C := P0]), map[0 := Link(P0, Some(C), true), 1 := Link(P1, None, true)],
               map[C := 0], 1.0),
         TwoConnections(map[], map[C := P1], true, true)],
        [Opened(0, P0), Request(0, ConnAs(C)), Opened(1, P1), Request(1, ConnAs(C))])
  }

  lemma StartIsRun()
    ensures IsRun(Start())
  {
    var r := Start();
    assert StepAt(r, 0);
    assert StepAt(r, 1);
    assert StepAt(r, 2);
    assert StepAt(r, 3);
  }

  predicate AllClosed(w: World) {
    forall k | k in w.links :: !w.links[k].open
  }

  predicate HoldsMarked(w: World, c: ClientId, l: LockId) {
    Holds(w.core.table, c, l) && w.core.table[l].deadline.Some?
  }

  /** A client that acquires over an older connection, after its latest one was lost, leaves a lock nobody frees: both
      connections are gone and the lock has no deadline. */
  lemma AcquireOnStaleConnectionOrphans()
    ensures exists r: Run :: IsRun(r) && !NoOrphans(Final(r)) && AllClosed(Final(r))
  {
    var t: Table := map[L := Entry(C, 1.0, None, {})];
    StartIsRun();
    var r1 := Extend(Start(), Lost(1), TwoConnections(map[], map[C := P1], true, false));
    ExtendIsRun(Start(), Lost(1), r1.worlds[5]);
    var r2 := Extend(r1, Request(0, Aq(L, false)), TwoConnections(t, map[C := P1], true, false));
    ExtendIsRun(r1, Request(0, Aq(L, false)), r2.worlds[6]);
    var r3 := Extend(r2, Lost(0), TwoConnections(t, map[C := P1], false, false));
    ExtendIsRun(r2, Lost(0), r3.worlds[7]);
    assert IsRun(r3) && t[L].deadline == None && AllClosed(Final(r3));
  }

  function Regranted(): Run {
    var swept := Extend(Start(), Maintenance, TwoConnections(map[], map[], true, true));
    Extend(swept, Request(1, Aq(L, false)), TwoConnections(map[L := Entry(C, 1.0, None, {})], map[], true, true))
  }

  lemma RegrantedIsRun()
    ensures IsRun(Regranted())
  {
    StartIsRun();
    var r1 := Extend(Start(), Maintenance, TwoConnections(map[], map[], true, true));
    ExtendIsRun(Start(), Maintenance, r1.worlds[5]);
    ExtendIsRun(r1, Request(1, Aq(L, false)), Regranted().worlds[6]);
  }

  /** A client that held nothing at its CONN can have a lock marked while its latest connection is open: a sweep
      forgets its address, and then the loss of its stale connection counts. */
  lemma StaleLossMarksWithoutAHolding()
    ensures exists r: Run :: IsRun(r) && LatestIsOpen(Final(r), C) && HoldsMarked(Final(r), C, L)
  {
    var marked: Table := map[L := Entry(C, 1.0, Some(6.0), {})];
    RegrantedIsRun();
    var r := Extend(Regranted(), Lost(0), TwoConnections(marked, map[], false, true));
    assert SetDeadlines(map[L := Entry(C, 1.0, None, {})], C, Some(1.0 + RELEASE_ALL_TIMEOUT)) == marked;
    ExtendIsRun(Regranted(), Lost(0), r.worlds[7]);
    assert IsRun(r) && LatestIsOpen(Final(r), C);
  }
}
