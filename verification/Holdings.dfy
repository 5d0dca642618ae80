/** The life of one holding over a run: exclusion, staleness, signals and repeated commands. */
module Holdings {
  import opened Wrappers
  import opened LockTable
  import opened Commands
  import opened Runs
  import opened Guarantees

  ghost predicate GrantsAt(r: Run, i: nat, c: ClientId, l: LockId)
    requires i < |r.events| < |r.worlds|
  {
    Grants(r.worlds[i], r.events[i], r.worlds[i + 1], c, l)
  }

  ghost predicate GrantsAnyoneAt(r: Run, i: nat, l: LockId)
    requires i < |r.events| < |r.worlds|
  {
    GrantsAnyone(r.worlds[i], r.events[i], r.worlds[i + 1], l)
  }

  ghost predicate ReleasesAt(r: Run, i: nat, c: ClientId, l: LockId)
    requires i < |r.events| < |r.worlds|
  {
    Releases(r.worlds[i], r.events[i], c, l)
  }

  ghost predicate MarksAt(r: Run, i: nat, c: ClientId)
    requires i < |r.events| < |r.worlds|
  {
    Marks(r.worlds[i], r.events[i], c)
  }

  predicate ReconnectsAt(r: Run, i: nat, c: ClientId)
    requires i < |r.events|
  {
    Reconnects(r.events[i], c)
  }

  ghost predicate Requests(r: Run, i: nat, c: ClientId, cmd: Command)
    requires i < |r.events| < |r.worlds|
  {
    Sent(r.worlds[i], r.events[i], c) && r.events[i].cmd == cmd
  }

  // Mutual exclusion over histories.

  /** When the full timeout of the mark at `m` has passed. */
  function GraceEnd(r: Run, m: nat): real
    requires m < |r.events| < |r.worlds|
  {
    MarkedFrom(r.events[m], r.worlds[m + 1]) + Grace(r.events[m])
  }

  /** Since the grant at `g`, event `m` was the last before `k` to mark `c`'s locks, and `c` has sent no CONN by
      its id since. */
  ghost predicate MarkStands(r: Run, g: nat, m: nat, k: nat, c: ClientId)
    requires k <= |r.events| < |r.worlds|
  {
    && g < m < k && MarksAt(r, m, c)
    && (forall n | m < n < k :: !ReconnectsAt(r, n, c) && !MarksAt(r, n, c))
  }

  /** By event `k`, the full grace of a standing mark has passed. */
  ghost predicate TimedOut(r: Run, g: nat, k: nat, c: ClientId)
    requires k < |r.events| < |r.worlds|
  {
    exists m: nat :: MarkStands(r, g, m, k, c) && GraceEnd(r, m) <= r.worlds[k + 1].now
  }

  /** After the grant at `g`, and before event `k`, the lock was `c`'s all the time. */
  ghost predicate HeldThrough(r: Run, g: nat, k: nat, c: ClientId, l: LockId)
    requires k <= |r.events| < |r.worlds|
  {
    forall i {:trigger HeldAt(r, i, c, l)} | g < i <= k :: HeldAt(r, i, c, l) && (i < k ==> !GrantsAnyoneAt(r, i, l))
  }

  ghost predicate HeldAt(r: Run, i: nat, c: ClientId, l: LockId)
    requires i < |r.worlds|
  {
    Holds(r.worlds[i].core.table, c, l)
  }

  /** Event `k` takes the lock from `c`, who held it up to then: by `c`'s release, or once a mark has run out. */
  ghost predicate Ends(r: Run, g: nat, k: nat, c: ClientId, l: LockId)
    requires k < |r.events| < |r.worlds|
  {
    && HeldThrough(r, g, k, c, l)
    && (l !in r.worlds[k + 1].core.table || GrantsAnyoneAt(r, k, l))
    && (ReleasesAt(r, k, c, l) || TimedOut(r, g, k, c))
  }

  /** The lock is still `c`'s, and a deadline it has comes from a standing mark. */
  ghost predicate StillHeld(r: Run, g: nat, k: nat, c: ClientId, l: LockId)
    requires k <= |r.events| < |r.worlds|
  {
    && HeldThrough(r, g, k, c, l) && HeldAt(r, k, c, l)
    && var deadline := r.worlds[k].core.table[l].deadline;
      deadline.Some? ==> exists m: nat :: MarkStands(r, g, m, k, c) && GraceEnd(r, m) <= deadline.value
  }

  lemma HeldOneMore(r: Run, g: nat, k: nat, c: ClientId, l: LockId)
    requires IsRun(r) && g < k < |r.events| && StillHeld(r, g, k, c, l)
    ensures Ends(r, g, k, c, l) || (!GrantsAnyoneAt(r, k, l) && StillHeld(r, g, k + 1, c, l))
  {
    var w, e, w' := r.worlds[k], r.events[k], r.worlds[k + 1];
    assert StepAt(r, k);
    if l !in w'.core.table || GrantsAnyone(w, e, w', l) {
      HoldingEnds(w, e, w', l);
    } else {
      HoldingGoesOn(w, e, w', l);
      if Marks(w, e, c) {
        assert MarkStands(r, g, k, k + 1, c);
      } else if w'.core.table[l].deadline.Some? {
        var m: nat :| MarkStands(r, g, m, k, c) && GraceEnd(r, m) <= w.core.table[l].deadline.value;
        assert MarkStands(r, g, m, k + 1, c);
      }
    }
  }

  lemma {:induction false} HeldUntilEnded(r: Run, g: nat, j: nat, c: ClientId, l: LockId)
    requires IsRun(r) && g < j <= |r.events| && GrantsAt(r, g, c, l)
    ensures (exists k :: g < k < j && Ends(r, g, k, c, l)) || StillHeld(r, g, j, c, l)
  {
    if j == g + 1 {
      assert StepAt(r, g);
      OnlyGrantsCreate(r.worlds[g], r.events[g], r.worlds[j], l);
    } else {
      HeldUntilEnded(r, g, j - 1, c, l);
      if StillHeld(r, g, j - 1, c, l) {
        HeldOneMore(r, g, j - 1, c, l);
      }
    }
  }

  /** Between two fresh grants of a lock there is one event that ends the first holding: the holder's release, or
      an event by which the last mark of its locks has stood for its full grace, with no CONN from the holder up to
      then. */
  lemma MutualExclusion(r: Run, g: nat, j: nat, c: ClientId, c': ClientId, l: LockId)
    requires IsRun(r) && g < j < |r.events| && GrantsAt(r, g, c, l) && GrantsAt(r, j, c', l)
    ensures exists k :: g < k <= j && Ends(r, g, k, c, l)
  {
    HeldUntilEnded(r, g, j, c, l);
    if StillHeld(r, g, j, c, l) {
      HeldOneMore(r, g, j, c, l);
      assert GrantsAnyoneAt(r, j, l);
      assert Ends(r, g, j, c, l);
    }
  }

  // Staleness.

  /** No event of this stretch marks or unmarks `c`'s locks. */
  ghost predicate Untouched(r: Run, i: nat, j: nat, c: ClientId)
    requires j <= |r.events| < |r.worlds|
  {
    forall k | i <= k < j :: !MarksAt(r, k, c) && !ReconnectsAt(r, k, c)
  }

  /** `c` holds the lock until `d`. */
  ghost predicate StaleUntil(w: World, c: ClientId, l: LockId, d: real) {
    Holds(w.core.table, c, l) && w.core.table[l].deadline == Some(d)
  }

  lemma StaleOneMore(r: Run, k: nat, c: ClientId, l: LockId, d: real)
    requires IsRun(r) && k < |r.events| && StaleUntil(r.worlds[k], c, l, d) && 0.0 < d
    requires !MarksAt(r, k, c) && !ReconnectsAt(r, k, c)
    ensures
      || (!GrantsAnyoneAt(r, k, l) && StaleUntil(r.worlds[k + 1], c, l, d))
      || ReleasesAt(r, k, c, l) || d <= r.worlds[k + 1].now
    ensures !GrantsAnyoneAt(r, k, l) ==> l in r.worlds[k + 1].core.table ==> StaleUntil(r.worlds[k + 1], c, l, d)
  {
    var w, e, w' := r.worlds[k], r.events[k], r.worlds[k + 1];
    assert StepAt(r, k);
    if l !in w'.core.table || GrantsAnyone(w, e, w', l) {
      HoldingEnds(w, e, w', l);
    } else {
      HoldingGoesOn(w, e, w', l);
    }
  }

  /** The loss of a client's latest connection gives each of its locks a deadline. */
  lemma LossMakesStale(r: Run, i: nat, b: ConnId, c: ClientId, l: LockId)
    requires IsRun(r) && i < |r.events| && r.events[i] == Lost(b)
    requires LatestIsOpen(r.worlds[i], c) && r.worlds[i].latest[c] == b && r.worlds[i].links[b].client == Some(c)
    requires Holds(r.worlds[i].core.table, c, l)
    ensures StaleUntil(r.worlds[i + 1], c, l, r.worlds[i + 1].now + RELEASE_ALL_TIMEOUT)
  {
    PeersAlwaysDiffer(r, i);
    assert StepAt(r, i);
  }

  lemma {:induction false} StaleWhileUngranted(r: Run, i: nat, j: nat, c: ClientId, l: LockId, d: real)
    requires IsRun(r) && i <= j <= |r.events| && StaleUntil(r.worlds[i], c, l, d) && 0.0 < d
    requires Untouched(r, i, j, c) && forall k | i <= k < j :: !GrantsAnyoneAt(r, k, l)
    ensures l in r.worlds[j].core.table ==> StaleUntil(r.worlds[j], c, l, d)
  {
    if i < j {
      StaleWhileUngranted(r, i, j - 1, c, l, d);
      assert StepAt(r, j - 1) && !GrantsAnyoneAt(r, j - 1, l);
      OnlyGrantsCreate(r.worlds[j - 1], r.events[j - 1], r.worlds[j], l);
      if StaleUntil(r.worlds[j - 1], c, l, d) {
        StaleOneMore(r, j - 1, c, l, d);
      }
    }
  }

  lemma {:induction false} StaleWhileUnreleased(r: Run, i: nat, j: nat, c: ClientId, l: LockId, d: real)
    requires IsRun(r) && i <= j <= |r.events| && StaleUntil(r.worlds[i], c, l, d) && 0.0 < d
    requires Untouched(r, i, j, c) && forall k | i <= k < j :: !ReleasesAt(r, k, c, l)
    requires r.worlds[j].now < d
    ensures StaleUntil(r.worlds[j], c, l, d)
  {
    if i < j {
      TimeIsMonotone(r, j - 1, j);
      StaleWhileUnreleased(r, i, j - 1, c, l, d);
      StaleOneMore(r, j - 1, c, l, d);
      assert !ReleasesAt(r, j - 1, c, l);
    }
  }

  /** Once a client's latest connection is lost, and while it sends no CONN and loses no further connection: from
      the full timeout on, an AQ of its lock succeeds, swept or not, unless the lock has been granted meanwhile;
      before that, an AQ by another client fails, unless the client released the lock. */
  lemma StalenessBound(r: Run, i: nat, j: nat, b: ConnId, c: ClientId, c': ClientId, l: LockId, reentrant: bool)
    requires IsRun(r) && i < j < |r.events| && r.events[i] == Lost(b)
    requires LatestIsOpen(r.worlds[i], c) && r.worlds[i].latest[c] == b && r.worlds[i].links[b].client == Some(c)
    requires Holds(r.worlds[i].core.table, c, l) && Untouched(r, i + 1, j, c)
    requires Requests(r, j, c', Aq(l, reentrant))
    ensures
      var freed := r.worlds[i + 1].now + RELEASE_ALL_TIMEOUT <= r.worlds[j + 1].now;
      freed && (forall k | i < k < j :: !GrantsAnyoneAt(r, k, l)) ==> RepliesAt(r, j) == [Bit(true)]
    ensures
      var early := r.worlds[j + 1].now < r.worlds[i + 1].now + RELEASE_ALL_TIMEOUT;
      early && (forall k | i < k < j :: !ReleasesAt(r, k, c, l)) && c' != c ==> RepliesAt(r, j) == [Bit(false)]
  {
    var d := r.worlds[i + 1].now + RELEASE_ALL_TIMEOUT;
    LossMakesStale(r, i, b, c, l);
    TimeIsMonotone(r, 0, i + 1);
    TimeIsMonotone(r, j, j + 1);
    if forall k | i < k < j :: !GrantsAnyoneAt(r, k, l) {
      StaleWhileUngranted(r, i + 1, j, c, l, d);
    }
    if r.worlds[j + 1].now < d && forall k | i < k < j :: !ReleasesAt(r, k, c, l) {
      StaleWhileUnreleased(r, i + 1, j, c, l, d);
    }
  }

  // Signals.

  /** Event `k` set the signal on the held lock; until `j` it was not deleted and the lock not granted anew. */
  ghost predicate SetAndKept(r: Run, k: nat, j: nat, l: LockId, s: Signal)
    requires j <= |r.events| < |r.worlds|
  {
    && k < j && SetsSignal(r.worlds[k], r.events[k], l, s) && l in r.worlds[k].core.table
    && (forall m | k < m < j :: !DeletesSignal(r.worlds[m], r.events[m], l, s) && !GrantsAnyoneAt(r, m, l))
  }

  /** A held lock has a signal exactly when it was set after the lock's present grant and has not been deleted since:
      losses, reconnects, sweeps and reloads keep it, and no holding inherits it from an earlier one. */
  lemma {:induction false} SignalsBelongToOneHolding(r: Run, j: nat, l: LockId, s: Signal)
    requires IsRun(r) && j <= |r.events| && l in r.worlds[j].core.table
    ensures s in r.worlds[j].core.table[l].signals <==> exists k: nat :: SetAndKept(r, k, j, l, s)
  {
    if j > 0 {
      var p: nat := j - 1;
      var w, e, w' := r.worlds[p], r.events[p], r.worlds[j];
      assert StepAt(r, p);
      OnlyGrantsCreate(w, e, w', l);
      if GrantsAnyoneAt(r, p, l) {
        var c :| Grants(w, e, w', c, l);
        assert w'.core.table[l].signals == {};
      } else {
        HoldingGoesOn(w, e, w', l);
        SignalsBelongToOneHolding(r, p, l, s);
        hide IsRun, Step, SetsSignal, DeletesSignal;
        if SetsSignal(w, e, l, s) {
          assert SetAndKept(r, p, j, l, s);
        }
        if k: nat :| SetAndKept(r, k, p, l, s) {
          assert !DeletesSignal(w, e, l, s) ==> SetAndKept(r, k, j, l, s);
        }
        if k: nat :| SetAndKept(r, k, j, l, s) {
          assert k < p ==> SetAndKept(r, k, p, l, s);
        }
      }
    }
  }

  // Repeated deliveries of one command.

  /** Before `j`, and before the mark at `m` has run out, event `n` clears or renews it. */
  ghost predicate Answers(r: Run, m: nat, n: nat, j: nat, c: ClientId)
    requires m < |r.events| && j <= |r.events| < |r.worlds|
  {
    m < n < j && (ReconnectsAt(r, n, c) || MarksAt(r, n, c)) && r.worlds[n + 1].now < GraceEnd(r, m)
  }

  /** Every mark of `c`'s locks in this stretch is followed, within its grace, by a CONN under `c` or by the next
      mark. */
  ghost predicate TimelyReconnects(r: Run, i: nat, j: nat, c: ClientId)
    requires j <= |r.events| < |r.worlds|
  {
    forall m | i < m < j && MarksAt(r, m, c) :: exists n: nat :: Answers(r, m, n, j, c)
  }

  lemma AnswerInTime(r: Run, m: nat, n: nat, j: nat, c: ClientId)
    requires m < |r.events| && j <= |r.events| < |r.worlds| && Answers(r, m, n, j, c)
    ensures m < n < j && (ReconnectsAt(r, n, c) || MarksAt(r, n, c)) && r.worlds[n + 1].now < GraceEnd(r, m)
  {}

  /** A mark that is answered in time does not stand until it has run out. */
  lemma TimelyMarkFalls(r: Run, i: nat, m: nat, k: nat, j: nat, c: ClientId)
    requires IsRun(r) && i < k < j <= |r.events| && TimelyReconnects(r, i, j, c)
    requires MarkStands(r, i, m, k, c)
    ensures r.worlds[k + 1].now < GraceEnd(r, m)
  {
    assert |r.worlds| == |r.events| + 1;
    hide IsRun, MarksAt, ReconnectsAt, GraceEnd, Answers;
    var n: nat :| Answers(r, m, n, j, c);
    hide TimelyReconnects, MarkStands;
    AnswerInTime(r, m, n, j, c);
    NotAnsweredWhileStanding(r, i, m, k, n, c);
    TimeIsMonotone(r, k + 1, n + 1);
  }

  lemma NotAnsweredWhileStanding(r: Run, i: nat, m: nat, k: nat, n: nat, c: ClientId)
    requires n < |r.events| < |r.worlds| && k <= |r.events| && m < n && MarkStands(r, i, m, k, c)
    requires ReconnectsAt(r, n, c) || MarksAt(r, n, c)
    ensures k <= n
  {}

  lemma TimelyMarksDoNotTimeOut(r: Run, i: nat, j: nat, k: nat, c: ClientId)
    requires IsRun(r) && i < k < j <= |r.events| && TimelyReconnects(r, i, j, c)
    ensures !TimedOut(r, i, k, c)
  {
    assert |r.worlds| == |r.events| + 1;
    hide IsRun, MarkStands, TimelyReconnects, GraceEnd;
    forall m: nat | MarkStands(r, i, m, k, c) && m < |r.events| ensures r.worlds[k + 1].now < GraceEnd(r, m) {
      TimelyMarkFalls(r, i, m, k, j, c);
    }
  }

  /** A granted lock whose holder reconnects in time and does not release it stays its holder's, unmarked. */
  lemma TimelyHolding(r: Run, i: nat, j: nat, c: ClientId, l: LockId)
    requires IsRun(r) && i < j <= |r.events| && GrantsAt(r, i, c, l) && TimelyReconnects(r, i, j, c)
    requires forall k | i < k < j :: !ReleasesAt(r, k, c, l)
    ensures Holds(r.worlds[j].core.table, c, l) && r.worlds[j].core.table[l].deadline == None
  {
    assert |r.worlds| == |r.events| + 1;
    hide IsRun, MarksAt, ReconnectsAt, GraceEnd, Answers, HeldThrough;
    HeldUntilEnded(r, i, j, c, l);
    forall k | i < k < j ensures !Ends(r, i, k, c, l) {
      TimelyMarksDoNotTimeOut(r, i, j, k, c);
    }
    forall m: nat | i < m < j && MarksAt(r, m, c) ensures !MarkStands(r, i, m, j, c) {
      var n: nat :| Answers(r, m, n, j, c);
      AnswerInTime(r, m, n, j, c);
    }
  }

  /** An AQ or AQR delivered again, after any losses with timely reconnects, changes nothing; it is answered '1'
      exactly when it is an AQR. A resent plain AQ is refused to the very client that holds the lock. */
  lemma RepeatedAcquire(r: Run, i: nat, j: nat, c: ClientId, l: LockId, reentrant: bool)
    requires IsRun(r) && i < j < |r.events| && GrantsAt(r, i, c, l) && TimelyReconnects(r, i, j, c)
    requires forall k | i < k < j :: !ReleasesAt(r, k, c, l)
    requires Requests(r, j, c, Aq(l, reentrant))
    ensures r.worlds[j + 1].core == r.worlds[j].core && RepliesAt(r, j) == [Bit(reentrant)]
  {
    TimelyHolding(r, i, j, c, l);
    assert StepAt(r, j);
  }

  /** Only a grant to `c` makes `c` a holder. */
  lemma {:induction false} NotHeldUntilGranted(r: Run, i: nat, j: nat, c: ClientId, l: LockId)
    requires IsRun(r) && i <= j <= |r.events| && !Holds(r.worlds[i].core.table, c, l)
    requires forall k | i <= k < j :: !GrantsAt(r, k, c, l)
    ensures !Holds(r.worlds[j].core.table, c, l)
  {
    if i < j {
      NotHeldUntilGranted(r, i, j - 1, c, l);
      var w, e, w' := r.worlds[j - 1], r.events[j - 1], r.worlds[j];
      assert StepAt(r, j - 1) && !GrantsAt(r, j - 1, c, l);
      OnlyGrantsCreate(w, e, w', l);
      if d :| Grants(w, e, w', d, l) {
        assert d != c;
      } else if l in w.core.table && l in w'.core.table {
        HoldingGoesOn(w, e, w', l);
      }
    }
  }

  /** One RELEASE frees the lock, however often AQR succeeded; delivered again it is answered '0' and changes nothing,
      whoever holds the lock by then, unless the lock was granted to the same client once more. */
  lemma RepeatedRelease(r: Run, i: nat, j: nat, c: ClientId, l: LockId)
    requires IsRun(r) && i < j < |r.events| && ReleasesAt(r, i, c, l)
    requires Requests(r, j, c, ReleaseLock(l)) && forall k | i < k < j :: !GrantsAt(r, k, c, l)
    ensures RepliesAt(r, i) == [Bit(true)] && l !in r.worlds[i + 1].core.table
    ensures RepliesAt(r, j) == [Bit(false)] && r.worlds[j + 1].core == r.worlds[j].core
  {
    assert StepAt(r, i) && StepAt(r, j);
    NotHeldUntilGranted(r, i + 1, j, c, l);
  }

  // LOCKED.

  /** LOCKED is answered '1' exactly when an AQ or AQR by anyone but the owner would be refused then and there, and
      '0' otherwise. */
  lemma LockedAgreesWithAcquire(r: Run, j: nat, c: ClientId, c': ClientId, peer: Address, l: LockId, reentrant: bool)
    requires IsRun(r) && j < |r.events| && Requests(r, j, c, IsLocked(l)) && !Holds(r.worlds[j].core.table, c', l)
    ensures
      var acquired := Serve(r.worlds[j].core, Some(c'), peer, Aq(l, reentrant), r.worlds[j + 1].now).replies;
      if acquired == [Text("0")] then RepliesAt(r, j) == [Text("1")]
      else acquired == [Text("1")] && RepliesAt(r, j) == [Text("0")]
  {
    assert StepAt(r, j);
  }

  /** A lock that was granted, not released since and kept by timely reconnects is reported as locked. */
  lemma LockedWhileHeld(r: Run, i: nat, j: nat, c: ClientId, c': ClientId, l: LockId)
    requires IsRun(r) && i < j < |r.events| && GrantsAt(r, i, c, l) && TimelyReconnects(r, i, j, c)
    requires forall k | i < k < j :: !ReleasesAt(r, k, c, l)
    requires Requests(r, j, c', IsLocked(l))
    ensures RepliesAt(r, j) == [Text("1")]
  {
    TimelyHolding(r, i, j, c, l);
    assert StepAt(r, j);
  }

  lemma {:induction false} AbsentUntilGranted(r: Run, i: nat, j: nat, l: LockId)
    requires IsRun(r) && i <= j <= |r.events| && l !in r.worlds[i].core.table
    requires forall k | i <= k < j :: !GrantsAnyoneAt(r, k, l)
    ensures l !in r.worlds[j].core.table
  {
    if i < j {
      AbsentUntilGranted(r, i, j - 1, l);
      assert StepAt(r, j - 1) && !GrantsAnyoneAt(r, j - 1, l);
      OnlyGrantsCreate(r.worlds[j - 1], r.events[j - 1], r.worlds[j], l);
    }
  }

  /** A released lock that nobody was granted since is reported as free. */
  lemma UnlockedAfterRelease(r: Run, i: nat, j: nat, c: ClientId, c': ClientId, l: LockId)
    requires IsRun(r) && i < j < |r.events| && ReleasesAt(r, i, c, l) && Requests(r, j, c', IsLocked(l))
    requires forall k | i < k < j :: !GrantsAnyoneAt(r, k, l)
    ensures RepliesAt(r, j) == [Text("0")]
  {
    assert StepAt(r, i) && StepAt(r, j);
    AbsentUntilGranted(r, i + 1, j, l);
  }

  // Restarts.

  /** Nobody sets or deletes this signal of the lock in this stretch. */
  ghost predicate SignalUntouched(r: Run, i: nat, j: nat, l: LockId, s: Signal)
    requires j <= |r.events| < |r.worlds|
  {
    forall k | i <= k < j ::
      !SetsSignal(r.worlds[k], r.events[k], l, s) && !DeletesSignal(r.worlds[k], r.events[k], l, s)
  }

  /** Across an orderly restart, however long the server was down, a client keeps every lock that had not expired
      when the dump was loaded, with its time and signals, and a CONN within the load's grace recovers it unmarked,
      signals included. */
  lemma RestartThenReconnect(r: Run, i: nat, j: nat, c: ClientId, l: LockId)
    requires IsRun(r) && i < j < |r.events| && r.events[i].Restart? && Holds(r.worlds[i].core.table, c, l)
    requires !Expired(r.worlds[i].core.table[l], r.worlds[i + 1].now)
    requires Untouched(r, i + 1, j, c) && ReconnectsAt(r, j, c) && forall k | i < k < j :: !ReleasesAt(r, k, c, l)
    requires r.worlds[j].now < r.events[i].loadedAt + r.events[i].timeout
    ensures l in r.worlds[i + 1].core.table && Remarked(r.worlds[i].core.table[l], r.worlds[i + 1].core.table[l],
      r.events[i].loadedAt + r.events[i].timeout, r.worlds[i + 1].now + r.events[i].timeout)
    ensures Holds(r.worlds[j + 1].core.table, c, l) && r.worlds[j + 1].core.table[l].deadline == None
    ensures r.worlds[j + 1].core.table[l].time == r.worlds[i].core.table[l].time
    ensures forall s | SignalUntouched(r, i + 1, j, l, s) ::
      s in r.worlds[j + 1].core.table[l].signals <==> s in r.worlds[i].core.table[l].signals
  {
    assert StepAt(r, i) && StepAt(r, j);
    TimeIsMonotone(r, 0, i);
    var d := r.worlds[i + 1].core.table[l].deadline.value;
    StaleWhileUnreleased(r, i + 1, j, c, l, d);
    StaleKeepsHolding(r, i + 1, j, c, l, d);
  }

  lemma {:induction false} StaleKeepsHolding(r: Run, i: nat, j: nat, c: ClientId, l: LockId, d: real)
    requires IsRun(r) && i <= j <= |r.events| && StaleUntil(r.worlds[i], c, l, d) && 0.0 < d
    requires Untouched(r, i, j, c) && forall k | i <= k < j :: !ReleasesAt(r, k, c, l)
    requires r.worlds[j].now < d
    ensures StaleUntil(r.worlds[j], c, l, d) && r.worlds[j].core.table[l].time == r.worlds[i].core.table[l].time
    ensures forall s | SignalUntouched(r, i, j, l, s) ::
      s in r.worlds[j].core.table[l].signals <==> s in r.worlds[i].core.table[l].signals
  {
    StaleWhileUnreleased(r, i, j, c, l, d);
    if i < j {
      TimeIsMonotone(r, j - 1, j);
      StaleKeepsHolding(r, i, j - 1, c, l, d);
      StaleOneMore(r, j - 1, c, l, d);
      assert StepAt(r, j - 1) && !ReleasesAt(r, j - 1, c, l);
      HoldingGoesOn(r.worlds[j - 1], r.events[j - 1], r.worlds[j], l);
      forall s | SignalUntouched(r, i, j, l, s) ensures SignalUntouched(r, i, j - 1, l, s) {}
    }
  }
}
