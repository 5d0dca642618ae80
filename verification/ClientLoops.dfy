/** Acquiring a lock before a deadline. */
module ClientLoops {
  import opened Clocks
  import opened Replies

  /** One AQ or AQR of a lock object: what is answered, and how long that takes. */
  datatype Attempt = Attempt(answer: Response, takes: Duration)
  datatype Nap = Nap(start: real, length: real)
  datatype Acquisition = Answered(acquired: bool) | TimedOut | BadTimeout

  const RETRY_INTERVAL := 1.0

  function Pow2(n: nat): nat {
    if n == 0 then 1 else 2 * Pow2(n - 1)
  }

  /** With at most this much time left, `n` halved sleeps with an attempt of `eps` after each use it up. */
  function Reach(n: nat, eps: real): real {
    if n == 0 then 0.0 else 2.0 * (Reach(n - 1, eps) + eps)
  }

  lemma {:induction false} ReachIs(n: nat, eps: real)
    ensures Reach(n, eps) == eps * (2 * Pow2(n) - 2) as real
  {
    if n > 0 { ReachIs(n - 1, eps); }
  }

  /** How far `long` full sleeps and `short` halved ones have brought an acquisition. */
  ghost predicate OnSchedule(long: nat, short: nat, n: nat, eps: real, start: real, deadline: real, now: real) {
    && long as real * RETRY_INTERVAL <= now - start
    && long as real * RETRY_INTERVAL <= deadline - start
    && short <= n
    && (short > 0 ==> deadline - now <= Reach(n - short, eps))
  }

  lemma LongSleep(long: nat, short: nat, n: nat, eps: real, start: real, deadline: real, now: real, later: real)
    requires OnSchedule(long, short, n, eps, start, deadline, now)
    requires now + RETRY_INTERVAL <= deadline && later >= now + RETRY_INTERVAL
    ensures OnSchedule(long + 1, short, n, eps, start, deadline, later)
  {}

  /** `asked` is when the loop found the deadline ahead, `now` when the sleep was measured out. */
  lemma ShortSleep(long: nat, short: nat, n: nat, eps: real, start: real, deadline: real, asked: real, now: real,
                   later: real)
    requires OnSchedule(long, short, n, eps, start, deadline, asked)
    requires eps > 0.0 && RETRY_INTERVAL <= Reach(n, eps)
    requires asked < deadline && asked <= now && deadline - now < RETRY_INTERVAL
    requires later >= now + (if deadline - now <= 0.0 then 0.0 else (deadline - now) / 2.0) + eps
    ensures OnSchedule(long, short + 1, n, eps, start, deadline, later)
  {
    assert n - short > 0;
    assert Reach(n - short, eps) == 2.0 * (Reach(n - short - 1, eps) + eps);
    ReachIsNotNegative(n - short - 1, eps);
  }

  lemma {:induction false} ReachIsNotNegative(n: nat, eps: real)
    requires eps > 0.0
    ensures Reach(n, eps) >= 0.0
  {
    if n > 0 { ReachIsNotNegative(n - 1, eps); }
  }

  /** How long to sleep with `left` seconds to the deadline. */
  function SleepFor(left: real): Duration {
    if left <= 0.0 then 0.0 else if left < RETRY_INTERVAL then left / 2.0 else RETRY_INTERVAL
  }

  /** One sleep and one attempt, of either kind. */
  lemma RoundOfSleep(long: nat, short: nat, n: nat, eps: real, start: real, deadline: real, asked: real, now: real,
                     later: real)
    returns (long': nat, short': nat)
    requires OnSchedule(long, short, n, eps, start, deadline, asked)
    requires eps > 0.0 && RETRY_INTERVAL <= Reach(n, eps) && asked < deadline && asked <= now
    requires later >= now + SleepFor(deadline - now) + eps
    ensures OnSchedule(long', short', n, eps, start, deadline, later) && long' + short' == long + short + 1
    ensures short < short' <= n || (short' == short && asked + RETRY_INTERVAL <= later)
  {
    if deadline - now < RETRY_INTERVAL {
      ShortSleep(long, short, n, eps, start, deadline, asked, now, later);
      long', short' := long, short + 1;
    } else {
      LongSleep(long, short, n, eps, start, deadline, now, later);
      long', short' := long + 1, short;
    }
  }

  /** No sleep from the `from`-th on outlasts the deadline, unless it has no length at all. */
  ghost predicate NapsEndBy(naps: seq<Nap>, from: nat, deadline: real) {
    forall i :: from <= i < |naps| ==> naps[i].length == 0.0 || naps[i].start + naps[i].length <= deadline
  }

  /** Each sleep is a second, or half of what is left where less than a second is. */
  ghost predicate NapsMeasured(naps: seq<Nap>, from: nat, deadline: real) {
    forall i :: from <= i < |naps| ==> IsMeasured(naps[i], deadline)
  }

  predicate IsMeasured(nap: Nap, deadline: real) {
    var left := deadline - nap.start;
    && (left >= 1.0 ==> nap.length == 1.0)
    && (0.0 < left < 1.0 ==> nap.length == left / 2.0)
    && (left <= 0.0 ==> nap.length == 0.0)
  }

  ghost predicate NapsLast(naps: seq<Nap>, from: nat, length: real) {
    forall i :: from <= i < |naps| ==> naps[i].length == length
  }

  lemma OneMoreNap(naps: seq<Nap>, from: nat, nap: Nap, deadline: real)
    ensures NapsEndBy(naps, from, deadline) && (nap.length == 0.0 || nap.start + nap.length <= deadline) ==>
      NapsEndBy(naps + [nap], from, deadline)
    ensures NapsMeasured(naps, from, deadline) && IsMeasured(nap, deadline) ==>
      NapsMeasured(naps + [nap], from, deadline)
    ensures NapsLast(naps, from, nap.length) ==> NapsLast(naps + [nap], from, nap.length)
  {}

  class LiveLock {
    const clock: Clock
    const timeout: real
    const reentrant: bool
    /** What the k-th attempt with this command comes to. */
    const script: (string, nat) -> Attempt
    var attempts: nat
    var acquired: bool
    ghost var naps: seq<Nap>

    constructor (clock: Clock, timeout: real, reentrant: bool, script: (string, nat) -> Attempt)
      ensures this.clock == clock && this.timeout == timeout && this.reentrant == reentrant && this.script == script
      ensures attempts == 0 && !acquired && naps == []
    {
      this.clock, this.timeout, this.reentrant, this.script := clock, timeout, reentrant, script;
      attempts, acquired, naps := 0, false, [];
    }

    ghost function Outcome(k: nat): Attempt {
      script(if reentrant then "AQR" else "AQ", k)
    }

    /** The answer is the text '1'. */
    ghost predicate Granted(k: nat) {
      Outcome(k).answer == Plain([49])
    }

    ghost predicate AllRefused(from: nat, to: nat) {
      forall k :: from <= k < to ==> !Granted(k)
    }

    lemma OneMoreRefused(from: nat, to: nat)
      ensures AllRefused(from, from)
      ensures AllRefused(from, to) && !Granted(to) ==> AllRefused(from, to + 1)
    {}

    /** One command to the server. */
    method TryAcquire() returns (granted: bool)
      modifies this`attempts, clock
      ensures attempts == old(attempts) + 1 && granted == Granted(old(attempts))
      ensures clock.now == old(clock.now) + Outcome(old(attempts)).takes
    {
      var command := if reentrant then "AQR" else "AQ";
      var attempt := script(command, attempts);
      clock.Sleep(attempt.takes);
      attempts := attempts + 1;
      granted := attempt.answer == Plain([49]);
    }

    method Sleep(d: Duration)
      modifies this`naps, clock
      ensures naps == old(naps) + [Nap(old(clock.now), d)]
      ensures clock.now == old(clock.now) + d
    {
      naps := naps + [Nap(clock.now, d)];
      clock.Sleep(d);
    }

    /** The deadline of an acquisition that starts now. */
    ghost function Deadline(): real
      reads this, clock
    {
      clock.now + clock.lapse(clock.readings) + timeout
    }

    method SleepTime(deadline: real) returns (d: Duration)
      modifies clock
      ensures old(clock.now) <= clock.now
      ensures d == if timeout <= 0.0 then RETRY_INTERVAL else SleepFor(deadline - clock.now)
    {
      if timeout <= 0.0 { return RETRY_INTERVAL; }
      var now := clock.Time();
      var left := deadline - now;
      if left <= 0.0 { left := 0.0; }
      d := if left < RETRY_INTERVAL then left / 2.0 else RETRY_INTERVAL;
    }

    /** The blocking form, for attempts that take at least `eps` each, or where the timeout is zero and attempt
        `lucky` is granted. `n` halvings bring a retry interval below what one attempt takes. */
    method AcquireBlocking(ghost eps: real, ghost n: nat, ghost lucky: nat) returns (r: Acquisition)
      requires timeout > 0.0 ==> eps > 0.0 && RETRY_INTERVAL <= eps * (2 * Pow2(n) - 2) as real
      requires timeout > 0.0 ==> forall k :: Outcome(k).takes >= eps
      requires timeout == 0.0 ==> attempts <= lucky && Granted(lucky)
      modifies this, clock
      ensures timeout < 0.0 <==> r == BadTimeout
      ensures r == BadTimeout ==> attempts == old(attempts) && acquired == old(acquired) && naps == old(naps)
      ensures r.Answered? ==> r.acquired && acquired && attempts > old(attempts)
      ensures r.Answered? ==> AllRefused(old(attempts), attempts - 1) && Granted(attempts - 1)
      ensures r == TimedOut ==> acquired == old(acquired) && AllRefused(old(attempts), attempts)
      ensures r == TimedOut ==> timeout > 0.0 && clock.now >= old(Deadline())
      ensures timeout > 0.0 ==> NapsEndBy(naps, |old(naps)|, old(Deadline()))
      ensures timeout > 0.0 ==> NapsMeasured(naps, |old(naps)|, old(Deadline()))
      ensures timeout == 0.0 ==> NapsLast(naps, |old(naps)|, 1.0)
      ensures timeout >= 0.0 ==> |naps| - |old(naps)| == attempts - old(attempts) - 1
      ensures timeout > 0.0 ==> (attempts - old(attempts) - 1 - n) as real * RETRY_INTERVAL <= timeout
    {
      if timeout < 0.0 { return BadTimeout; }
      ghost var first, slept := attempts, |naps|;
      ReachIs(n, eps);
      OneMoreRefused(first, first);
      var start := clock.Time();
      var deadline := start + timeout;
      var granted := TryAcquire();
      if granted {
        acquired := true;
        return Answered(true);
      }
      ghost var long: nat, short: nat := 0, 0;
      while true
        invariant clock.now >= start && attempts == first + 1 + long + short && acquired == old(acquired)
        invariant AllRefused(first, attempts)
        invariant timeout > 0.0 ==> NapsEndBy(naps, slept, deadline) && NapsMeasured(naps, slept, deadline)
        invariant |naps| - slept == attempts - first - 1
        invariant timeout > 0.0 ==> short <= n && long as real * RETRY_INTERVAL <= timeout
        invariant timeout > 0.0 ==> OnSchedule(long, short, n, eps, start, deadline, clock.now)
        invariant timeout == 0.0 ==> attempts <= lucky
        invariant timeout == 0.0 ==> NapsLast(naps, slept, RETRY_INTERVAL)
        decreases if timeout == 0.0 then lucky - attempts else n - short, deadline - clock.now
      {
        hide Reach, Pow2, NapsEndBy, NapsMeasured, NapsLast, OnSchedule, AllRefused;
        var now := start;
        if timeout > 0.0 {
          now := clock.Time();
          if now >= deadline { break; }
        }
        var sleepTime := SleepTime(deadline);
        ghost var measured := clock.now;
        OneMoreRefused(first, attempts);
        OneMoreNap(naps, slept, Nap(measured, sleepTime), deadline);
        Sleep(sleepTime);
        granted := TryAcquire();
        if granted {
          acquired := true;
          return Answered(true);
        }
        if timeout > 0.0 {
          long, short := RoundOfSleep(long, short, n, eps, start, deadline, now, measured, clock.now);
        } else {
          long := long + 1;
        }
      }
      return TimedOut;
    }

    method AcquireOnce() returns (r: Acquisition)
      modifies this, clock
      ensures timeout < 0.0 ==> r == BadTimeout && attempts == old(attempts) && acquired == old(acquired)
      ensures timeout >= 0.0 ==> attempts == old(attempts) + 1 && r == Answered(acquired)
      ensures timeout >= 0.0 ==> acquired == Granted(old(attempts)) && naps == old(naps)
    {
      if timeout < 0.0 { return BadTimeout; }
      acquired := TryAcquire();
      return Answered(acquired);
    }
  }
}
