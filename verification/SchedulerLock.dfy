/** internal/scheduler/lock.go and run.go: a timed lock shared by any number of replicas. Times are in nanoseconds. */
module SchedulerLock {
  import opened Wrappers
  import opened Int64

  const SECOND := 1_000_000_000
  const MINUTE := 60 * SECOND
  const HOUR := 60 * MINUTE

  // ---------------------------------------------------------------- arithmetic

  function LockTTL(interval: int): int {
    if interval <= 0 then MINUTE
    else
      var ttl := TruncDiv(Wrap64(interval * 9), 10);
      if ttl < 2 * SECOND then 2 * SECOND else ttl
  }

  function JobTimeout(interval: int): int {
    if interval < 30 * MINUTE then 30 * MINUTE
    else if interval > 2 * HOUR then 2 * HOUR
    else interval
  }

  /** The lock's TTL: a minute without an interval, and else nine tenths of it, rounded down, but at least 2 s. */
  lemma LockTTLOf(interval: int)
    ensures interval <= 0 ==> LockTTL(interval) == 60_000_000_000
    ensures 0 < interval && 9 * interval <= Int64.MAX ==>
      var ttl := LockTTL(interval);
      && ttl >= 2_000_000_000
      && (ttl > 2_000_000_000 ==> 10 * ttl <= 9 * interval < 10 * ttl + 10)
      && (9 * interval >= 20_000_000_010 ==> ttl > 2_000_000_000)
  {
  }

  /** A job's timeout: the interval, but at least 30 minutes and at most 2 hours. */
  lemma JobTimeoutOf(interval: int)
    ensures
      var timeout := JobTimeout(interval);
      && 1_800_000_000_000 <= timeout <= 7_200_000_000_000
      && (1_800_000_000_000 <= interval <= 7_200_000_000_000 ==> timeout == interval)
      && (interval < 1_800_000_000_000 ==> timeout == 1_800_000_000_000)
      && (interval > 7_200_000_000_000 ==> timeout == 7_200_000_000_000)
  {
  }

  /**
   For every positive int64 interval, the lock outlives the job's deadline exactly from 8000 s on, as long as
   nine intervals, wrapped to int64, come to at least 72000 s; without overflow that second condition says nothing.
   */
  lemma LockOutlivesJobIff(interval: int)
    requires 0 < interval <= Int64.MAX
    ensures LockTTL(interval) >= JobTimeout(interval) <==>
      interval >= 8000 * SECOND && Wrap64(9 * interval) >= 72_000 * SECOND
    ensures 9 * interval <= Int64.MAX ==>
      (LockTTL(interval) >= JobTimeout(interval) <==> interval >= 8000 * SECOND)
  {
    assert interval * 9 == 9 * interval;
  }

  // ---------------------------------------------------------------- the lock

  /** SET NX may fail before or after it took effect; then no job starts. */
  datatype Reply = Answered | LostBefore | LostAfter

  /** One runJob of a replica: its context starts, then it asks for the lock. */
  datatype Attempt = Attempt(replica: nat, contextFrom: int, at: int, interval: int, reply: Reply)

  function Ttl(a: Attempt): int {
    var ttl := LockTTL(a.interval);
    if ttl < SECOND then SECOND else ttl
  }

  /** The key is free when it was never set or has expired. */
  predicate Free(expiry: Option<int>, now: int) {
    expiry.None? || expiry.value <= now
  }

  function After(expiry: Option<int>, a: Attempt): Option<int> {
    if Free(expiry, a.at) && !a.reply.LostBefore? then Some(a.at + Ttl(a)) else expiry
  }

  predicate Granted(expiry: Option<int>, a: Attempt) {
    Free(expiry, a.at) && a.reply.Answered?
  }

  /** The attempts that start a job, in order. */
  function Starts(expiry: Option<int>, attempts: seq<Attempt>): seq<Attempt>
    decreases |attempts|
  {
    if attempts == [] then []
    else
      (if Granted(expiry, attempts[0]) then [attempts[0]] else []) +
      Starts(After(expiry, attempts[0]), attempts[1..])
  }

  /** Redis, holding one key per task. */
  class LockStore {
    var expiry: map<string, int>

    constructor ()
      ensures expiry == map[]
    {
      expiry := map[];
    }

    function Expiry(name: string): Option<int>
      reads this
    {
      if name in expiry then Some(expiry[name]) else None
    }

    /** tryLock. */
    method TryLock(name: string, a: Attempt) returns (ok: bool)
      modifies this
      ensures ok <==> Granted(old(Expiry(name)), a)
      ensures Expiry(name) == After(old(Expiry(name)), a)
      ensures forall other :: other != name ==> Expiry(other) == old(Expiry(other))
    {
      var ttl := LockTTL(a.interval);
      if ttl < SECOND {
        ttl := SECOND;
      }
      if a.reply == LostBefore {
        return false;
      }
      if name in expiry && expiry[name] > a.at {
        return false;
      }
      expiry := expiry[name := a.at + ttl];
      return a.reply == Answered;
    }

    /** The runJob calls of all replicas for one task, in the order in which Redis serves them. */
    method RunJobs(name: string, attempts: seq<Attempt>) returns (started: seq<Attempt>)
      modifies this
      ensures started == Starts(old(Expiry(name)), attempts)
    {
      started := [];
      for i := 0 to |attempts|
        invariant started + Starts(Expiry(name), attempts[i..]) == Starts(old(Expiry(name)), attempts)
      {
        assert attempts[i..][1..] == attempts[i + 1..];
        var ok := TryLock(name, attempts[i]);
        if ok {
          started := started + [attempts[i]];
        }
      }
    }
  }

  // ---------------------------------------------------------------- spacing

  ghost predicate InOrder(attempts: seq<Attempt>) {
    forall i, j :: 0 <= i < j < |attempts| ==> attempts[i].at <= attempts[j].at
  }

  lemma {:induction false} StartsAreServed(expiry: Option<int>, attempts: seq<Attempt>)
    requires InOrder(attempts)
    ensures InOrder(Starts(expiry, attempts))
    ensures forall s <- Starts(expiry, attempts) :: s in attempts && !(expiry.Some? && s.at < expiry.value)
    decreases |attempts|
  {
    hide LockTTL, Granted, After;
    if attempts != [] {
      var a, rest := attempts[0], attempts[1..];
      var after := After(expiry, a);
      var later := Starts(after, rest);
      StartsAreServed(after, rest);
      assert Starts(expiry, attempts) == (if Granted(expiry, a) then [a] else []) + later;
      FreeAfter(expiry, a);
      hide Starts;
      assert forall s <- later :: s in attempts && a.at <= s.at;
    }
  }

  /** An attempt gets the lock only when it is free, and never frees it. */
  lemma FreeAfter(expiry: Option<int>, a: Attempt)
    ensures Granted(expiry, a) ==> !(expiry.Some? && a.at < expiry.value)
    ensures expiry.Some? && a.at < expiry.value ==> After(expiry, a) == expiry
  {
  }

  /** A replica that gets the lock keeps every other start away for its whole TTL. */
  lemma {:induction false} StartsAreSpaced(expiry: Option<int>, attempts: seq<Attempt>, i: nat, j: nat)
    requires InOrder(attempts) && i < j < |Starts(expiry, attempts)|
    ensures var s := Starts(expiry, attempts); s[j].at >= s[i].at + Ttl(s[i])
    decreases |attempts|
  {
    var a, rest := attempts[0], attempts[1..];
    var later := Starts(After(expiry, a), rest);
    if Granted(expiry, a) {
      assert Starts(expiry, attempts) == [a] + later;
      if i == 0 {
        StartsAreServed(After(expiry, a), rest);
        assert later[j - 1] in later;
      } else {
        StartsAreSpaced(After(expiry, a), rest, i - 1, j - 1);
      }
    } else {
      assert Starts(expiry, attempts) == later;
      StartsAreSpaced(After(expiry, a), rest, i, j);
    }
  }

  lemma {:induction false} StartsSpread(expiry: Option<int>, attempts: seq<Attempt>, least: int, i: nat, j: nat)
    requires InOrder(attempts) && i <= j < |Starts(expiry, attempts)|
    requires forall a <- attempts :: Ttl(a) >= least
    ensures var s := Starts(expiry, attempts); s[j].at - s[i].at >= (j - i) * least
    decreases j
  {
    hide Starts, Ttl;
    if i < j {
      StartsSpread(expiry, attempts, least, i, j - 1);
      StartsAreSpaced(expiry, attempts, j - 1, j);
      StartsAreServed(expiry, attempts);
      assert Starts(expiry, attempts)[j - 1] in Starts(expiry, attempts);
      OneMore(j - 1 - i, least);
    }
  }

  lemma OneMore(k: int, d: int)
    ensures (k + 1) * d == k * d + d
  {
  }

  /** A window of length T holds at most T / TTL + 1 starts, however many replicas ask and however often. */
  lemma StartsInWindow(expiry: Option<int>, attempts: seq<Attempt>, least: int, i: nat, j: nat, window: int)
    requires InOrder(attempts) && i <= j < |Starts(expiry, attempts)|
    requires least > 0 && forall a <- attempts :: Ttl(a) >= least
    requires Starts(expiry, attempts)[j].at - Starts(expiry, attempts)[i].at <= window
    ensures j - i + 1 <= window / least + 1
  {
    StartsSpread(expiry, attempts, least, i, j);
    QuotientBound(j - i, least, window);
  }

  lemma AtLeastOnce(k: int, d: int)
    requires k >= 1 && d > 0
    ensures k * d >= d
  {
  }

  lemma QuotientBound(k: nat, d: int, n: int)
    requires d > 0 && k * d <= n
    ensures k <= n / d
  {
    var q := n / d;
    assert n < q * d + d;
    assert (k - q) * d == k * d - q * d;
    if k - q >= 1 {
      AtLeastOnce(k - q, d);
    }
  }

  // ---------------------------------------------------------------- jobs

  /** Replicas share one configuration, and a context starts before its replica asks for the lock. */
  ghost predicate Served(attempts: seq<Attempt>, interval: int) {
    InOrder(attempts) && forall a <- attempts :: a.interval == interval && a.contextFrom <= a.at
  }

  /** Stopping times of the started jobs, none past its context's deadline. */
  ghost predicate StopsInTime(starts: seq<Attempt>, stops: seq<int>) {
    && |stops| == |starts|
    && forall i :: 0 <= i < |starts| ==>
         starts[i].at <= stops[i] <= starts[i].contextFrom + JobTimeout(starts[i].interval)
  }

  ghost predicate NoOverlap(starts: seq<Attempt>, stops: seq<int>)
    requires |stops| == |starts|
  {
    forall i, j :: 0 <= i < j < |starts| ==> stops[i] <= starts[j].at
  }

  ghost predicate NeverOverlaps(interval: int) {
    forall attempts, stops :: Served(attempts, interval) && StopsInTime(Starts(None, attempts), stops) ==>
      NoOverlap(Starts(None, attempts), stops)
  }

  /** Jobs of one task exclude each other in every schedule exactly when the lock outlives the deadline. */
  lemma JobsExcludeEachOtherIff(interval: int)
    requires 0 < interval <= Int64.MAX
    ensures NeverOverlaps(interval) <==> interval >= 8000 * SECOND && Wrap64(9 * interval) >= 72_000 * SECOND
  {
    LockOutlivesJobIff(interval);
    if LockTTL(interval) >= JobTimeout(interval) {
      forall attempts, stops | Served(attempts, interval) && StopsInTime(Starts(None, attempts), stops)
        ensures NoOverlap(Starts(None, attempts), stops)
      {
        var s := Starts(None, attempts);
        StartsAreServed(None, attempts);
        forall i, j | 0 <= i < j < |s| ensures stops[i] <= s[j].at {
          StartsAreSpaced(None, attempts, i, j);
          assert s[i] in s;
        }
      }
    } else {
      TwoReplicasOverlap(interval);
    }
  }

  /** Otherwise a second replica that comes up when the key expires runs beside a slow first job. */
  lemma TwoReplicasOverlap(interval: int)
    requires LockTTL(interval) < JobTimeout(interval)
    ensures !NeverOverlaps(interval)
  {
    hide LockTTL, JobTimeout;
    TtlIsLockTTL(interval);
    var ttl := LockTTL(interval);
    var a, b := Attempt(0, 0, 0, interval, Answered), Attempt(1, ttl, ttl, interval, Answered);
    var attempts, stops := [a, b], [JobTimeout(interval), ttl];
    assert attempts[1..] == [b] && [b][1..] == [];
    assert Starts(Some(ttl), [b]) == [b];
    assert Starts(None, attempts) == [a, b];
    JobTimeoutPositive(interval);
    assert StopsInTime(Starts(None, attempts), stops);
    assert !NoOverlap(Starts(None, attempts), stops);
  }

  lemma TtlIsLockTTL(interval: int)
    ensures forall a: Attempt :: a.interval == interval ==> Ttl(a) == LockTTL(interval)
    ensures LockTTL(interval) > 0
  {
  }

  lemma JobTimeoutPositive(interval: int)
    ensures JobTimeout(interval) > 0
  {
  }
}
