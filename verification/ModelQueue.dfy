/** The per-model request queue: a sliding window of grant times behind one lock. */
module ModelQueue {
  import opened Rounding
  import opened Windows
  import opened Clocks

  const MINUTE := 60.0
  const STAGGER := 0.25

  function Least(s: seq<real>): (m: real)
    requires s != []
    ensures m in s && forall t | t in s :: m <= t
  {
    if |s| == 1 then s[0] else
    var m := Least(s[1..]);
    assert forall t | t in s :: t == s[0] || t in s[1..];
    if s[0] <= m then s[0] else m
  }

  class ModelRequestQueue {
    const rpm: int
    const maxQueued: int
    var slots: seq<real>
    var pending: nat
    var lastRequest: real
    /** Every grant ever made. */
    ghost var grants: seq<real>
    /** What has been pruned from `slots` lies at or before this. */
    ghost var cutoff: real

    ghost predicate Valid()
      reads this
    {
      && slots == Recent(grants, cutoff)
      && Sorted(grants) && Spaced(grants, 1, STAGGER)
      && (if rpm > 0 then Spaced(grants, rpm, MINUTE) else grants == [])
      && (grants != [] ==> lastRequest == grants[|grants| - 1])
      && pending <= Limit()
    }

    /** The clock has not gone back. */
    ghost predicate NotAfter(now: real)
      reads this
    {
      grants != [] ==> lastRequest <= now && cutoff <= now - MINUTE
    }

    /** The test is `pending > max_queued`, so one request more than `max_queued` is let in. */
    function Limit(): nat {
      if maxQueued < 0 then 0 else maxQueued + 1
    }

    constructor (rpm: int, maxQueued: int)
      ensures Valid() && grants == [] && pending == 0 && this.rpm == rpm && this.maxQueued == maxQueued
    {
      this.rpm, this.maxQueued := rpm, maxQueued;
      slots, pending, lastRequest, grants := [], 0, 0.0, [];
    }

    /** The admission test at the head of `acquire`; false is the queue-full RuntimeError. */
    method Enter() returns (admitted: bool)
      requires Valid()
      modifies this`pending
      ensures Valid()
      ensures admitted <==> old(pending) <= maxQueued
      ensures pending == old(pending) + if admitted then 1 else 0
    {
      if pending > maxQueued {
        return false;
      }
      pending := pending + 1;
      admitted := true;
    }

    method Leave()
      requires Valid() && pending > 0
      modifies this`pending
      ensures Valid() && pending == old(pending) - 1
    {
      pending := pending - 1;
    }

    /** Appends a grant at `t`, without pruning. */
    method Record(t: real)
      requires Valid() && rpm > 0 && cutoff <= t - MINUTE && |Recent(grants, t - MINUTE)| < rpm
      requires grants != [] ==> t - lastRequest >= STAGGER
      modifies this`slots, this`lastRequest, this`grants
      ensures Valid() && NotAfter(t) && grants == old(grants) + [t]
    {
      GrantKeepsSpacing(grants, rpm, MINUTE, t, t - MINUTE);
      RecentOneMore(grants, t, cutoff);
      slots := slots + [t];
      lastRequest := t;
      grants := grants + [t];
    }

    /** Sleeps until a quarter second after the last grant. */
    method Stagger(clock: Clock) returns (now: real)
      modifies clock
      ensures old(clock.time) <= now == clock.time && now - lastRequest >= STAGGER
    {
      now := clock.Now();
      var sinceLast := now - lastRequest;
      if sinceLast < STAGGER {
        clock.Sleep(STAGGER - sinceLast);
        now := clock.Now();
      }
    }

    method Prune(windowStart: real)
      requires Valid() && NotAfter(windowStart + MINUTE)
      modifies this`slots, this`cutoff
      ensures Valid() && slots == Recent(grants, windowStart) && cutoff == windowStart
      ensures grants == [] ==> slots == []
    {
      Refiltered(windowStart);
      slots := Recent(slots, windowStart);
      cutoff := windowStart;
    }

    /** `_wait_for_slot` under the lock; None is the ValueError of `min` on an empty list. `at` is when the window was
        examined: with room there the grant is immediate, otherwise it waits for the rpm-th last grant to expire. */
    method WaitForSlot(clock: Clock) returns (wait: Option<real>, ghost at: real)
      requires Valid() && NotAfter(clock.time)
      modifies this`slots, this`lastRequest, this`grants, this`cutoff, clock
      ensures Valid() && NotAfter(clock.time)
      ensures old(clock.time) <= at <= clock.time
      ensures rpm <= 0 ==> wait.None? && grants == old(grants)
      ensures rpm > 0 ==> wait.Some? && grants == old(grants) + [clock.time]
      ensures rpm > 0 && |Recent(old(grants), at - MINUTE)| < rpm ==> wait == Some(0.0) && clock.time == at
      ensures rpm > 0 && |Recent(old(grants), at - MINUTE)| >= rpm ==>
                && |old(grants)| >= rpm
                && wait == Some(old(grants)[|old(grants)| - rpm] + MINUTE - at)
                && wait.value > 0.0 && clock.time >= at + wait.value
    {
      hide Recent, Spaced, Sorted;
      var now := Stagger(clock);
      at := now;
      Prune(now - MINUTE);
      if |slots| < rpm {
        Record(now);
        return Some(0.0), at;
      }
      if slots == [] {
        return None, at;
      }
      FullWindow(now - MINUTE);
      var oldest := Least(slots);
      var waitTime := oldest + MINUTE - now;
      if waitTime > 0.0 {
        clock.Sleep(waitTime);
      }
      var newNow := clock.Now();
      ExpiredBy(newNow - MINUTE);
      Record(newNow);
      wait := Some(waitTime);
    }

    /** Requests granted in the last minute, whatever stale entries the list still holds. */
    method ActiveCount(clock: Clock) returns (n: nat)
      requires Valid() && NotAfter(clock.time)
      modifies clock
      ensures n == |Recent(grants, clock.time - MINUTE)|
    {
      var now := clock.Now();
      Refiltered(now - MINUTE);
      n := |Recent(slots, now - MINUTE)|;
    }

    lemma Refiltered(windowStart: real)
      requires Valid() && NotAfter(windowStart + MINUTE)
      ensures Recent(slots, windowStart) == Recent(grants, windowStart)
    {
      if grants != [] {
        RecentTwice(grants, cutoff, windowStart);
      }
    }

    /** A full window holds exactly rpm grants, the oldest of them first. */
    lemma FullWindow(windowStart: real)
      requires Sorted(grants) && rpm > 0 && Spaced(grants, rpm, MINUTE)
      requires grants != [] ==> grants[|grants| - 1] - MINUTE <= windowStart
      requires slots == Recent(grants, windowStart) && |slots| >= rpm
      ensures |slots| == rpm <= |grants| && Least(slots) == slots[0] == grants[|grants| - rpm] > windowStart
    {
      SpacedIsFull(grants, rpm, MINUTE, windowStart);
      RecentIsTail(grants, windowStart);
      var i :| 0 <= i < |slots| && slots[i] == Least(slots);
      assert slots[0] <= slots[i];
    }

    /** Once the oldest grant of a full window has expired there is room. */
    lemma ExpiredBy(later: real)
      requires Sorted(grants) && rpm > 0 && |grants| >= rpm && grants[|grants| - rpm] <= later
      ensures |Recent(grants, later)| < rpm
    {
      RecentIsTail(grants, later);
      var r := Recent(grants, later);
      var i := |grants| - rpm;
      assert forall j | |grants| - |r| <= j < |grants| :: grants[j] == r[j - (|grants| - |r|)];
    }
  }

  /** Over the whole life of a queue, no minute sees more than rpm grants and no quarter second more than one. */
  lemma GrantsAreLimited(q: ModelRequestQueue, from: real)
    requires q.Valid() && q.rpm > 0
    ensures Count(q.grants, from, 60.0) <= q.rpm
    ensures Count(q.grants, from, 0.25) <= 1
  {
    AtMostPerWindow(q.grants, q.rpm, MINUTE, from);
    AtMostPerWindow(q.grants, 1, STAGGER, from);
  }
}
