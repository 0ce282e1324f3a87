/** The two-tier login limiter over ordered dictionaries of sliding windows. */
module LoginLimiter {
  import opened Rounding
  import opened Windows
  import opened LoginModel

  class SlidingWindow {
    const maxAttempts: int
    const windowSeconds: real
    var attempts: seq<real>

    /** A window holding the attempts a dictionary entry has on record. */
    constructor (maxAttempts: int, windowSeconds: real, attempts: seq<real>)
      ensures this.maxAttempts == maxAttempts && this.windowSeconds == windowSeconds && this.attempts == attempts
    {
      this.maxAttempts, this.windowSeconds, this.attempts := maxAttempts, windowSeconds, attempts;
    }

    method Prune(now: real)
      modifies this
      ensures attempts == Pruned(old(attempts), now - windowSeconds)
    {
      var cutoff := now - windowSeconds;
      while attempts != [] && attempts[0] <= cutoff
        invariant Pruned(attempts, cutoff) == Pruned(old(attempts), cutoff)
        decreases |attempts|
      {
        attempts := attempts[1..];
      }
    }

    /** Records only what it allows. */
    method Attempt(now: real) returns (allowed: bool)
      modifies this
      ensures allowed == Allows(old(attempts), windowSeconds, maxAttempts, now)
      ensures attempts == Pruned(old(attempts), now - windowSeconds) + if allowed then [now] else []
    {
      Prune(now);
      if |attempts| >= maxAttempts {
        return false;
      }
      attempts := attempts + [now];
      allowed := true;
    }

    method RetryAfter(now: real) returns (seconds: real)
      modifies this
      ensures attempts == Pruned(old(attempts), now - windowSeconds)
      ensures seconds == Wait(attempts, windowSeconds, maxAttempts, now)
    {
      Prune(now);
      if attempts == [] || |attempts| < maxAttempts {
        return 0.0;
      }
      var remaining := attempts[0] + windowSeconds - now;
      seconds := Max(0.0, remaining);
    }
  }

  /** Seconds until the oldest live attempt expires when the limit is reached. */
  function Wait(live: seq<real>, window: real, limit: int, now: real): real {
    if live == [] || |live| < limit then 0.0 else Max(0.0, live[0] + window - now)
  }

  /** One ordered dictionary, least recently used first, with its limits. */
  class Tier {
    const limit: int
    const window: real
    const cap: int
    var buckets: seq<Entry>
    /** Every accepted attempt of every key. */
    ghost var history: History
    /** Keys that ever lost live attempts to an eviction. */
    ghost var dropped: set<Key>
    ghost var clock: real

    function Bound(): int {
      if cap > 1 then cap else 1
    }

    ghost predicate Valid()
      reads this
    {
      Refines(buckets, history, dropped, window, clock) && |buckets| <= Bound()
    }

    constructor (limit: int, window: real, cap: int)
      ensures Valid() && buckets == [] && history == map[] && dropped == {}
      ensures this.limit == limit && this.window == window && this.cap == cap
    {
      this.limit, this.window, this.cap, buckets := limit, window, cap, [];
      history, dropped := map[], {};
    }

    /** Time has passed, nothing else. */
    ghost method StartAt(now: real)
      requires Valid() && (clock <= now || (buckets == [] && history == map[]))
      modifies this`clock
      ensures Valid() && clock == now
    {
      TicksRefine(buckets, history, dropped, window, clock, now);
      clock := now;
    }

    method PruneEvery(now: real)
      modifies this`buckets
      ensures buckets == PruneAll(old(buckets), now - window)
    {
      hide Pruned, PruneAll;
      ghost var before := buckets;
      for i := 0 to |buckets|
        invariant |buckets| == |before|
        invariant forall j | 0 <= j < |buckets| ::
                    buckets[j] == if j < i then Entry(before[j].key, Pruned(before[j].attempts, now - window)) else before[j]
      {
        var w := new SlidingWindow(limit, window, buckets[i].attempts);
        w.Prune(now);
        buckets := buckets[i := buckets[i].(attempts := w.attempts)];
      }
      PruneAllAttempts(before, now - window, "");
      assert buckets == PruneAll(before, now - window);
    }

    method SweepEmpty()
      modifies this`buckets
      ensures buckets == Nonempty(old(buckets))
    {
      var kept: seq<Entry> := [];
      for i := 0 to |buckets|
        invariant buckets == old(buckets) && kept == Nonempty(buckets[..i])
      {
        NonemptyOneMore(buckets, i);
        if buckets[i].attempts != [] {
          kept := kept + [buckets[i]];
        }
      }
      assert buckets[..|buckets|] == buckets;
      buckets := kept;
    }

    method EvictToCap(now: real)
      modifies this`buckets
      ensures buckets == Evicted(old(buckets), cap, now - window)
    {
      hide PruneAll, Nonempty;
      if |buckets| < cap {
        return;
      }
      PruneEvery(now);
      SweepEmpty();
      ghost var swept := buckets;
      ghost var n := 0;
      while buckets != [] && |buckets| >= cap
        invariant n <= Surplus(swept, cap) && buckets == swept[n..]
        decreases |buckets|
      {
        buckets := buckets[1..];
        n := n + 1;
      }
    }

    /** `_get_or_create_bucket`: the key's window ends up most recently used. */
    method Fetch(key: Key, now: real)
      modifies this`buckets
      ensures buckets == Fetched(old(buckets), key, cap, now - window)
    {
      hide Evicted;
      var i := IndexOf(buckets, key);
      if i < |buckets| {
        buckets := buckets[..i] + buckets[i + 1..] + [buckets[i]];
      } else {
        EvictToCap(now);
        buckets := buckets + [Entry(key, [])];
      }
    }

    /** Fetches the key's window and attempts. A key that never lost live attempts is allowed exactly when its accepted
        history counts fewer than `limit` inside the window; any other key is never blocked sooner than that. */
    method CheckAndRecord(key: Key, now: real) returns (allowed: bool)
      requires Valid() && clock <= now
      modifies this
      ensures Valid() && clock == now
      ensures |Recent(HistoryOf(old(history), key), now - window)| < limit ==> allowed
      ensures allowed && key !in old(dropped) ==> |Recent(HistoryOf(old(history), key), now - window)| < limit
      ensures history == Recorded(old(history), key, now, allowed)
      ensures dropped == old(dropped) + if Has(old(buckets), key) then {} else Lost(old(buckets), cap, now - window)
    {
      hide Refines, Fetched, Lost, Has, Pruned, Recent, AttemptsOf;
      ghost var before := buckets;
      Fetch(key, now);
      FetchRefines(before, history, dropped, window, clock, now, key, cap);
      FetchedLast(before, key, cap, now - window);
      clock := now;
      dropped := dropped + if Has(before, key) then {} else Lost(before, cap, now - window);
      AttemptRefines(buckets, history, dropped, window, limit, now);
      var last := |buckets| - 1;
      StillExact(before, key, cap, now - window, history, old(dropped), window, old(clock));
      var w := new SlidingWindow(limit, window, buckets[last].attempts);
      allowed := w.Attempt(now);
      ghost var fetched := buckets;
      buckets := buckets[last := Entry(key, w.attempts)];
      assert buckets == Attempted(fetched, window, limit, now);
      history := Recorded(history, key, now, allowed);
    }

    /** Removes what has expired; no later decision can tell. */
    method PruneAndSweep(now: real)
      requires Valid() && clock <= now
      modifies this`buckets, this`clock
      ensures Valid() && clock == now && buckets == Swept(old(buckets), now - window)
    {
      hide Refines, PruneAll, Nonempty;
      ghost var before := buckets;
      PruneEvery(now);
      SweepEmpty();
      SweepRefines(before, history, dropped, window, clock, now);
      clock := now;
    }

    /** The hint of a blocked caller: the time until the oldest of the counted attempts leaves the window. The bucket is
        pruned, and removed when nothing is left in it. */
    method RetryAfter(key: Key, now: real) returns (seconds: real)
      requires Valid() && clock <= now
      modifies this`buckets, this`clock
      ensures Valid() && clock == now
      ensures key !in dropped ==> seconds == Wait(Recent(HistoryOf(history, key), now - window), window, limit, now)
    {
      hide Refines, Pruned, Recent, AttemptsOf;
      ghost var before := buckets;
      var i := IndexOf(buckets, key);
      PeekRefines(before, history, dropped, window, clock, now, key);
      clock := now;
      if i == |buckets| {
        return 0.0;
      }
      var w := new SlidingWindow(limit, window, buckets[i].attempts);
      seconds := w.RetryAfter(now);
      if w.attempts == [] {
        buckets := buckets[..i] + buckets[i + 1..];
      } else {
        buckets := buckets[i := Entry(key, w.attempts)];
      }
      assert buckets == Peeked(before, key, now - window);
    }
  }

  datatype Reason = EmailIp | IpOnly

  class LoginRateLimiter {
    const email: Tier
    const ip: Tier
    var pruneCounter: nat

    ghost predicate Valid()
      reads this, email, ip
    {
      email != ip && email.Valid() && ip.Valid() && email.clock == ip.clock && pruneCounter < 100
    }

    constructor (emailLimit: int, emailWindow: int, ipLimit: int, ipWindow: int, maxEmailBuckets: int, maxIpBuckets: int,
                 ghost start: real)
      ensures Valid() && fresh(email) && fresh(ip) && pruneCounter == 0
      ensures email.limit == emailLimit && email.window == emailWindow as real && email.cap == maxEmailBuckets
      ensures ip.limit == ipLimit && ip.window == ipWindow as real && ip.cap == maxIpBuckets
      ensures email.history == map[] && ip.history == map[] && email.dropped == {} && ip.dropped == {}
      ensures email.clock == ip.clock == start
    {
      var narrow := new Tier(emailLimit, emailWindow as real, maxEmailBuckets);
      var wide := new Tier(ipLimit, ipWindow as real, maxIpBuckets);
      narrow.StartAt(start);
      wide.StartAt(start);
      email, ip := narrow, wide;
      pruneCounter := 0;
    }

    /** One login attempt; `hashed` is the digest of the normalised email and the address. Both verdicts are those of
        counting accepted attempts inside the windows, for keys no eviction has touched before the call; the narrow tier
        records an attempt even when the wide one then blocks it. An eviction touches only keys that hold live attempts,
        and none while fewer keys than the cap do. */
    method CheckAndRecord(hashed: Key, clientIp: Key, now: real) returns (blocked: Option<Reason>)
      requires Valid() && email.clock <= now
      modifies this, email, ip
      ensures Valid() && email.clock == now
      ensures var narrow := |Recent(HistoryOf(old(email.history), hashed), now - email.window)| < email.limit;
              var wide := |Recent(HistoryOf(old(ip.history), clientIp), now - ip.window)| < ip.limit;
              && (hashed !in old(email.dropped) ==> (blocked == Some(EmailIp) <==> !narrow))
              && (narrow ==> blocked != Some(EmailIp))
              && (clientIp !in old(ip.dropped) && blocked != Some(EmailIp) ==> (blocked == Some(IpOnly) <==> !wide))
              && (wide ==> blocked != Some(IpOnly))
      ensures email.history == Recorded(old(email.history), hashed, now, blocked != Some(EmailIp))
      ensures ip.history == Recorded(old(ip.history), clientIp, now, blocked.None?)
      ensures pruneCounter == (old(pruneCounter) + 1) % 100
      ensures email.dropped == old(email.dropped)
                               + Dropping(old(email.buckets), hashed, pruneCounter == 0, email.cap, now - email.window)
      ensures ip.dropped == old(ip.dropped) + if blocked == Some(EmailIp) then {}
                            else Dropping(old(ip.buckets), clientIp, pruneCounter == 0, ip.cap, now - ip.window)
      ensures |Swept(old(email.buckets), now - email.window)| < email.cap ==> email.dropped == old(email.dropped)
      ensures |Swept(old(ip.buckets), now - ip.window)| < ip.cap ==> ip.dropped == old(ip.dropped)
    {
      hide Recent, Recorded, Lost, Has, Swept, Refines, HistoryOf;
      pruneCounter := (pruneCounter + 1) % 100;
      if pruneCounter == 0 {
        PruneAndSweep(now);
      }
      FewActiveDropNothing(old(email.buckets), hashed, pruneCounter == 0, email.cap, now - email.window);
      FewActiveDropNothing(old(ip.buckets), clientIp, pruneCounter == 0, ip.cap, now - ip.window);
      var allowed := email.CheckAndRecord(hashed, now);
      if !allowed {
        ip.StartAt(now);
        NothingRecorded(ip.history, clientIp, now);
        return Some(EmailIp);
      }
      allowed := ip.CheckAndRecord(clientIp, now);
      blocked := if allowed then None else Some(IpOnly);
    }

    method PruneAndSweep(now: real)
      requires Valid() && email.clock <= now
      modifies email`buckets, email`clock, ip`buckets, ip`clock
      ensures Valid() && email.clock == now
      ensures email.buckets == Swept(old(email.buckets), now - email.window)
      ensures ip.buckets == Swept(old(ip.buckets), now - ip.window)
    {
      hide Swept, Refines;
      email.PruneAndSweep(now);
      ip.PruneAndSweep(now);
    }

    method RetryAfter(hashed: Key, now: real) returns (seconds: real)
      requires Valid() && email.clock <= now
      modifies email`buckets, email`clock, ip`clock
      ensures Valid() && email.clock == now
      ensures hashed !in email.dropped ==>
                seconds == Wait(Recent(HistoryOf(email.history, hashed), now - email.window), email.window, email.limit, now)
    {
      seconds := email.RetryAfter(hashed, now);
      ip.StartAt(now);
    }
  }

  /** Fetching a key's own bucket never drops the key. */
  lemma StillExact(es: seq<Entry>, key: Key, cap: int, cutoff: real, history: History, dropped: set<Key>, window: real,
                   clock: real)
    requires Refines(es, history, dropped, window, clock)
    ensures key !in dropped ==> key !in dropped + if Has(es, key) then {} else Lost(es, cap, cutoff)
  {
    hide Lost, Has, Tracks;
    if key in Lost(es, cap, cutoff) {
      LostHadBuckets(es, cap, cutoff, key);
    }
  }

  /** The hint is exact: before it has passed the same attempts still count, once it has the oldest does not. */
  lemma WaitIsExact(h: seq<real>, window: real, limit: int, now: real, later: real)
    requires Sorted(h) && limit >= 1 && |Recent(h, now - window)| >= limit && now <= later
    ensures var live, wait := Recent(h, now - window), Wait(Recent(h, now - window), window, limit, now);
            && wait > 0.0
            && (later < now + wait ==> Recent(h, later - window) == live)
            && (later >= now + wait ==> |Recent(h, later - window)| < |live|)
  {
    hide Recent;
    RecentIsTail(h, now - window);
    RecentIsTail(h, later - window);
    var live, recent := Recent(h, now - window), Recent(h, later - window);
    var i := |h| - |live|;
    assert live[0] == h[i];
    assert recent != [] ==> h[|h| - |recent|] == recent[0] > later - window;
    assert forall j | 0 <= j < |h| - |recent| :: h[j] <= later - window;
    assert forall j | |h| - |recent| <= j < |h| :: h[j] == recent[j - (|h| - |recent|)];
  }

  lemma NothingRecorded(history: History, key: Key, now: real)
    ensures Recorded(history, key, now, false) == history
  {
  }

  lemma FetchedLast(es: seq<Entry>, key: Key, cap: int, cutoff: real)
    ensures var fetched := Fetched(es, key, cap, cutoff);
            && fetched != [] && fetched[|fetched| - 1].key == key
            && (|fetched| <= |es| || |fetched| <= cap || |fetched| == 1)
  {
    hide Swept;
  }

  /** A tier within its cap stays within it exactly when the cap admits a bucket at all. */
  lemma CapHoldsIffPositive(es: seq<Entry>, key: Key, cap: int, cutoff: real)
    requires |es| <= cap || es == []
    ensures |Fetched(es, key, cap, cutoff)| <= cap <==> cap >= 1
  {
    FetchedLast(es, key, cap, cutoff);
    hide Swept;
  }
}
