/** Values behind the login limiter: ordered buckets of attempt times, and the histories they stand for. */
module LoginModel {
  import opened Windows

  type Key = string

  datatype Entry = Entry(key: Key, attempts: seq<real>)

  ghost predicate Distinct(es: seq<Entry>) {
    forall i, j | 0 <= i < j < |es| :: es[i].key != es[j].key
  }

  predicate Has(es: seq<Entry>, key: Key) {
    exists i | 0 <= i < |es| :: es[i].key == key
  }

  /** A key without a bucket has no attempts on record. */
  function AttemptsOf(es: seq<Entry>, key: Key): seq<real> {
    if es == [] then []
    else if es[|es| - 1].key == key then es[|es| - 1].attempts
    else AttemptsOf(es[..|es| - 1], key)
  }

  function PruneAll(es: seq<Entry>, cutoff: real): (r: seq<Entry>)
    ensures |r| == |es|
  {
    if es == [] then [] else
    var last := es[|es| - 1];
    PruneAll(es[..|es| - 1], cutoff) + [Entry(last.key, Pruned(last.attempts, cutoff))]
  }

  function Nonempty(es: seq<Entry>): (r: seq<Entry>)
    ensures |r| <= |es|
  {
    if es == [] then [] else
    Nonempty(es[..|es| - 1]) + if es[|es| - 1].attempts != [] then [es[|es| - 1]] else []
  }

  function Swept(es: seq<Entry>, cutoff: real): seq<Entry> {
    Nonempty(PruneAll(es, cutoff))
  }

  /** How many of the oldest buckets make way for a new one. */
  function Surplus(es: seq<Entry>, cap: int): (n: nat)
    ensures n <= |es|
  {
    if cap <= 0 then |es| else if |es| < cap then 0 else |es| + 1 - cap
  }

  function Evicted(es: seq<Entry>, cap: int, cutoff: real): seq<Entry> {
    if |es| < cap then es else
    var swept := Swept(es, cutoff);
    swept[Surplus(swept, cap)..]
  }

  /** Keys that lose live attempts to the eviction. */
  function Lost(es: seq<Entry>, cap: int, cutoff: real): set<Key> {
    if |es| < cap then {} else
    var swept := Swept(es, cutoff);
    set e | e in swept[..Surplus(swept, cap)] :: e.key
  }

  /** The position of a key's bucket, or the length. */
  function IndexOf(es: seq<Entry>, key: Key): (i: nat)
    ensures i <= |es| && (i < |es| ==> es[i].key == key)
    ensures forall j | 0 <= j < i :: es[j].key != key
  {
    if es == [] || es[0].key == key then 0 else IndexOf(es[1..], key) + 1
  }

  /** The key's bucket, moved or added to the most recently used end. */
  function Fetched(es: seq<Entry>, key: Key, cap: int, cutoff: real): seq<Entry> {
    var i := IndexOf(es, key);
    if i < |es| then es[..i] + es[i + 1..] + [es[i]] else Evicted(es, cap, cutoff) + [Entry(key, [])]
  }

  /** The key's bucket pruned in place, or removed when nothing is left in it. */
  function Peeked(es: seq<Entry>, key: Key, cutoff: real): seq<Entry> {
    var i := IndexOf(es, key);
    if i == |es| then es else
    var live := Pruned(es[i].attempts, cutoff);
    es[..i] + (if live == [] then [] else [Entry(key, live)]) + es[i + 1..]
  }

  // ---- What each operation does to the attempts on record ----

  lemma {:induction false} PruneAllAttempts(es: seq<Entry>, cutoff: real, key: Key)
    ensures AttemptsOf(PruneAll(es, cutoff), key) == Pruned(AttemptsOf(es, key), cutoff)
    ensures forall i | 0 <= i < |es| ::
              PruneAll(es, cutoff)[i] == Entry(es[i].key, Pruned(es[i].attempts, cutoff))
  {
    if es != [] {
      PruneAllAttempts(es[..|es| - 1], cutoff, key);
    }
  }

  lemma {:induction false} NonemptyIsSubset(es: seq<Entry>)
    requires Distinct(es)
    ensures Distinct(Nonempty(es))
    ensures forall e | e in Nonempty(es) :: e in es && e.attempts != []
  {
    if es != [] {
      NonemptyIsSubset(es[..|es| - 1]);
      var r := Nonempty(es[..|es| - 1]);
      forall i | 0 <= i < |r| ensures r[i].key != es[|es| - 1].key {
        assert r[i] in r;
        var j :| 0 <= j < |es| - 1 && es[j] == r[i];
      }
    }
  }

  lemma NonemptyOneMore(es: seq<Entry>, i: nat)
    requires i < |es|
    ensures Nonempty(es[..i + 1]) == Nonempty(es[..i]) + if es[i].attempts != [] then [es[i]] else []
  {
    assert es[..i + 1][..i] == es[..i];
  }

  lemma AttemptsOfLast(es: seq<Entry>, e: Entry, key: Key)
    ensures AttemptsOf(es + [e], key) == if e.key == key then e.attempts else AttemptsOf(es, key)
  {
    assert (es + [e])[..|es|] == es;
  }

  lemma {:induction false} AbsentHasNone(es: seq<Entry>, key: Key)
    requires !Has(es, key)
    ensures AttemptsOf(es, key) == []
  {
    if es != [] {
      AbsentHasNone(es[..|es| - 1], key);
    }
  }

  lemma {:induction false} ConcatAttempts(a: seq<Entry>, b: seq<Entry>, key: Key)
    ensures AttemptsOf(a + b, key) == if Has(b, key) then AttemptsOf(b, key) else AttemptsOf(a, key)
  {
    if b == [] {
      assert a + b == a;
    } else {
      var front, last := b[..|b| - 1], b[|b| - 1];
      assert (a + b)[..|a + b| - 1] == a + front;
      if last.key == key {
        assert Has(b, key) by { assert b[|b| - 1].key == key; }
      } else {
        ConcatAttempts(a, front, key);
        if Has(b, key) {
          var i :| 0 <= i < |b| && b[i].key == key;
          assert front[i].key == key;
        }
        if Has(front, key) {
          var i :| 0 <= i < |front| && front[i].key == key;
          assert b[i].key == key;
        }
      }
    }
  }

  /** Removing empty buckets is unobservable. */
  lemma {:induction false} NonemptyAttempts(es: seq<Entry>, key: Key)
    requires Distinct(es)
    ensures AttemptsOf(Nonempty(es), key) == AttemptsOf(es, key)
  {
    if es != [] {
      var front, last := es[..|es| - 1], es[|es| - 1];
      NonemptyAttempts(front, key);
      if last.attempts != [] {
        AttemptsOfLast(Nonempty(front), last, key);
      } else {
        assert Nonempty(es) == Nonempty(front);
        if last.key == key {
          assert forall j | 0 <= j < |front| :: es[j].key != es[|es| - 1].key;
          AbsentHasNone(front, key);
        }
      }
    }
  }

  lemma SweptAttempts(es: seq<Entry>, cutoff: real, key: Key)
    requires Distinct(es)
    ensures Distinct(Swept(es, cutoff))
    ensures AttemptsOf(Swept(es, cutoff), key) == Pruned(AttemptsOf(es, key), cutoff)
    ensures forall e | e in Swept(es, cutoff) :: e.attempts != [] && Has(es, e.key)
  {
    PruneAllAttempts(es, cutoff, key);
    NonemptyAttempts(PruneAll(es, cutoff), key);
    NonemptyIsSubset(PruneAll(es, cutoff));
    forall e | e in Swept(es, cutoff)
      ensures Has(es, e.key)
    {
      var i :| 0 <= i < |es| && PruneAll(es, cutoff)[i] == e;
      assert es[i].key == e.key;
    }
  }

  lemma DropAttempts(es: seq<Entry>, n: nat, key: Key)
    requires Distinct(es) && n <= |es|
    ensures AttemptsOf(es[n..], key) == if Has(es[..n], key) then [] else AttemptsOf(es, key)
  {
    assert es == es[..n] + es[n..];
    ConcatAttempts(es[..n], es[n..], key);
    if !Has(es[n..], key) {
      AbsentHasNone(es[n..], key);
    }
    if !Has(es[..n], key) {
      AbsentHasNone(es[..n], key);
    } else {
      var i :| 0 <= i < n && es[..n][i].key == key;
      forall j | 0 <= j < |es[n..]| ensures es[n..][j].key != key {
        assert es[i].key != es[n + j].key;
      }
    }
  }

  lemma EvictedAttempts(es: seq<Entry>, cap: int, cutoff: real, key: Key)
    requires Distinct(es)
    ensures Distinct(Evicted(es, cap, cutoff))
    ensures var a := AttemptsOf(Evicted(es, cap, cutoff), key);
            if key in Lost(es, cap, cutoff) then a == []
            else a == AttemptsOf(es, key) || a == Pruned(AttemptsOf(es, key), cutoff)
    ensures Has(Evicted(es, cap, cutoff), key) ==> Has(es, key)
  {
    if |es| >= cap {
      var swept := Swept(es, cutoff);
      var n := Surplus(swept, cap);
      SweptAttempts(es, cutoff, key);
      DropAttempts(swept, n, key);
      if Has(swept[..n], key) {
        var i :| 0 <= i < n && swept[..n][i].key == key;
        assert swept[..n][i] in swept[..n];
      }
      if Has(swept[n..], key) {
        var i :| 0 <= i < |swept| - n && swept[n..][i].key == key;
        assert swept[n + i] in swept;
      }
    }
  }

  lemma MovedStaysDistinct(es: seq<Entry>, i: nat)
    requires Distinct(es) && i < |es|
    ensures Distinct(es[..i] + es[i + 1..] + [es[i]]) && !Has(es[i + 1..], es[i].key)
  {
    var rest := es[i + 1..];
    forall j | 0 <= j < |rest| ensures rest[j].key != es[i].key {
      assert es[i].key != es[i + 1 + j].key;
    }
  }

  /** Moving a bucket to the end is unobservable. */
  lemma MovedAttempts(es: seq<Entry>, i: nat, key: Key)
    requires Distinct(es) && i < |es|
    ensures AttemptsOf(es[..i] + es[i + 1..] + [es[i]], key) == AttemptsOf(es, key)
  {
    MovedStaysDistinct(es, i);
    hide Distinct, Has, AttemptsOf;
    assert es == (es[..i] + [es[i]]) + es[i + 1..];
    ConcatAttempts(es[..i], es[i + 1..], key);
    ConcatAttempts(es[..i] + [es[i]], es[i + 1..], key);
    AttemptsOfLast(es[..i], es[i], key);
    AttemptsOfLast(es[..i] + es[i + 1..], es[i], key);
  }

  // ---- Buckets as views of the full histories ----

  type History = map<Key, seq<real>>

  function HistoryOf(history: History, key: Key): seq<real> {
    if key in history then history[key] else []
  }

  predicate IsTail(tail: seq<real>, h: seq<real>) {
    |tail| <= |h| && tail == h[|h| - |tail|..]
  }

  /** The attempts on record are the end of the history of accepted attempts; exactly the part inside the window, unless
      live attempts of the key were once evicted. */
  ghost predicate Tracks(attempts: seq<real>, history: seq<real>, window: real, clock: real, exact: bool) {
    && Sorted(history) && (history != [] ==> history[|history| - 1] <= clock)
    && IsTail(attempts, history)
    && (exact ==> Recent(attempts, clock - window) == Recent(history, clock - window))
  }

  ghost predicate Refines(es: seq<Entry>, history: History, dropped: set<Key>, window: real, clock: real) {
    && Distinct(es)
    && forall key :: Tracks(AttemptsOf(es, key), HistoryOf(history, key), window, clock, key !in dropped)
  }

  /** Time passing and pruning change nothing, losing a bucket loses only exactness, and what is left counts no more
      attempts than the history. */
  lemma TracksLater(attempts: seq<real>, history: seq<real>, window: real, clock: real, now: real, exact: bool)
    requires Tracks(attempts, history, window, clock, exact) && clock <= now
    ensures Tracks(attempts, history, window, now, exact)
    ensures Tracks(Pruned(attempts, now - window), history, window, now, exact)
    ensures Tracks([], history, window, now, false)
    ensures |Pruned(attempts, now - window)| <= |Recent(history, now - window)|
    ensures exact ==> Pruned(attempts, now - window) == Recent(history, now - window)
  {
    hide Recent, Pruned, IsTail, Sorted;
    var cutoff := now - window;
    RecentOfTail(attempts, history, cutoff);
    RecentTwice(attempts, cutoff, cutoff);
    if exact {
      RecentTwice(attempts, clock - window, cutoff);
      RecentTwice(history, clock - window, cutoff);
    }
  }

  lemma RecentOfTail(tail: seq<real>, h: seq<real>, cutoff: real)
    requires Sorted(h) && IsTail(tail, h)
    ensures Pruned(tail, cutoff) == Recent(tail, cutoff)
    ensures IsTail(Recent(tail, cutoff), h) && IsTail([], h)
    ensures |Recent(tail, cutoff)| <= |Recent(h, cutoff)|
  {
    hide Recent, Pruned;
    PrunedIsRecent(tail, cutoff);
    RecentIsTail(tail, cutoff);
    hide Sorted;
    TailOfTail(Recent(tail, cutoff), tail, h);
    LiveTail(h, |Recent(tail, cutoff)|, cutoff);
  }

  lemma TailOfTail(a: seq<real>, b: seq<real>, h: seq<real>)
    requires IsTail(a, b) && IsTail(b, h)
    ensures IsTail(a, h) && (a != [] ==> h[|h| - |a|] == a[0]) && IsTail([], h)
  {
  }

  lemma LiveTail(h: seq<real>, n: nat, cutoff: real)
    requires Sorted(h) && n <= |h| && (n > 0 ==> h[|h| - n] > cutoff)
    ensures n <= |Recent(h, cutoff)|
  {
    hide Recent, Sorted;
    RecentIsTail(h, cutoff);
  }

  lemma TracksOneMore(attempts: seq<real>, history: seq<real>, window: real, now: real, exact: bool)
    requires Tracks(attempts, history, window, now, exact)
    ensures Tracks(attempts + [now], history + [now], window, now, exact)
  {
    hide Recent;
    RecentOneMore(attempts, now, now - window);
    RecentOneMore(history, now, now - window);
  }

  lemma TicksRefine(es: seq<Entry>, history: History, dropped: set<Key>, window: real, clock: real, now: real)
    requires Refines(es, history, dropped, window, clock) && (clock <= now || (es == [] && history == map[]))
    ensures Refines(es, history, dropped, window, now)
  {
    if clock <= now {
      hide Tracks, AttemptsOf;
      forall key
        ensures Tracks(AttemptsOf(es, key), HistoryOf(history, key), window, now, key !in dropped)
      {
        TracksLater(AttemptsOf(es, key), HistoryOf(history, key), window, clock, now, key !in dropped);
      }
    }
  }

  /** Pruning every bucket and removing the empty ones is unobservable. */
  lemma SweepRefines(es: seq<Entry>, history: History, dropped: set<Key>, window: real, clock: real, now: real)
    requires Refines(es, history, dropped, window, clock) && clock <= now
    ensures Refines(Swept(es, now - window), history, dropped, window, now)
    ensures |Swept(es, now - window)| <= |es|
  {
    hide Tracks, Pruned, Swept, AttemptsOf;
    forall key
      ensures Tracks(AttemptsOf(Swept(es, now - window), key), HistoryOf(history, key), window, now, key !in dropped)
    {
      SweptAttempts(es, now - window, key);
      TracksLater(AttemptsOf(es, key), HistoryOf(history, key), window, clock, now, key !in dropped);
    }
    SweptAttempts(es, now - window, "");
    SweptIsShorter(es, now - window);
  }

  lemma SweptIsShorter(es: seq<Entry>, cutoff: real)
    ensures |Swept(es, cutoff)| <= |es|
  {
  }

  lemma FetchedAttempts(es: seq<Entry>, key: Key, cap: int, cutoff: real, k: Key)
    requires Distinct(es)
    ensures var fetched, lost := Fetched(es, key, cap, cutoff), if Has(es, key) then {} else Lost(es, cap, cutoff);
            && Distinct(fetched) && fetched != [] && fetched[|fetched| - 1].key == key
            && (AttemptsOf(fetched, k) == AttemptsOf(es, k) || AttemptsOf(fetched, k) == Pruned(AttemptsOf(es, k), cutoff)
                || (k in lost && AttemptsOf(fetched, k) == []))
  {
    hide Pruned, AttemptsOf, Evicted, Lost;
    var i := IndexOf(es, key);
    if i < |es| {
      MovedStaysDistinct(es, i);
      MovedAttempts(es, i, k);
    } else {
      var evicted := Evicted(es, cap, cutoff);
      EvictedAttempts(es, cap, cutoff, key);
      EvictedAttempts(es, cap, cutoff, k);
      AttemptsOfLast(evicted, Entry(key, []), k);
      AbsentHasNone(es, key);
      assert forall j | 0 <= j < |evicted| :: evicted[j].key != key;
    }
  }

  lemma WeakerTracks(attempts: seq<real>, history: seq<real>, window: real, clock: real, exact: bool)
    requires Tracks(attempts, history, window, clock, exact)
    ensures Tracks(attempts, history, window, clock, false)
  {
  }

  /** Fetching a bucket is unobservable but for the keys the eviction loses. */
  lemma FetchRefines(es: seq<Entry>, history: History, dropped: set<Key>, window: real, clock: real, now: real,
                     key: Key, cap: int)
    requires Refines(es, history, dropped, window, clock) && clock <= now
    ensures var lost := if Has(es, key) then {} else Lost(es, cap, now - window);
            Refines(Fetched(es, key, cap, now - window), history, dropped + lost, window, now)
  {
    hide Tracks, Pruned, AttemptsOf, Evicted, Lost, Fetched;
    var cutoff := now - window;
    var fetched := Fetched(es, key, cap, cutoff);
    var lost := if Has(es, key) then {} else Lost(es, cap, cutoff);
    forall k
      ensures Tracks(AttemptsOf(fetched, k), HistoryOf(history, k), window, now, k !in dropped + lost)
    {
      TracksLater(AttemptsOf(es, k), HistoryOf(history, k), window, clock, now, k !in dropped);
      FetchedAttempts(es, key, cap, cutoff, k);
      if k in dropped + lost {
        WeakerTracks(AttemptsOf(fetched, k), HistoryOf(history, k), window, now,
                     k !in dropped && AttemptsOf(fetched, k) != []);
      }
    }
    FetchedAttempts(es, key, cap, cutoff, key);
  }

  predicate Allows(attempts: seq<real>, window: real, limit: int, now: real) {
    |Pruned(attempts, now - window)| < limit
  }

  /** One attempt on the most recently used bucket: recorded only when allowed. */
  function Attempted(es: seq<Entry>, window: real, limit: int, now: real): seq<Entry>
    requires es != []
  {
    var e := es[|es| - 1];
    es[..|es| - 1] + [Entry(e.key, Pruned(e.attempts, now - window)
                                   + if Allows(e.attempts, window, limit, now) then [now] else [])]
  }

  function Recorded(history: History, key: Key, now: real, allowed: bool): History {
    if allowed then history[key := HistoryOf(history, key) + [now]] else history
  }

  lemma AttemptRefines(es: seq<Entry>, history: History, dropped: set<Key>, window: real, limit: int, now: real)
    requires es != [] && Refines(es, history, dropped, window, now)
    ensures var e := es[|es| - 1];
            var allowed := Allows(e.attempts, window, limit, now);
            var counted := |Recent(HistoryOf(history, e.key), now - window)|;
            && Refines(Attempted(es, window, limit, now), Recorded(history, e.key, now, allowed), dropped, window, now)
            && (counted < limit ==> allowed)
            && (e.key !in dropped ==> (allowed <==> counted < limit))
  {
    hide Tracks, Pruned, Recent;
    var front, e := es[..|es| - 1], es[|es| - 1];
    var allowed := Allows(e.attempts, window, limit, now);
    var live := Pruned(e.attempts, now - window);
    var es' := Attempted(es, window, limit, now);
    var history' := Recorded(history, e.key, now, allowed);
    assert es == front + [e] && live + [] == live;
    AttemptsOfLast(front, e, e.key);
    TracksLater(e.attempts, HistoryOf(history, e.key), window, now, now, e.key !in dropped);
    TracksOneMore(live, HistoryOf(history, e.key), window, now, e.key !in dropped);
    forall key
      ensures Tracks(AttemptsOf(es', key), HistoryOf(history', key), window, now, key !in dropped)
    {
      AttemptsOfLast(front, e, key);
      AttemptsOfLast(front, es'[|es| - 1], key);
    }
  }

  /** An eviction drops other keys only. */
  lemma LostHadBuckets(es: seq<Entry>, cap: int, cutoff: real, key: Key)
    requires Distinct(es) && key in Lost(es, cap, cutoff)
    ensures Has(es, key)
  {
    var swept := Swept(es, cutoff);
    SweptAttempts(es, cutoff, key);
    var e :| e in swept[..Surplus(swept, cap)] && e.key == key;
    assert e in swept;
  }

  /** Nothing is lost while fewer than `cap` keys hold attempts inside the window. */
  lemma RoomLosesNothing(es: seq<Entry>, cap: int, cutoff: real)
    ensures Lost(es, cap, cutoff) == {} <==> |es| < cap || |Swept(es, cutoff)| < cap || Swept(es, cutoff) == []
  {
    var swept := Swept(es, cutoff);
    var n := Surplus(swept, cap);
    if |es| >= cap && n > 0 {
      assert swept[..n][0] in swept[..n];
      assert swept[0].key in Lost(es, cap, cutoff);
    }
  }

  lemma AroundStaysDistinct(es: seq<Entry>, i: nat, mid: seq<Entry>)
    requires Distinct(es) && i < |es| && (mid == [] || (|mid| == 1 && mid[0].key == es[i].key))
    ensures Distinct(es[..i] + mid + es[i + 1..]) && !Has(es[..i], es[i].key)
  {
  }

  lemma AroundAttempts(es: seq<Entry>, i: nat, mid: seq<Entry>, k: Key)
    requires Distinct(es) && i < |es| && (mid == [] || (|mid| == 1 && mid[0].key == es[i].key))
    ensures var r := es[..i] + mid + es[i + 1..];
            && Distinct(r)
            && AttemptsOf(r, k) == if k != es[i].key then AttemptsOf(es, k) else if mid == [] then [] else mid[0].attempts
    ensures AttemptsOf(es, es[i].key) == es[i].attempts
  {
    var e := es[i];
    MovedStaysDistinct(es, i);
    AroundStaysDistinct(es, i, mid);
    AbsentHasNone(es[..i], e.key);
    assert es == es[..i] + [e] + es[i + 1..];
    hide AttemptsOf, Has, Distinct;
    ConcatAttempts(es[..i] + [e], es[i + 1..], k);
    ConcatAttempts(es[..i] + [e], es[i + 1..], e.key);
    ConcatAttempts(es[..i] + mid, es[i + 1..], k);
    AttemptsOfLast(es[..i], e, k);
    AttemptsOfLast(es[..i], e, e.key);
    if mid == [] {
      assert es[..i] + mid == es[..i];
    } else {
      assert mid == [mid[0]];
      AttemptsOfLast(es[..i], mid[0], k);
    }
  }

  /** Asking for the waiting time is unobservable, and sees the key's counted attempts. */
  lemma PeekRefines(es: seq<Entry>, history: History, dropped: set<Key>, window: real, clock: real, now: real, key: Key)
    requires Refines(es, history, dropped, window, clock) && clock <= now
    ensures Refines(Peeked(es, key, now - window), history, dropped, window, now)
    ensures |Peeked(es, key, now - window)| <= |es|
    ensures var i := IndexOf(es, key);
            var live := if i < |es| then Pruned(es[i].attempts, now - window) else [];
            key !in dropped ==> live == Recent(HistoryOf(history, key), now - window)
  {
    hide Tracks, Pruned, Recent, AttemptsOf;
    var cutoff := now - window;
    var i := IndexOf(es, key);
    TracksLater(AttemptsOf(es, key), HistoryOf(history, key), window, clock, now, key !in dropped);
    if i == |es| {
      assert forall j | 0 <= j < |es| :: es[j].key != key;
      AbsentHasNone(es, key);
      NothingToPrune(cutoff);
    }
    forall k
      ensures Tracks(AttemptsOf(Peeked(es, key, cutoff), k), HistoryOf(history, k), window, now, k !in dropped)
    {
      TracksLater(AttemptsOf(es, k), HistoryOf(history, k), window, clock, now, k !in dropped);
      if i < |es| {
        var live := Pruned(es[i].attempts, cutoff);
        AroundAttempts(es, i, if live == [] then [] else [Entry(key, live)], k);
      }
    }
    if i < |es| {
      var live := Pruned(es[i].attempts, cutoff);
      AroundAttempts(es, i, if live == [] then [] else [Entry(key, live)], key);
    }
  }

  lemma NothingToPrune(cutoff: real)
    ensures Pruned([], cutoff) == []
  {
  }

  lemma SweptTwiceIsShorter(es: seq<Entry>, cutoff: real)
    ensures |Swept(Swept(es, cutoff), cutoff)| <= |Swept(es, cutoff)|
  {
    SweptIsShorter(Swept(es, cutoff), cutoff);
  }

  /** What the dictionary holds when a call fetches its bucket: swept first on every hundredth call. */
  function Before(es: seq<Entry>, sweep: bool, cutoff: real): seq<Entry> {
    if sweep then Swept(es, cutoff) else es
  }

  /** Keys a call drops with live attempts. */
  function Dropping(es: seq<Entry>, key: Key, sweep: bool, cap: int, cutoff: real): set<Key> {
    var before := Before(es, sweep, cutoff);
    if Has(before, key) then {} else Lost(before, cap, cutoff)
  }

  /** None while fewer than `cap` keys hold attempts inside the window. */
  lemma FewActiveDropNothing(es: seq<Entry>, key: Key, sweep: bool, cap: int, cutoff: real)
    ensures |Swept(es, cutoff)| < cap ==> Dropping(es, key, sweep, cap, cutoff) == {}
  {
    RoomLosesNothing(Before(es, sweep, cutoff), cap, cutoff);
    SweptTwiceIsShorter(es, cutoff);
    hide Swept, Lost;
  }
}
