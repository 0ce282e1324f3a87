/** Histories of instants and the sliding windows cut from them. */
module Windows {
  ghost predicate Sorted(h: seq<real>) {
    forall i, j | 0 <= i <= j < |h| :: h[i] <= h[j]
  }

  /** The instants after `cutoff`, in order. */
  function Recent(h: seq<real>, cutoff: real): (r: seq<real>)
    ensures forall i | 0 <= i < |r| :: r[i] > cutoff
  {
    if h == [] then [] else
    var front := Recent(h[..|h| - 1], cutoff);
    if h[|h| - 1] > cutoff then front + [h[|h| - 1]] else front
  }

  /** Drops leading instants at or before `cutoff`: what the pruning loops do. */
  function Pruned(h: seq<real>, cutoff: real): seq<real> {
    if h != [] && h[0] <= cutoff then Pruned(h[1..], cutoff) else h
  }

  /** Any instant and the n-th one after it are at least `window` apart. */
  ghost predicate Spaced(h: seq<real>, n: nat, window: real) {
    forall i | 0 <= i && i + n < |h| :: h[i + n] - h[i] >= window
  }

  /** How many instants lie in [from, from + width). */
  function Count(h: seq<real>, from: real, width: real): nat {
    if h == [] then 0 else
    Count(h[..|h| - 1], from, width) + if from <= h[|h| - 1] < from + width then 1 else 0
  }

  lemma RecentOneMore(h: seq<real>, t: real, cutoff: real)
    ensures Recent(h + [t], cutoff) == Recent(h, cutoff) + if t > cutoff then [t] else []
  {
    assert (h + [t])[..|h|] == h;
  }

  /** Pruning twice is pruning once at the later cutoff. */
  lemma {:induction false} RecentTwice(h: seq<real>, early: real, late: real)
    requires early <= late
    ensures Recent(Recent(h, early), late) == Recent(h, late)
  {
    if h != [] {
      var front, t := h[..|h| - 1], h[|h| - 1];
      RecentTwice(front, early, late);
      if t > early {
        RecentOneMore(Recent(front, early), t, late);
      }
    }
  }

  lemma {:induction false} RecentFrom(h: seq<real>, cutoff: real, m: nat)
    requires m <= |h| && (forall i | 0 <= i < m :: h[i] <= cutoff) && (forall i | m <= i < |h| :: h[i] > cutoff)
    ensures Recent(h, cutoff) == h[m..]
  {
    if m < |h| {
      RecentFrom(h[..|h| - 1], cutoff, m);
      assert h[m..] == h[..|h| - 1][m..] + [h[|h| - 1]];
    } else if m > 0 {
      RecentFrom(h[..|h| - 1], cutoff, m - 1);
    }
  }

  /** Of a sorted history, the recent instants are its tail. */
  lemma RecentIsTail(h: seq<real>, cutoff: real)
    requires Sorted(h)
    ensures var k := |Recent(h, cutoff)|;
            k <= |h| && Recent(h, cutoff) == h[|h| - k..] && forall i | 0 <= i < |h| - k :: h[i] <= cutoff
    ensures Sorted(Recent(h, cutoff))
  {
    var m := 0;
    while m < |h| && h[m] <= cutoff
      invariant m <= |h| && forall i | 0 <= i < m :: h[i] <= cutoff
    {
      m := m + 1;
    }
    RecentFrom(h, cutoff, m);
  }

  /** On a sorted list the loop that pops from the front keeps exactly the recent instants. */
  lemma {:induction false} PrunedIsRecent(h: seq<real>, cutoff: real)
    requires Sorted(h)
    ensures Pruned(h, cutoff) == Recent(h, cutoff)
  {
    RecentIsTail(h, cutoff);
    var k := |Recent(h, cutoff)|;
    PrunedSkips(h, cutoff, |h| - k);
    if k > 0 {
      assert h[|h| - k] == Recent(h, cutoff)[0];
    }
  }

  lemma {:induction false} PrunedSkips(h: seq<real>, cutoff: real, n: nat)
    requires n <= |h| && (forall i | 0 <= i < n :: h[i] <= cutoff) && (n < |h| ==> h[n] > cutoff)
    ensures Pruned(h, cutoff) == h[n..]
  {
    if n > 0 {
      PrunedSkips(h[1..], cutoff, n - 1);
      assert h[1..][n - 1..] == h[n..];
    }
  }

  /** Granting only while fewer than n recent instants exist keeps the history spaced. */
  lemma GrantKeepsSpacing(h: seq<real>, n: nat, window: real, t: real, cutoff: real)
    requires Sorted(h) && Spaced(h, n, window) && n > 0
    requires |Recent(h, cutoff)| < n && cutoff <= t - window && (h != [] ==> h[|h| - 1] <= t)
    ensures Sorted(h + [t]) && Spaced(h + [t], n, window)
  {
    RecentIsTail(h, cutoff);
  }

  /** A spaced history holds at most n instants later than `window` before its end. */
  lemma SpacedIsFull(h: seq<real>, n: nat, window: real, cutoff: real)
    requires Sorted(h) && Spaced(h, n, window) && n > 0
    requires h != [] ==> cutoff >= h[|h| - 1] - window
    ensures |Recent(h, cutoff)| <= n
  {
    RecentIsTail(h, cutoff);
    var r := Recent(h, cutoff);
    var i := |h| - 1 - n;
    if i >= 0 {
      assert h[i + n] - h[i] >= window;
      assert forall j | |h| - |r| <= j < |h| :: h[j] == r[j - (|h| - |r|)];
    }
  }

  lemma CountOneMore(h: seq<real>, t: real, from: real, width: real)
    ensures Count(h + [t], from, width) == Count(h, from, width) + if from <= t < from + width then 1 else 0
  {
    assert (h + [t])[..|h|] == h;
  }

  /** All counted instants of a history that ends inside the window stand at its end. */
  lemma {:induction false} CountedAreLast(h: seq<real>, from: real, width: real)
    requires Sorted(h) && (h != [] ==> h[|h| - 1] < from + width)
    ensures Count(h, from, width) <= |h|
    ensures forall i | |h| - Count(h, from, width) <= i < |h| :: h[i] >= from
    ensures forall i | 0 <= i < |h| - Count(h, from, width) :: h[i] < from
  {
    if h != [] {
      var front := h[..|h| - 1];
      CountedAreLast(front, from, width);
      if h[|h| - 1] < from {
        assert forall i | 0 <= i < |h| :: h[i] <= h[|h| - 1];
      }
    }
  }

  /** Spacing bounds every window. */
  lemma {:induction false} AtMostPerWindow(h: seq<real>, n: nat, window: real, from: real)
    requires Sorted(h) && Spaced(h, n, window)
    ensures Count(h, from, window) <= n
  {
    if h != [] {
      if h[|h| - 1] < from + window {
        CountedAreLast(h, from, window);
        var i := |h| - 1 - n;
        if i >= 0 {
          assert h[i + n] - h[i] >= window;
        }
      } else {
        AtMostPerWindow(h[..|h| - 1], n, window, from);
      }
    }
  }

  lemma {:induction false} CountAll(h: seq<real>, from: real, width: real)
    requires forall i | 0 <= i < |h| :: from <= h[i] < from + width
    ensures Count(h, from, width) == |h|
  {
    if h != [] {
      CountAll(h[..|h| - 1], from, width);
    }
  }

  lemma {:induction false} CountConcat(a: seq<real>, b: seq<real>, from: real, width: real)
    ensures Count(a + b, from, width) == Count(a, from, width) + Count(b, from, width)
  {
    if b == [] {
      assert a + b == a;
    } else {
      var front, t := b[..|b| - 1], b[|b| - 1];
      CountConcat(a, front, from, width);
      assert a + b == (a + front) + [t];
      CountOneMore(a + front, t, from, width);
    }
  }

  /** Being spaced and never exceeding n in any window are the same thing. */
  lemma SpacedIffBounded(h: seq<real>, n: nat, window: real)
    requires Sorted(h)
    ensures Spaced(h, n, window) <==> forall from :: Count(h, from, window) <= n
  {
    if Spaced(h, n, window) {
      forall from ensures Count(h, from, window) <= n {
        AtMostPerWindow(h, n, window, from);
      }
    } else {
      var i :| 0 <= i && i + n < |h| && h[i + n] - h[i] < window;
      Crowded(h, i, n, window);
      assert Count(h, h[i], window) > n;
    }
  }

  lemma Crowded(h: seq<real>, i: nat, n: nat, width: real)
    requires Sorted(h) && i + n < |h| && h[i + n] < h[i] + width
    ensures Count(h, h[i], width) > n
  {
    var mid := h[i..i + n + 1];
    CountAll(mid, h[i], width);
    CountConcat(h[..i], mid, h[i], width);
    CountConcat(h[..i] + mid, h[i + n + 1..], h[i], width);
    assert h == h[..i] + mid + h[i + n + 1..];
  }
}
