/** Sums over positions: how they move when the portfolio does. */
module PaperTotals {
  import opened Rounding
  import opened PaperModel

  lemma TotalOfOneMore(m: Measure, ps: seq<Position>, p: Position)
    ensures Total(m, ps + [p]) == Total(m, ps) + Measured(m, p)
  {
    assert (ps + [p])[..|ps|] == ps;
  }

  lemma MeasuredFields(p: Position, marks: Marks)
    ensures Measured(Margin, p) == p.margin && Measured(Carry, p) == p.carry
    ensures Measured(MarketValue(marks), p)
            == if p.side.Long? then p.quantity * Mark(marks, p) else -(p.quantity * Mark(marks, p))
  {
  }

  lemma {:induction false} TotalConcat(m: Measure, a: seq<Position>, b: seq<Position>)
    ensures Total(m, a + b) == Total(m, a) + Total(m, b)
    decreases |b|
  {
    if b == [] {
      assert a + b == a;
    } else {
      var front := b[..|b| - 1];
      TotalConcat(m, a, front);
      TotalOfOneMore(m, a + front, b[|b| - 1]);
      assert a + b == a + front + [b[|b| - 1]];
    }
  }

  lemma TotalSplit(m: Measure, ps: seq<Position>, i: nat)
    requires i < |ps|
    ensures Total(m, ps) == Total(m, ps[..i]) + Measured(m, ps[i]) + Total(m, ps[i + 1..])
  {
    assert ps == ps[..i] + [ps[i]] + ps[i + 1..];
    TotalConcat(m, ps[..i] + [ps[i]], ps[i + 1..]);
    TotalOfOneMore(m, ps[..i], ps[i]);
  }

  lemma TotalRemove(m: Measure, ps: seq<Position>, i: nat)
    requires i < |ps|
    ensures Total(m, RemoveAt(ps, i)) == Total(m, ps) - Measured(m, ps[i])
  {
    TotalSplit(m, ps, i);
    TotalConcat(m, ps[..i], ps[i + 1..]);
  }

  lemma TotalReplace(m: Measure, ps: seq<Position>, i: nat, p: Position)
    requires i < |ps|
    ensures Total(m, ps[i := p]) == Total(m, ps) - Measured(m, ps[i]) + Measured(m, p)
  {
    var qs := ps[i := p];
    TotalSplit(m, ps, i);
    TotalSplit(m, qs, i);
    assert qs[..i] == ps[..i] && qs[i + 1..] == ps[i + 1..];
  }

  /** Totals depend only on the summands. */
  lemma {:induction false} TotalSame(m: Measure, ps: seq<Position>, n: Measure, qs: seq<Position>)
    requires |ps| == |qs|
    requires forall i | 0 <= i < |ps| :: Measured(m, ps[i]) == Measured(n, qs[i])
    ensures Total(m, ps) == Total(n, qs)
  {
    if ps != [] {
      TotalSame(m, ps[..|ps| - 1], n, qs[..|qs| - 1]);
    }
  }

  /** Totals do not depend on the order of the positions. */
  lemma {:induction false} TotalPermuted(m: Measure, ps: seq<Position>, qs: seq<Position>)
    requires multiset(ps) == multiset(qs)
    ensures Total(m, ps) == Total(m, qs)
    decreases |ps|
  {
    if ps == [] {
      assert |multiset(qs)| == 0;
    } else {
      var i := LastFound(ps, qs);
      TotalPermuted(m, ps[..|ps| - 1], RemoveAt(qs, i));
      TotalRemove(m, qs, i);
    }
  }

  lemma LastFound<T>(ps: seq<T>, qs: seq<T>) returns (i: nat)
    requires multiset(ps) == multiset(qs) && ps != []
    ensures i < |qs| && qs[i] == ps[|ps| - 1]
    ensures multiset(ps[..|ps| - 1]) == multiset(RemoveAt(qs, i))
  {
    var n := |ps| - 1;
    assert ps == ps[..n] + [ps[n]];
    assert ps[n] in multiset(qs);
    i :| 0 <= i < |qs| && qs[i] == ps[n];
    assert qs == qs[..i] + [qs[i]] + qs[i + 1..];
    assert multiset(ps[..n]) == multiset(ps) - multiset{ps[n]};
    assert multiset(RemoveAt(qs, i)) == multiset(qs) - multiset{ps[n]};
  }

  lemma PnlOfOneMore(ts: seq<ClosedTrade>, t: ClosedTrade)
    ensures PnlTotal(ts + [t]) == PnlTotal(ts) + TradePnl(t)
  {
    assert (ts + [t])[..|ts|] == ts;
  }
}
