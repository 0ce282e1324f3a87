/** Maximum drawdown of an equity curve: the running-peak scan, and what it measures. */
module Drawdown {
  import opened Rounding

  /** Fall from `peak` to `value`, in percent of the peak. */
  function Fall(peak: real, value: real): real {
    if peak > 0.0 then (peak - value) / peak * 100.0 else 0.0
  }

  function Peak(curve: seq<real>): (p: real)
    requires curve != []
    ensures p in curve
    ensures forall v | v in curve :: v <= p
  {
    var front, last := curve[..|curve| - 1], curve[|curve| - 1];
    assert curve == front + [last];
    if front == [] then last else Max(Peak(front), last)
  }

  /** Deepest fall from a running peak; a curve of fewer than two points has none. */
  function MaxDrawdown(curve: seq<real>): real {
    if |curve| < 2 then 0.0
    else Max(MaxDrawdown(curve[..|curve| - 1]), Fall(Peak(curve), curve[|curve| - 1]))
  }

  lemma FallFromHigher(low: real, high: real, value: real)
    requires 0.0 < low <= high && value >= 0.0
    ensures Fall(low, value) <= Fall(high, value)
  {
    FallAsShare(low, value);
    FallAsShare(high, value);
    Quotients(value, low, high);
  }

  lemma FallAsShare(peak: real, value: real)
    requires peak > 0.0
    ensures Fall(peak, value) == (1.0 - value / peak) * 100.0
  {
    QuotientOfDifference(peak, value, peak);
  }

  lemma QuotientOfDifference(x: real, y: real, z: real)
    requires z != 0.0
    ensures (x - y) / z == x / z - y / z
  {
    var a, b, d := x / z, y / z, (x - y) / z;
    assert a * z == x && b * z == y && d * z == x - y;
    assert (d - a + b) * z == 0.0;
  }

  lemma Quotients(value: real, low: real, high: real)
    requires 0.0 < low <= high && value >= 0.0
    ensures 0.0 <= value / high <= value / low
  {
  }

  lemma FallFromSelf(peak: real)
    ensures Fall(peak, peak) == 0.0
  {
  }

  lemma FallFromNothing(peak: real, value: real)
    requires peak <= 0.0
    ensures Fall(peak, value) == 0.0
  {
  }

  lemma FallInRange(peak: real, value: real)
    requires 0.0 <= value <= peak
    ensures 0.0 <= Fall(peak, value) <= 100.0
  {
    if peak > 0.0 {
      FallAsShare(peak, value);
    }
  }

  /** The fall recorded at position `j`: from the highest point so far. */
  function FallAt(curve: seq<real>, j: nat): real
    requires j < |curve|
  {
    Fall(Peak(curve[..j + 1]), curve[j])
  }

  lemma FallAtIsBounded(curve: seq<real>, j: nat)
    requires j < |curve|
    ensures FallAt(curve, j) <= MaxDrawdown(curve)
  {
    hide Fall, Peak;
    var upTo := curve[..j + 1];
    MaxDrawdownGrows(upTo, curve[j + 1..]);
    assert upTo + curve[j + 1..] == curve;
    if j == 0 {
      assert upTo == [curve[0]];
      assert Peak([curve[0]]) == curve[0];
      FallFromSelf(curve[0]);
      MaxDrawdownGrows([], curve);
      assert [] + curve == curve;
    }
  }

  lemma {:induction false} DeepestFallPosition(curve: seq<real>) returns (j: nat)
    requires curve != []
    ensures j < |curve| && FallAt(curve, j) == MaxDrawdown(curve)
  {
    hide Fall, Peak;
    var n := |curve| - 1;
    assert curve[..n + 1] == curve;
    if n == 0 {
      assert Peak(curve) == curve[0];
      FallFromSelf(curve[0]);
      j := 0;
    } else if MaxDrawdown(curve[..n]) < Fall(Peak(curve), curve[n]) {
      j := n;
    } else {
      j := DeepestFallPosition(curve[..n]);
      assert curve[..n][..j + 1] == curve[..j + 1];
    }
  }

  /** The scan is the maximum, over positions j, of the fall from the peak so far. */
  lemma MaxDrawdownIsDeepestFall(curve: seq<real>)
    requires curve != []
    ensures forall j | 0 <= j < |curve| :: FallAt(curve, j) <= MaxDrawdown(curve)
    ensures exists j | 0 <= j < |curve| :: FallAt(curve, j) == MaxDrawdown(curve)
  {
    forall j | 0 <= j < |curve|
      ensures FallAt(curve, j) <= MaxDrawdown(curve)
    {
      FallAtIsBounded(curve, j);
    }
    var j := DeepestFallPosition(curve);
  }

  lemma PairFallIsBounded(curve: seq<real>, i: nat, j: nat)
    requires i <= j < |curve| && curve[0] > 0.0 && curve[j] >= 0.0
    ensures Fall(curve[i], curve[j]) <= MaxDrawdown(curve)
  {
    hide Fall;
    FallAtIsBounded(curve, j);
    var peak := Peak(curve[..j + 1]);
    assert curve[..j + 1][i] == curve[i] && curve[..j + 1][j] == curve[j];
    assert curve[..j + 1][i] in curve[..j + 1];
    if curve[i] > 0.0 {
      FallFromHigher(curve[i], peak, curve[j]);
    } else {
      FallFromNothing(curve[i], curve[j]);
      FallInRange(peak, curve[j]);
    }
  }

  /** On a non-negative curve that starts positive, the running peak loses nothing against all pairs of points. */
  lemma MaxDrawdownIsWorstPair(curve: seq<real>)
    requires curve != [] && curve[0] > 0.0 && forall v | v in curve :: v >= 0.0
    ensures forall i, j | 0 <= i <= j < |curve| :: Fall(curve[i], curve[j]) <= MaxDrawdown(curve)
    ensures exists i, j | 0 <= i <= j < |curve| :: Fall(curve[i], curve[j]) == MaxDrawdown(curve)
    ensures 0.0 <= MaxDrawdown(curve) <= 100.0
  {
    hide Fall, MaxDrawdown;
    forall i, j | 0 <= i <= j < |curve|
      ensures Fall(curve[i], curve[j]) <= MaxDrawdown(curve)
    {
      assert curve[j] in curve;
      PairFallIsBounded(curve, i, j);
    }
    var i, j := DeepestPair(curve);
    assert curve[j] in curve;
    FallInRange(curve[i], curve[j]);
  }

  lemma DeepestPair(curve: seq<real>) returns (i: nat, j: nat)
    requires curve != []
    ensures i <= j < |curve| && curve[j] <= curve[i] && Fall(curve[i], curve[j]) == MaxDrawdown(curve)
  {
    hide Fall, MaxDrawdown;
    j := DeepestFallPosition(curve);
    var upTo := curve[..j + 1];
    i :| 0 <= i <= j && upTo[i] == Peak(upTo);
    assert upTo[j] == curve[j] && upTo[j] in upTo;
  }

  /** The least of the positive points; the first point is one. */
  function LeastPositive(curve: seq<real>): (x: real)
    requires curve != [] && curve[0] > 0.0
    ensures x > 0.0 && x in curve && forall v | v in curve && v > 0.0 :: x <= v
  {
    var front, last := curve[..|curve| - 1], curve[|curve| - 1];
    assert curve == front + [last];
    if front == [] then last else
    var least := LeastPositive(front);
    if 0.0 < last < least then last else least
  }

  /** Below zero the deepest relative fall is from the least positive point. */
  lemma FallFromLower(low: real, high: real, value: real)
    requires 0.0 < low <= high && value < 0.0
    ensures Fall(high, value) <= Fall(low, value)
  {
    FallAsShare(low, value);
    FallAsShare(high, value);
    Quotients(-value, low, high);
    QuotientOfDifference(0.0, value, low);
    QuotientOfDifference(0.0, value, high);
  }

  /** No negative point lies further below the least positive point before it than the scan records. */
  ghost predicate NegativesWithin(curve: seq<real>)
    requires curve != [] && curve[0] > 0.0
  {
    forall j | 0 < j < |curve| && curve[j] < 0.0 :: Fall(LeastPositive(curve[..j]), curve[j]) <= MaxDrawdown(curve)
  }

  lemma NegativeFallIsBounded(curve: seq<real>, i: nat, j: nat)
    requires i <= j < |curve| && curve[0] > 0.0 && curve[j] < 0.0 && NegativesWithin(curve)
    ensures Fall(curve[i], curve[j]) <= MaxDrawdown(curve)
  {
    hide Fall, MaxDrawdown;
    if curve[i] > 0.0 {
      assert curve[..j][i] == curve[i] && curve[..j][i] in curve[..j];
      FallFromLower(LeastPositive(curve[..j]), curve[i], curve[j]);
    } else {
      FallFromNothing(curve[i], curve[j]);
      MaxDrawdownGrows([], curve);
      assert [] + curve == curve;
      NoFallYet();
    }
  }

  lemma NoFallYet()
    ensures MaxDrawdown([]) == 0.0
  {
  }

  /** On a curve that starts positive the scan is the fall between two of its points, and the worst such fall if and only
      if no negative point lies further below the least positive point before it. */
  lemma WorstPairIffNegativesWithin(curve: seq<real>)
    requires curve != [] && curve[0] > 0.0
    ensures (forall i, j | 0 <= i <= j < |curve| :: Fall(curve[i], curve[j]) <= MaxDrawdown(curve)) <==> NegativesWithin(curve)
    ensures exists i, j | 0 <= i <= j < |curve| :: Fall(curve[i], curve[j]) == MaxDrawdown(curve)
  {
    hide Fall, MaxDrawdown;
    var from, to := DeepestPair(curve);
    if NegativesWithin(curve) {
      forall i, j | 0 <= i <= j < |curve|
        ensures Fall(curve[i], curve[j]) <= MaxDrawdown(curve)
      {
        if curve[j] < 0.0 {
          NegativeFallIsBounded(curve, i, j);
        } else {
          PairFallIsBounded(curve, i, j);
        }
      }
    } else {
      var j :| 0 < j < |curve| && curve[j] < 0.0 && Fall(LeastPositive(curve[..j]), curve[j]) > MaxDrawdown(curve);
      var least := LeastPositive(curve[..j]);
      var i :| 0 <= i < j && curve[..j][i] == least;
      assert Fall(curve[i], curve[j]) > MaxDrawdown(curve);
    }
  }

  lemma FallFromLowerIsDeeper(low: real, high: real, value: real)
    requires 0.0 < low < high && value < 0.0
    ensures 0.0 < Fall(high, value) < Fall(low, value)
  {
    var a, b := value / low, value / high;
    assert a * low == value && b * high == value;
    assert b < 0.0;
    assert a < 0.0 && a * high < a * low;
    assert (a - b) * high < 0.0;
    assert a < b;
    FallAsShare(low, value);
    FallAsShare(high, value);
  }

  /** Below zero after a later, higher peak, the scan falls short of the fall from the start. */
  lemma SqueezedCurve(start: real, peak: real, end: real)
    requires 0.0 < start < peak && end < 0.0
    ensures MaxDrawdown([start, start, peak, end]) < Fall(start, end)
  {
    hide Fall, MaxDrawdown, Peak;
    FallFromLowerIsDeeper(start, peak, end);
    FallFromSelf(start);
    FallFromSelf(peak);
    OnePoint(start);
    OneMorePoint([start], start);
    OneMorePoint([start] + [start], peak);
    OneMorePoint([start] + [start] + [peak], end);
    assert [start, start, peak, end] == [start] + [start] + [peak] + [end];
  }

  lemma OnePoint(value: real)
    ensures Peak([value]) == value && MaxDrawdown([value]) == 0.0
  {
  }

  lemma OneMorePoint(curve: seq<real>, value: real)
    requires curve != []
    ensures Peak(curve + [value]) == Max(Peak(curve), value)
    ensures MaxDrawdown(curve + [value]) == Max(MaxDrawdown(curve), Fall(Max(Peak(curve), value), value))
  {
    hide Fall;
    assert (curve + [value])[..|curve|] == curve;
  }

  /** Later points never reduce the recorded drawdown. */
  lemma MaxDrawdownGrows(curve: seq<real>, more: seq<real>)
    ensures MaxDrawdown(curve) <= MaxDrawdown(curve + more)
    decreases |more|
  {
    if more == [] {
      assert curve + more == curve;
    } else {
      var front := more[..|more| - 1];
      MaxDrawdownGrows(curve, front);
      assert (curve + more)[..|curve + more| - 1] == curve + front;
    }
  }
}
