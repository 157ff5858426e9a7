/** The greedy route resampler (api/slope.py, lines 19-28).

    The scan keeps the first route point. For every later point it adds the
    distance from the LAST ACCEPTED sample (the anchor) to that point to an
    accumulator; once the accumulator reaches `Interval` the point is accepted,
    becomes the new anchor and the accumulator restarts at zero. The anchor only
    moves on acceptance, so the accumulator adds up repeated anchor-to-point
    distances, not consecutive segment lengths. Route points after the last
    acceptance are dropped, the final one included.
 */
module Resampler {
  import opened Geo

  /** Minimum accumulated distance, in kilometres, before a point is sampled. */
  const Interval: real := 0.25

  /** The samples the scan appends from position `i` on, given the current
      anchor point and accumulator value. */
  function ScanFrom(dist: Distance, coords: seq<GeoPoint>, anchor: GeoPoint, acc: real, i: nat): (r: seq<GeoPoint>)
    requires i <= |coords|
    ensures |r| <= |coords| - i
    ensures forall k :: 0 <= k < |r| ==> r[k] in coords[i..]
    decreases |coords| - i
  {
    if i == |coords| then []
    else
      var acc' := acc + dist(anchor, coords[i]);
      if acc' >= Interval then [coords[i]] + ScanFrom(dist, coords, coords[i], 0.0, i + 1)
      else ScanFrom(dist, coords, anchor, acc', i + 1)
  }

  /** The sampled route: the first point followed by every accepted point. */
  function Resample(dist: Distance, coords: seq<GeoPoint>): (sampled: seq<GeoPoint>)
    requires |coords| > 0
    ensures 1 <= |sampled| <= |coords|
    ensures sampled[0] == coords[0]
    ensures forall k :: 0 <= k < |sampled| ==> sampled[k] in coords
  {
    [coords[0]] + ScanFrom(dist, coords, coords[0], 0.0, 1)
  }

  /** Imperative mirror of the source loop. `accum` is the accumulator left when
      the loop ends, the distance gathered towards a sample that never came. */
  method ResampleLoop(dist: Distance, coords: seq<GeoPoint>) returns (sampled: seq<GeoPoint>, accum: real)
    requires |coords| > 0
    ensures sampled == Resample(dist, coords)
    ensures NonNegative(dist) ==> 0.0 <= accum < Interval
  {
    sampled := [coords[0]];
    accum := 0.0;
    var i := 1;
    while i < |coords|
      invariant 1 <= i <= |coords|
      invariant |sampled| >= 1
      invariant sampled + ScanFrom(dist, coords, sampled[|sampled| - 1], accum, i) == Resample(dist, coords)
      invariant NonNegative(dist) ==> 0.0 <= accum < Interval
    {
      var last := sampled[|sampled| - 1];
      var current := coords[i];
      accum := accum + dist(last, current);
      if accum >= Interval {
        assert [current] + ScanFrom(dist, coords, current, 0.0, i + 1)
            == ScanFrom(dist, coords, last, accum - dist(last, current), i);
        sampled := sampled + [current];
        accum := 0.0;
      }
      i := i + 1;
    }
  }

  // ---------------------------------------------------------------------------
  // A declarative description of the sampling, by route positions.
  // ---------------------------------------------------------------------------

  /** The accumulator value once position `m` has been processed while the anchor
      is the point at position `a`: the sum of dist(coords[a], coords[t]) over a < t <= m. */
  function Acc(dist: Distance, coords: seq<GeoPoint>, a: nat, m: nat): real
    requires a <= m < |coords|
    decreases m - a
  {
    if m == a then 0.0 else Acc(dist, coords, a, m - 1) + dist(coords[a], coords[m])
  }

  /** Position `b` is the next sample after the anchor at position `a`: the
      accumulator first reaches the interval there. */
  ghost predicate Gap(dist: Distance, coords: seq<GeoPoint>, a: nat, b: nat)
    requires a < b < |coords|
  {
    Acc(dist, coords, a, b) >= Interval &&
    forall m :: a < m < b ==> Acc(dist, coords, a, m) < Interval
  }

  /** No route point after the anchor at position `a` is ever accepted. */
  ghost predicate Tail(dist: Distance, coords: seq<GeoPoint>, a: nat)
    requires a < |coords|
  {
    forall m :: a < m < |coords| ==> Acc(dist, coords, a, m) < Interval
  }

  /** `idx` lists increasing route positions, each the next sample after the one
      before it, and nothing is accepted after the last. */
  ghost predicate Greedy(dist: Distance, coords: seq<GeoPoint>, idx: seq<nat>)
  {
    |idx| >= 1 &&
    (forall k :: 0 <= k < |idx| ==> idx[k] < |coords|) &&
    (forall k :: 0 <= k < |idx| - 1 ==> idx[k] < idx[k + 1] && Gap(dist, coords, idx[k], idx[k + 1])) &&
    Tail(dist, coords, idx[|idx| - 1])
  }

  /** A greedy sampling of the whole route, which starts at the first point. */
  ghost predicate IsGreedySampling(dist: Distance, coords: seq<GeoPoint>, idx: seq<nat>)
  {
    Greedy(dist, coords, idx) && idx[0] == 0
  }

  /** The points at the listed positions. */
  function Project(coords: seq<GeoPoint>, idx: seq<nat>): (pts: seq<GeoPoint>)
    requires forall k :: 0 <= k < |idx| ==> idx[k] < |coords|
    ensures |pts| == |idx|
  {
    seq(|idx|, k requires 0 <= k < |idx| => coords[idx[k]])
  }

  lemma GreedyCons(dist: Distance, coords: seq<GeoPoint>, a: nat, rest: seq<nat>)
    requires Greedy(dist, coords, rest)
    requires a < rest[0]
    requires Gap(dist, coords, a, rest[0])
    ensures Greedy(dist, coords, [a] + rest)
  {
    var s := [a] + rest;
    forall k | 0 <= k < |s| - 1
      ensures s[k] < s[k + 1] && Gap(dist, coords, s[k], s[k + 1])
    {
      if k > 0 {
        assert s[k] == rest[k - 1] && s[k + 1] == rest[k];
      }
    }
  }

  lemma GreedyRest(dist: Distance, coords: seq<GeoPoint>, idx: seq<nat>)
    requires Greedy(dist, coords, idx)
    requires |idx| >= 2
    ensures Greedy(dist, coords, idx[1..])
  {
    var s := idx[1..];
    forall k | 0 <= k < |s| - 1
      ensures s[k] < s[k + 1] && Gap(dist, coords, s[k], s[k + 1])
    {
      assert s[k] == idx[k + 1] && s[k + 1] == idx[k + 2];
    }
  }

  /** The scan from position `i`, with anchor at position `a` and no point in
      between accepted, appends exactly the points of a greedy continuation. */
  lemma {:induction false} ScanIsGreedy(dist: Distance, coords: seq<GeoPoint>, a: nat, i: nat) returns (idx: seq<nat>)
    requires a < i <= |coords|
    requires forall m :: a < m < i ==> Acc(dist, coords, a, m) < Interval
    ensures forall k :: 0 <= k < |idx| ==> a < idx[k] < |coords|
    ensures Greedy(dist, coords, [a] + idx)
    ensures Project(coords, idx) == ScanFrom(dist, coords, coords[a], Acc(dist, coords, a, i - 1), i)
    decreases |coords| - i
  {
    var acc := Acc(dist, coords, a, i - 1);
    if i == |coords| {
      idx := [];
      assert [a] + idx == [a];
    } else {
      assert Acc(dist, coords, a, i) == acc + dist(coords[a], coords[i]);
      if Acc(dist, coords, a, i) >= Interval {
        var rest := ScanIsGreedy(dist, coords, i, i + 1);
        assert Acc(dist, coords, i, i) == 0.0;
        idx := [i] + rest;
        GreedyCons(dist, coords, a, idx);
        assert Project(coords, idx) == [coords[i]] + Project(coords, rest);
      } else {
        idx := ScanIsGreedy(dist, coords, a, i + 1);
      }
    }
  }

  /** Existence: the resampler's output is the route projected onto a greedy sampling. */
  lemma ResampleIsGreedy(dist: Distance, coords: seq<GeoPoint>) returns (idx: seq<nat>)
    requires |coords| > 0
    ensures IsGreedySampling(dist, coords, idx)
    ensures Project(coords, idx) == Resample(dist, coords)
  {
    var rest := ScanIsGreedy(dist, coords, 0, 1);
    idx := [0] + rest;
    assert Project(coords, idx) == [coords[0]] + Project(coords, rest);
  }

  /** Uniqueness: two greedy samplings that start at the same position coincide. */
  lemma {:induction false} GreedyUnique(dist: Distance, coords: seq<GeoPoint>, s: seq<nat>, t: seq<nat>)
    requires Greedy(dist, coords, s) && Greedy(dist, coords, t)
    requires s[0] == t[0]
    ensures s == t
    decreases |s|
  {
    if |s| > 1 {
      HasSecond(dist, coords, s, t);
    }
    if |t| > 1 {
      HasSecond(dist, coords, t, s);
    }
    if |s| > 1 {
      FirstHit(dist, coords, s[0], s[1], t[1]);
      FirstHit(dist, coords, t[0], t[1], s[1]);
      GreedyRest(dist, coords, s);
      GreedyRest(dist, coords, t);
      GreedyUnique(dist, coords, s[1..], t[1..]);
      assert s == [s[0]] + s[1..] && t == [t[0]] + t[1..];
    }
  }

  /** If one greedy sampling goes on past its start, so does any other with the same start. */
  lemma HasSecond(dist: Distance, coords: seq<GeoPoint>, s: seq<nat>, t: seq<nat>)
    requires Greedy(dist, coords, s) && Greedy(dist, coords, t)
    requires s[0] == t[0]
    requires |s| > 1
    ensures |t| > 1
  {
    assert Gap(dist, coords, s[0], s[1]);
  }

  /** The next sample after anchor `a` is the first position whose accumulator reaches the interval. */
  lemma FirstHit(dist: Distance, coords: seq<GeoPoint>, a: nat, b: nat, c: nat)
    requires a < b < |coords| && a < c < |coords|
    requires Gap(dist, coords, a, b)
    requires Acc(dist, coords, a, c) >= Interval
    ensures b <= c
  {
  }

  /** Any greedy sampling of the route yields exactly the resampler's output. */
  lemma GreedySamplingIsResample(dist: Distance, coords: seq<GeoPoint>, idx: seq<nat>)
    requires IsGreedySampling(dist, coords, idx)
    ensures |coords| > 0
    ensures Project(coords, idx) == Resample(dist, coords)
  {
    var greedy := ResampleIsGreedy(dist, coords);
    GreedyUnique(dist, coords, idx, greedy);
  }

  /** The resampled route is an order-preserving selection of route points,
      starting at the first one. */
  lemma ResampleIsSubsequence(dist: Distance, coords: seq<GeoPoint>) returns (idx: seq<nat>)
    requires |coords| > 0
    ensures |idx| == |Resample(dist, coords)| && idx[0] == 0
    ensures forall k :: 0 <= k < |idx| ==> idx[k] < |coords| && Resample(dist, coords)[k] == coords[idx[k]]
    ensures forall j, k :: 0 <= j < k < |idx| ==> idx[j] < idx[k]
  {
    idx := ResampleIsGreedy(dist, coords);
    forall j, k | 0 <= j < k < |idx|
      ensures idx[j] < idx[k]
    {
      IncreasingStep(dist, coords, idx, j, k);
    }
  }

  lemma {:induction false} IncreasingStep(dist: Distance, coords: seq<GeoPoint>, idx: seq<nat>, j: nat, k: nat)
    requires Greedy(dist, coords, idx)
    requires j < k < |idx|
    ensures idx[j] < idx[k]
    decreases k - j
  {
    if j + 1 < k {
      IncreasingStep(dist, coords, idx, j + 1, k);
    }
  }

  /** With a non-negative distance every accumulator value is non-negative. */
  lemma {:induction false} AccNonNegative(dist: Distance, coords: seq<GeoPoint>, a: nat, m: nat)
    requires NonNegative(dist)
    requires a <= m < |coords|
    ensures Acc(dist, coords, a, m) >= 0.0
    decreases m - a
  {
    if m > a {
      AccNonNegative(dist, coords, a, m - 1);
    }
  }

  /** A one-point route samples to itself. */
  lemma SinglePointRoute(dist: Distance, p: GeoPoint)
    ensures Resample(dist, [p]) == [p]
  {
  }

  /** Distance along longitude only. It is not the geodesic distance (points
      that differ only in latitude are 0 apart); it exists solely to give the
      example below a concrete straight-line route. */
  function LonGap(a: GeoPoint, b: GeoPoint): (d: real)
    ensures d >= 0.0
    ensures d == 0.0 <==> a.lon == b.lon
  {
    if a.lon <= b.lon then b.lon - a.lon else a.lon - b.lon
  }

  /** The accumulator sums anchor-to-point distances: on a straight route with
      points 0.1 km apart, the point at 0.2 km is sampled (0.1 + 0.2 >= 0.25)
      although only 0.2 km of road lies behind it. The short tail is dropped:
      a destination 0.1 km after the last sample is never appended. When every
      step reaches the interval on its own, every point is kept, so the sample
      need not be a strict subsequence of the route. */
  lemma AnchorQuirkExample()
    ensures Resample(LonGap, [GeoPoint(0.0, 0.0), GeoPoint(0.0, 0.1), GeoPoint(0.0, 0.2)])
         == [GeoPoint(0.0, 0.0), GeoPoint(0.0, 0.2)]
    ensures Resample(LonGap, [GeoPoint(0.0, 0.0), GeoPoint(0.0, 0.3), GeoPoint(0.0, 0.4)])
         == [GeoPoint(0.0, 0.0), GeoPoint(0.0, 0.3)]
    ensures Resample(LonGap, [GeoPoint(0.0, 0.0), GeoPoint(0.0, 0.3), GeoPoint(0.0, 0.6)])
         == [GeoPoint(0.0, 0.0), GeoPoint(0.0, 0.3), GeoPoint(0.0, 0.6)]
  {
    var r1 := [GeoPoint(0.0, 0.0), GeoPoint(0.0, 0.1), GeoPoint(0.0, 0.2)];
    assert ScanFrom(LonGap, r1, r1[2], 0.0, 3) == [];
    assert ScanFrom(LonGap, r1, r1[0], 0.1, 2) == [r1[2]];
    var r2 := [GeoPoint(0.0, 0.0), GeoPoint(0.0, 0.3), GeoPoint(0.0, 0.4)];
    assert ScanFrom(LonGap, r2, r2[1], 0.1, 3) == [];
    assert ScanFrom(LonGap, r2, r2[1], 0.0, 2) == [];
    var r3 := [GeoPoint(0.0, 0.0), GeoPoint(0.0, 0.3), GeoPoint(0.0, 0.6)];
    assert ScanFrom(LonGap, r3, r3[2], 0.0, 3) == [];
    assert ScanFrom(LonGap, r3, r3[1], 0.0, 2) == [r3[2]];
  }
}
