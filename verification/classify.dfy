/** The slope classifier (api/slope.py, lines 34-43 and 51).

    Every consecutive pair of sampled points is one segment. Its length goes
    into exactly one bucket, chosen by the elevation rise across it: a rise
    below 7 m is flat (every descent included), a rise from 7 m up to but not
    including 15 m is uphill, anything larger is steep. The reported total is
    the sum of the three buckets.
 */
module Classifier {
  import opened Geo

  /** Rise, in metres, from which a segment stops counting as flat. */
  const UphillFrom: real := 7.0
  /** Rise, in metres, from which a segment counts as steep. */
  const SteepFrom: real := 15.0

  datatype Grade = Flat | Uphill | Steep

  /** The bucket of a segment with elevation rise `diff`. */
  function GradeOf(diff: real): (g: Grade)
    ensures g == Flat <==> diff < UphillFrom
    ensures g == Uphill <==> UphillFrom <= diff < SteepFrom
    ensures g == Steep <==> SteepFrom <= diff
    ensures diff <= 0.0 ==> g == Flat
  {
    if diff < UphillFrom then Flat
    else if UphillFrom <= diff < SteepFrom then Uphill
    else Steep
  }

  /** Kilometres accumulated per bucket. */
  datatype Summary = Summary(flat: real, uphill: real, steep: real) {

    /** The reported total distance, before rounding. */
    function Total(): real
    {
      flat + uphill + steep
    }

    /** The kilometres held in the bucket of grade `g`. */
    function Get(g: Grade): real
    {
      match g
      case Flat => flat
      case Uphill => uphill
      case Steep => steep
    }

    /** Adds a segment of length `d` to the bucket of grade `g`. */
    function Credit(g: Grade, d: real): Summary
    {
      match g
      case Flat => this.(flat := flat + d)
      case Uphill => this.(uphill := uphill + d)
      case Steep => this.(steep := steep + d)
    }
  }

  const Zero := Summary(0.0, 0.0, 0.0)

  /** Elevation gained over the segment that ends at sample `j`. */
  function Rise(elev: seq<real>, j: nat): real
    requires 1 <= j < |elev|
  {
    elev[j] - elev[j - 1]
  }

  /** Crediting a segment adds its length to its own bucket and leaves the others alone. */
  lemma CreditGet(s: Summary, g: Grade, d: real, h: Grade)
    ensures s.Credit(g, d).Get(h) == s.Get(h) + (if h == g then d else 0.0)
  {
  }

  /** Elevations the classifier reads: one per sampled point, except that a
      route of at most one point reads none. Extra elevations are never read. */
  predicate ElevationsCover(pts: seq<GeoPoint>, elev: seq<real>)
  {
    |pts| <= 1 || |pts| <= |elev|
  }

  /** The buckets after the loop has handled the segments ending at positions 1 .. n-1. */
  function Tally(dist: Distance, pts: seq<GeoPoint>, elev: seq<real>, n: nat): (s: Summary)
    requires n <= |pts|
    requires n <= 1 || n <= |elev|
    decreases n
  {
    if n <= 1 then Zero
    else
      var before := Tally(dist, pts, elev, n - 1);
      var d := dist(pts[n - 2], pts[n - 1]);
      before.Credit(GradeOf(Rise(elev, n - 1)), d)
  }

  /** The classifier's result for the sampled points and their elevations. */
  function Classify(dist: Distance, pts: seq<GeoPoint>, elev: seq<real>): (s: Summary)
    requires ElevationsCover(pts, elev)
    ensures |pts| <= 1 ==> s == Zero
  {
    Tally(dist, pts, elev, |pts|)
  }

  /** Imperative mirror of the source loop. */
  method ClassifyLoop(dist: Distance, pts: seq<GeoPoint>, elev: seq<real>) returns (flat: real, uphill: real, steep: real)
    requires ElevationsCover(pts, elev)
    ensures Summary(flat, uphill, steep) == Classify(dist, pts, elev)
    ensures Summary(flat, uphill, steep).Total() == PathLength(dist, pts)
  {
    flat, uphill, steep := 0.0, 0.0, 0.0;
    var i := 1;
    while i < |pts|
      invariant 1 <= i && (i <= |pts| || |pts| == 0)
      invariant Summary(flat, uphill, steep) == Tally(dist, pts, elev, if |pts| == 0 then 0 else i)
    {
      var d := dist(pts[i - 1], pts[i]);
      var diff := elev[i] - elev[i - 1];
      assert Tally(dist, pts, elev, i + 1) == Tally(dist, pts, elev, i).Credit(GradeOf(diff), d);
      if diff < UphillFrom {
        flat := flat + d;
      } else if UphillFrom <= diff < SteepFrom {
        uphill := uphill + d;
      } else {
        steep := steep + d;
      }
      i := i + 1;
    }
    ClassifyTotal(dist, pts, elev);
  }

  // ---------------------------------------------------------------------------
  // Reference definitions, walking the route from its start.
  // ---------------------------------------------------------------------------

  /** The sum of the lengths of all consecutive segments of `pts`. */
  function PathLength(dist: Distance, pts: seq<GeoPoint>): real
    decreases |pts|
  {
    if |pts| <= 1 then 0.0 else dist(pts[0], pts[1]) + PathLength(dist, pts[1..])
  }

  /** What one segment adds to the bucket of grade `g`. */
  function Share(dist: Distance, a: GeoPoint, b: GeoPoint, rise: real, g: Grade): real
  {
    if GradeOf(rise) == g then dist(a, b) else 0.0
  }

  /** The total length of the segments of `pts` whose rise falls in grade `g`. */
  function GradeLength(dist: Distance, pts: seq<GeoPoint>, elev: seq<real>, g: Grade): real
    requires ElevationsCover(pts, elev)
    decreases |pts|
  {
    if |pts| <= 1 then 0.0
    else Share(dist, pts[0], pts[1], Rise(elev, 1), g) + GradeLength(dist, pts[1..], elev[1..], g)
  }

  lemma {:induction false} GradeLengthSnoc(dist: Distance, s: seq<GeoPoint>, e: seq<real>, p: GeoPoint, x: real, g: Grade)
    requires |s| == |e| >= 1
    ensures GradeLength(dist, s + [p], e + [x], g)
         == GradeLength(dist, s, e, g) + Share(dist, s[|s| - 1], p, x - e[|e| - 1], g)
    decreases |s|
  {
    if |s| > 1 {
      assert (s + [p])[1..] == s[1..] + [p];
      assert (e + [x])[1..] == e[1..] + [x];
      GradeLengthSnoc(dist, s[1..], e[1..], p, x, g);
    }
  }

  /** The grade lengths depend only on the first |pts| elevations. */
  lemma {:induction false} GradeLengthIgnoresExtra(dist: Distance, pts: seq<GeoPoint>, elev: seq<real>, g: Grade)
    requires |pts| <= |elev|
    ensures GradeLength(dist, pts, elev, g) == GradeLength(dist, pts, elev[..|pts|], g)
    decreases |pts|
  {
    if |pts| > 1 {
      assert elev[..|pts|][1..] == elev[1..][..|pts| - 1];
      GradeLengthIgnoresExtra(dist, pts[1..], elev[1..], g);
    }
  }

  lemma {:induction false} TallyIsGradeLength(dist: Distance, pts: seq<GeoPoint>, elev: seq<real>, n: nat, g: Grade)
    requires 1 <= n <= |pts| && n <= |elev|
    ensures Tally(dist, pts, elev, n).Get(g) == GradeLength(dist, pts[..n], elev[..n], g)
    decreases n
  {
    if n > 1 {
      TallyIsGradeLength(dist, pts, elev, n - 1, g);
      CreditGet(Tally(dist, pts, elev, n - 1), GradeOf(Rise(elev, n - 1)), dist(pts[n - 2], pts[n - 1]), g);
      assert pts[..n] == pts[..n - 1] + [pts[n - 1]];
      assert elev[..n] == elev[..n - 1] + [elev[n - 1]];
      GradeLengthSnoc(dist, pts[..n - 1], elev[..n - 1], pts[n - 1], elev[n - 1], g);
    }
  }

  /** Each bucket holds exactly the length of the segments of its grade. */
  lemma ClassifyBuckets(dist: Distance, pts: seq<GeoPoint>, elev: seq<real>)
    requires ElevationsCover(pts, elev)
    ensures Classify(dist, pts, elev).flat == GradeLength(dist, pts, elev, Flat)
    ensures Classify(dist, pts, elev).uphill == GradeLength(dist, pts, elev, Uphill)
    ensures Classify(dist, pts, elev).steep == GradeLength(dist, pts, elev, Steep)
  {
    if |pts| > 1 {
      var n := |pts|;
      assert pts[..n] == pts;
      forall g: Grade
        ensures Classify(dist, pts, elev).Get(g) == GradeLength(dist, pts, elev, g)
      {
        TallyIsGradeLength(dist, pts, elev, n, g);
        GradeLengthIgnoresExtra(dist, pts, elev, g);
      }
      assert Classify(dist, pts, elev).Get(Flat) == GradeLength(dist, pts, elev, Flat);
      assert Classify(dist, pts, elev).Get(Uphill) == GradeLength(dist, pts, elev, Uphill);
      assert Classify(dist, pts, elev).Get(Steep) == GradeLength(dist, pts, elev, Steep);
    }
  }

  /** The three grade lengths partition the path length. */
  lemma {:induction false} GradeLengthsPartition(dist: Distance, pts: seq<GeoPoint>, elev: seq<real>)
    requires ElevationsCover(pts, elev)
    ensures GradeLength(dist, pts, elev, Flat) + GradeLength(dist, pts, elev, Uphill) + GradeLength(dist, pts, elev, Steep)
         == PathLength(dist, pts)
    decreases |pts|
  {
    if |pts| > 1 {
      GradeLengthsPartition(dist, pts[1..], elev[1..]);
    }
  }

  /** Sum law: the reported total is the length of the sampled path. */
  lemma {:induction false} ClassifyTotal(dist: Distance, pts: seq<GeoPoint>, elev: seq<real>)
    requires ElevationsCover(pts, elev)
    ensures Classify(dist, pts, elev).Total() == PathLength(dist, pts)
  {
    ClassifyBuckets(dist, pts, elev);
    GradeLengthsPartition(dist, pts, elev);
  }

  lemma {:induction false} GradeLengthNonNegative(dist: Distance, pts: seq<GeoPoint>, elev: seq<real>, g: Grade)
    requires NonNegative(dist)
    requires ElevationsCover(pts, elev)
    ensures GradeLength(dist, pts, elev, g) >= 0.0
    decreases |pts|
  {
    if |pts| > 1 {
      assert dist(pts[0], pts[1]) >= 0.0;
      GradeLengthNonNegative(dist, pts[1..], elev[1..], g);
    }
  }

  /** With a non-negative distance no bucket is ever negative. */
  lemma ClassifyNonNegative(dist: Distance, pts: seq<GeoPoint>, elev: seq<real>)
    requires NonNegative(dist)
    requires ElevationsCover(pts, elev)
    ensures Classify(dist, pts, elev).flat >= 0.0
    ensures Classify(dist, pts, elev).uphill >= 0.0
    ensures Classify(dist, pts, elev).steep >= 0.0
  {
    ClassifyBuckets(dist, pts, elev);
    GradeLengthNonNegative(dist, pts, elev, Flat);
    GradeLengthNonNegative(dist, pts, elev, Uphill);
    GradeLengthNonNegative(dist, pts, elev, Steep);
  }

  /** Elevations past the last sampled point are never read. */
  lemma ClassifyIgnoresExtraElevations(dist: Distance, pts: seq<GeoPoint>, elev: seq<real>)
    requires |pts| <= |elev|
    ensures Classify(dist, pts, elev) == Classify(dist, pts, elev[..|pts|])
  {
    ClassifyBuckets(dist, pts, elev);
    ClassifyBuckets(dist, pts, elev[..|pts|]);
    GradeLengthIgnoresExtra(dist, pts, elev, Flat);
    GradeLengthIgnoresExtra(dist, pts, elev, Uphill);
    GradeLengthIgnoresExtra(dist, pts, elev, Steep);
  }

  /** A route that never rises by 7 m or more between samples (in particular a
      route that only descends) is all flat. */
  lemma {:induction false} NoClimbIsFlat(dist: Distance, pts: seq<GeoPoint>, elev: seq<real>)
    requires ElevationsCover(pts, elev)
    requires forall j :: 1 <= j < |pts| ==> Rise(elev, j) < UphillFrom
    ensures Classify(dist, pts, elev) == Summary(PathLength(dist, pts), 0.0, 0.0)
  {
    var s := Classify(dist, pts, elev);
    var flat := GradeLength(dist, pts, elev, Flat);
    assert s == Summary(flat, 0.0, 0.0) by {
      ClassifyBuckets(dist, pts, elev);
      NoClimbGradeLength(dist, pts, elev, Uphill);
      NoClimbGradeLength(dist, pts, elev, Steep);
    }
    assert flat == PathLength(dist, pts) by {
      GradeLengthsPartition(dist, pts, elev);
      NoClimbGradeLength(dist, pts, elev, Uphill);
      NoClimbGradeLength(dist, pts, elev, Steep);
    }
  }

  lemma {:induction false} NoClimbGradeLength(dist: Distance, pts: seq<GeoPoint>, elev: seq<real>, g: Grade)
    requires ElevationsCover(pts, elev)
    requires forall j :: 1 <= j < |pts| ==> Rise(elev, j) < UphillFrom
    requires g != Flat
    ensures GradeLength(dist, pts, elev, g) == 0.0
    decreases |pts|
  {
    if |pts| > 1 {
      assert Rise(elev, 1) < UphillFrom;
      forall j | 1 <= j < |pts| - 1
        ensures Rise(elev[1..], j) < UphillFrom
      {
        assert Rise(elev[1..], j) == Rise(elev, j + 1);
      }
      NoClimbGradeLength(dist, pts[1..], elev[1..], g);
    }
  }

  /** Two-point examples: the 7 m boundary is uphill, a 10 m descent is flat,
      a 20 m rise is steep. */
  lemma TwoPointExamples(dist: Distance, a: GeoPoint, b: GeoPoint, e: real)
    ensures Classify(dist, [a, b], [e, e + 7.0]) == Summary(0.0, dist(a, b), 0.0)
    ensures Classify(dist, [a, b], [e, e - 10.0]) == Summary(dist(a, b), 0.0, 0.0)
    ensures Classify(dist, [a, b], [e, e + 20.0]) == Summary(0.0, 0.0, dist(a, b))
  {
    assert Tally(dist, [a, b], [e, e + 7.0], 1) == Zero;
    assert Tally(dist, [a, b], [e, e - 10.0], 1) == Zero;
    assert Tally(dist, [a, b], [e, e + 20.0], 1) == Zero;
  }
}
