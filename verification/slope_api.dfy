/** The computation behind the slope request (api/slope.py, `analyze_slope`):
    flip the provider's route to (latitude, longitude), resample it, classify
    the sampled segments by elevation rise and report the bucket totals.

    The route and the elevations are inputs here; fetching them is network I/O
    outside the model. Any exception in the handler becomes an error response
    with no partial result, so the two ways the core itself can fail are
    modelled as `Err` values.
 */
module SlopeApi {
  import opened Geo
  import opened Resampler
  import opened Classifier

  datatype AnalysisError =
    | EmptyRoute          // the route has no point to start sampling from
    | MissingElevation    // fewer elevations than sampled points

  datatype Result<+T> = Ok(value: T) | Err(error: AnalysisError)

  /** The reported kilometres, before rounding to two decimals. */
  datatype Report = Report(flatKm: real, uphillKm: real, steepKm: real, totalKm: real)

  /** The whole computation for one request, given the routing provider's
      (longitude, latitude) route and the elevation provider's answer. */
  function Analyze(dist: Distance, route: seq<LonLat>, elevations: seq<real>): (r: Result<Report>)
    ensures |route| == 0 ==> r == Err(EmptyRoute)
    ensures r.Ok? <==> |route| > 0 && ElevationsCover(Resample(dist, FromLonLat(route)), elevations)
    ensures r.Err? && |route| > 0 ==> r.error == MissingElevation
    ensures r.Ok? ==> r.value.totalKm == r.value.flatKm + r.value.uphillKm + r.value.steepKm
    ensures r.Ok? ==> r.value.totalKm == PathLength(dist, Resample(dist, FromLonLat(route)))
  {
    if |route| == 0 then Err(EmptyRoute)
    else
      var sampled := Resample(dist, FromLonLat(route));
      if !ElevationsCover(sampled, elevations) then Err(MissingElevation)
      else
        var s := Classify(dist, sampled, elevations);
        ClassifyTotal(dist, sampled, elevations);
        Ok(Report(s.flat, s.uphill, s.steep, s.flat + s.uphill + s.steep))
  }

  /** Each reported bucket is the length of the sampled segments of its grade. */
  lemma AnalyzeBuckets(dist: Distance, route: seq<LonLat>, elevations: seq<real>)
    requires Analyze(dist, route, elevations).Ok?
    ensures |route| > 0
    ensures var sampled := Resample(dist, FromLonLat(route));
            var rep := Analyze(dist, route, elevations).value;
            rep.flatKm == GradeLength(dist, sampled, elevations, Flat) &&
            rep.uphillKm == GradeLength(dist, sampled, elevations, Uphill) &&
            rep.steepKm == GradeLength(dist, sampled, elevations, Steep)
  {
    ClassifyBuckets(dist, Resample(dist, FromLonLat(route)), elevations);
  }

  /** With a non-negative distance every reported figure is non-negative. */
  lemma AnalyzeNonNegative(dist: Distance, route: seq<LonLat>, elevations: seq<real>)
    requires NonNegative(dist)
    requires Analyze(dist, route, elevations).Ok?
    ensures var rep := Analyze(dist, route, elevations).value;
            rep.flatKm >= 0.0 && rep.uphillKm >= 0.0 && rep.steepKm >= 0.0 && rep.totalKm >= 0.0
  {
    ClassifyNonNegative(dist, Resample(dist, FromLonLat(route)), elevations);
  }

  /** A one-point route samples to that point, reads no elevation and reports zeros. */
  lemma SinglePointReport(dist: Distance, c: LonLat, elevations: seq<real>)
    ensures Resample(dist, FromLonLat([c])) == FromLonLat([c])
    ensures Analyze(dist, [c], elevations) == Ok(Report(0.0, 0.0, 0.0, 0.0))
  {
    SinglePointRoute(dist, FromLonLat([c])[0]);
    assert FromLonLat([c]) == [FromLonLat([c])[0]];
  }

  /** Elevations beyond those the sampled points need change nothing in the report. */
  lemma AnalyzeIgnoresExtraElevations(dist: Distance, route: seq<LonLat>, elevations: seq<real>, extra: seq<real>)
    requires Analyze(dist, route, elevations).Ok?
    ensures Analyze(dist, route, elevations + extra) == Analyze(dist, route, elevations)
  {
    var sampled := Resample(dist, FromLonLat(route));
    var n := |sampled|;
    if n > 1 {
      assert (elevations + extra)[..n] == elevations[..n];
      ClassifyIgnoresExtraElevations(dist, sampled, elevations + extra);
      ClassifyIgnoresExtraElevations(dist, sampled, elevations);
    }
  }
}
