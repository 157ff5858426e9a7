# Slope API core, modelled in Dafny

The service takes an origin and a destination, gets a driving route from a
routing provider, resamples the route at roughly 0.25 km intervals, gets an
elevation for each sample, and splits the sampled route's length into flat,
uphill and steep-uphill kilometres. This project models the pure part of that
request handler (`analyze_slope` in `api/slope.py`) and proves properties of it:

- `Geo` — points, the provider's (longitude, latitude) flip, and the distance
  primitive. The geodesic distance comes from a library outside the model, so it
  is a parameter `dist: (GeoPoint, GeoPoint) -> real`. The only fact assumed
  about it is `NonNegative(dist)`, and only in contracts that say so.
- `Resampler` — the greedy resampler. `Resample` is the functional model and
  `ResampleLoop` mirrors the source loop. `Acc`, `Gap`, `Tail` and `Greedy`
  describe, by route position, which points a greedy scan accepts. The lemmas
  prove that the resampler's output is exactly the route at the unique greedy
  sequence of positions. The accumulator sums distances from the last accepted
  sample, not segment lengths, and the model keeps that behaviour.
- `Classifier` — the slope classifier. `Classify`/`Tally` are the functional
  model and `ClassifyLoop` mirrors the source loop. `GradeLength` and
  `PathLength` are reference definitions that walk the route from its start.
  The lemmas prove that each bucket holds exactly the segments of its grade and
  that the three buckets add up to the sampled path length.
- `SlopeApi` — `Analyze`, the whole computation with its two failure cases: an
  empty route, and too few elevations. Either one makes the handler answer with
  an error and no partial result.

Thresholds are constants: `Interval` = 0.25 km, `UphillFrom` = 7 m and
`SteepFrom` = 15 m. Kilometres and metres are `real`, so every law holds
exactly, before any rounding.

Two behaviours of the code are worth stating plainly:

- The code reads `elevations[i]` and `elevations[i-1]` only for
  `1 <= i < len(sampled_points)`. So a one-point sample needs no elevations,
  extra trailing elevations are ignored, and only a list that is too short
  fails. `ElevationsCover` states this.
- The sampled route need not be a strict subsequence of the route: every
  point is kept when each step reaches the interval on its own. Consecutive
  samples are separated by a sum of distances from the earlier sample to each
  later route point, not by a length along the road. `AnchorQuirkExample`
  shows the anchor sum, the dropped tail and the non-strict case on a
  concrete straight-line route.

## Model

| member | source | states |
|---|---|---|
| Geo.FromLonLat | api/slope.py:17 | each output point takes its latitude from the pair's second component and its longitude from the first; the length is kept |
| Geo.FlipRoundTrip | api/slope.py:17 | flipping to (lat, lon) and back restores the provider's coordinate list |
| Geo.FlipSurjective | api/slope.py:17 | every point list is the flip of some provider list, so the flip loses nothing |
| Resampler.ScanFrom | api/slope.py:21-28 | the scan from position i appends at most one point per remaining route point, each taken from the route after i |
| Resampler.Resample | api/slope.py:19-28 | the sample is non-empty, starts with the first route point, has no more points than the route, and contains only route points |
| Resampler.ResampleLoop | api/slope.py:19-28 | the source loop computes `Resample`; for a non-negative distance the final accumulator lies in [0, 0.25) |
| Resampler.ScanIsGreedy | api/slope.py:21-28 | the scan from position i, with the anchor at position a and nothing accepted in between, appends exactly the route at a greedy continuation of a |
| Resampler.ResampleIsGreedy | api/slope.py:20-28 | some positions starting at 0 meet the greedy description and project to the sample: each point is accepted at the first position where the summed distances from the last accepted point reach 0.25, and nothing after the last sample reaches it |
| Resampler.GreedyUnique | api/slope.py:20-28 | two position lists that both meet the greedy description from the same start are equal, so sampling is deterministic |
| Resampler.GreedySamplingIsResample | api/slope.py:20-28 | any position list meeting the greedy description from position 0 projects to exactly the resampler's output (the converse of ResampleIsGreedy) |
| Resampler.FirstHit | api/slope.py:25-27 | the next sample after an anchor is no later than any position whose accumulator reaches the interval |
| Resampler.HasSecond | api/slope.py:26-27 | if one greedy sampling accepts a second point, every greedy sampling with the same start does |
| Resampler.ResampleIsSubsequence | api/slope.py:19-28 | the sample is the route at strictly increasing positions that start at 0, so the selection keeps route order |
| Resampler.AccNonNegative | api/slope.py:20-25 | with a non-negative distance the accumulator is never negative |
| Resampler.SinglePointRoute | api/slope.py:19-21 | a one-point route samples to itself |
| Resampler.AnchorQuirkExample | api/slope.py:22-28 | on points 0.1 km apart, the point at 0.2 km is sampled because 0.1 + 0.2 >= 0.25; a destination 0.1 km after the last sample is dropped; points 0.3 km apart are all kept |
| Classifier.GradeOf | api/slope.py:37-43 | a rise below 7 is flat, a rise in [7, 15) is uphill, a rise of 15 or more is steep (each an if-and-only-if), and every descent is flat |
| Classifier.CreditGet | api/slope.py:38-43 | crediting a segment adds its length to its own bucket only |
| Classifier.Classify | api/slope.py:34-35 | a route of at most one sampled point yields all-zero buckets |
| Classifier.ClassifyLoop | api/slope.py:34-43 | the source loop computes `Classify`, and its three buckets sum to the sampled path length |
| Classifier.GradeLengthSnoc | api/slope.py:35-43 | appending one point adds exactly that segment's share to the grade length |
| Classifier.GradeLengthIgnoresExtra | api/slope.py:35-37 | grade lengths depend only on the first elevations, one per sampled point |
| Classifier.TallyIsGradeLength | api/slope.py:35-43 | after each iteration, every bucket equals the grade length of the prefix processed so far |
| Classifier.ClassifyBuckets | api/slope.py:34-43 | each bucket is the total length of the segments whose rise falls in its grade |
| Classifier.GradeLengthsPartition | api/slope.py:38-43 | the three grade lengths add up to the path length, so each segment lands in exactly one bucket |
| Classifier.ClassifyTotal | api/slope.py:34-51 | sum law: flat + uphill + steep equals the sum of all consecutive sampled-segment distances |
| Classifier.GradeLengthNonNegative | api/slope.py:36-43 | with a non-negative distance every grade length is non-negative |
| Classifier.ClassifyNonNegative | api/slope.py:34-43 | with a non-negative distance no bucket is negative |
| Classifier.ClassifyIgnoresExtraElevations | api/slope.py:35-37 | elevations past the last sampled point do not affect the result |
| Classifier.NoClimbIsFlat | api/slope.py:38-39 | if no segment rises by 7 m or more (any descending route), the whole path length is flat and the other buckets are zero |
| Classifier.NoClimbGradeLength | api/slope.py:38-43 | without a rise of 7 m or more, the uphill and steep grade lengths are zero |
| Classifier.TwoPointExamples | api/slope.py:38-43 | a rise of exactly 7 is uphill, a 10 m descent is flat, a 20 m rise is steep |
| SlopeApi.Analyze | api/slope.py:17-55 | fails with EmptyRoute exactly when the route is empty; otherwise fails with MissingElevation exactly when there are too few elevations for the sample; on success the total is the sum of the buckets and equals the sampled path length |
| SlopeApi.AnalyzeBuckets | api/slope.py:34-50 | each reported bucket is the length of the sampled segments of its grade |
| SlopeApi.AnalyzeNonNegative | api/slope.py:34-51 | with a non-negative distance all four reported figures are non-negative |
| SlopeApi.SinglePointReport | api/slope.py:19-35 | a one-point route samples to that point, needs no elevations and reports four zeros |
| SlopeApi.AnalyzeIgnoresExtraElevations | api/slope.py:32-37 | appending elevations to a successful request leaves the report unchanged |

## Left out

- Flask routing, request parsing, `jsonify` and the HTTP 500 status (api/slope.py:1-12, 45-55) are left out. They are transport. The error response is modelled only as an `Err` value from `Analyze`.
- The routing and elevation requests (api/slope.py:14-16, 30-32) are network I/O. Their results are the `route` and `elevations` inputs of `Analyze`.
- The geodesic formula is a floating-point library routine that is not part of this model. It is the `dist` parameter. Any exception the library raises, for example for a latitude outside [-90, 90], is not modelled.
- Malformed provider payloads are not modelled: a missing field, a coordinate that is not a pair, or a non-numeric elevation. Each of these would also end in the error response.
- `round(..., 2)` and the `"lon,lat"` strings in the response (api/slope.py:46-51) are not modelled. They are float rounding and text formatting. The sum law is stated before rounding.
- Floating-point accumulation is not modelled. Distances and elevations are exact reals, so the model does not capture float rounding drift in the accumulator or the buckets.
