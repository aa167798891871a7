/** `StreamingPercentileEstimator`: one quantile of an unbounded stream from five markers. */
module P2Estimator {
  import opened Sorting
  import opened Wrappers

  const MARKER_COUNT: nat := 5

  /** The fields of the estimator. */
  datatype Markers = Markers(
    quantile: real,
    heights: seq<real>,
    positions: seq<int>,
    desired: seq<real>,
    increments: seq<real>,
    initial: seq<real>,
    count: nat)

  predicate Shaped(m: Markers) {
    |m.heights| == |m.positions| == |m.desired| == |m.increments| == 5
  }

  /** No two adjacent markers share a position. */
  predicate Spread(positions: seq<int>) {
    |positions| == 5 && positions[0] < positions[1] < positions[2] < positions[3] < positions[4]
  }

  predicate Ascending(heights: seq<real>) {
    |heights| == 5 && heights[0] <= heights[1] <= heights[2] <= heights[3] <= heights[4]
  }

  /** `_parabolic`. The markers are spread, so no denominator is zero. */
  function Parabolic(h: seq<real>, n: seq<int>, i: nat, d: int): real
    requires |h| == 5 && Spread(n) && 1 <= i <= 3
  {
    Bend(n[i - 1] as real, n[i] as real, n[i + 1] as real, h[i - 1], h[i], h[i + 1], d as real)
  }

  function Bend(nLeft: real, nMid: real, nRight: real, hLeft: real, hMid: real, hRight: real, d: real): real
    requires nLeft < nMid < nRight
  {
    hMid + Shift(nMid - nLeft, nRight - nMid, nRight - nLeft, nMid - nLeft + d, nRight - nMid - d,
                 hRight - hMid, hMid - hLeft, d)
  }

  /** d / span * (term_a + term_b), in terms of the gaps, weights and rises around a marker. */
  function Shift(left: real, right: real, span: real, weightA: real, weightB: real,
                 riseA: real, riseB: real, d: real): real
    requires left != 0.0 && right != 0.0 && span != 0.0
  {
    var termA := weightA * riseA / right;
    var termB := weightB * riseB / left;
    d / span * (termA + termB)
  }

  /** `_linear`. */
  function Linear(h: seq<real>, n: seq<int>, i: nat, d: int): real
    requires |h| == 5 && Spread(n) && 1 <= i <= 3 && (d == 1 || d == -1)
  {
    h[i] + d as real * (h[i + d] - h[i]) / ((n[i + d] - n[i]) as real)
  }

  /** `_initialize_markers`, on the first five samples. */
  function Initialized(m: Markers): Markers
    requires |m.initial| == 5
  {
    var p, sorted := m.quantile, SortReals(m.initial);
    m.(initial := sorted, heights := sorted, positions := [1, 2, 3, 4, 5],
       desired := [1.0, 1.0 + 2.0 * p, 1.0 + 4.0 * p, 3.0 + 2.0 * p, 5.0],
       increments := [0.0, p / 2.0, p, (1.0 + p) / 2.0, 1.0])
  }

  /** The cell a sample falls into, between markers `cell` and `cell + 1`. */
  function Cell(heights: seq<real>, v: real): (cell: int)
    requires |heights| == 5
    ensures 0 <= cell <= 3
  {
    if v < heights[0] then 0
    else if v >= heights[4] then 3
    else
      var k := BisectLeft(heights, v) - 1;
      if k < 0 then 0 else if k > 3 then 3 else k
  }

  /** The first half of `_update_markers`: the extremes stretch to the sample, and the
      markers above it and all the desired positions move on. */
  function Placed(m: Markers, v: real): (r: Markers)
    requires Shaped(m) && Spread(m.positions)
    ensures Shaped(r) && Spread(r.positions)
  {
    var h, cell := m.heights, Cell(m.heights, v);
    m.(heights := if v < h[0] then h[0 := v] else if v >= h[4] then h[4 := v] else h,
       positions := [Moved(m, cell, 0), Moved(m, cell, 1), Moved(m, cell, 2), Moved(m, cell, 3), Moved(m, cell, 4)],
       desired := [Due(m, 0), Due(m, 1), Due(m, 2), Due(m, 3), Due(m, 4)])
  }

  /** The position of marker `i` after a sample falls into `cell`. */
  function Moved(m: Markers, cell: int, i: nat): int
    requires Shaped(m) && i < 5
  {
    if i > cell then m.positions[i] + 1 else m.positions[i]
  }

  /** The desired position of marker `i` after one more sample. */
  function Due(m: Markers, i: nat): real
    requires Shaped(m) && i < 5
  {
    m.desired[i] + m.increments[i]
  }

  /** Which way marker `i` moves: by one if it is a whole position off and has room. */
  function Direction(m: Markers, i: nat): int
    requires Shaped(m) && 1 <= i <= 3
  {
    var diff := m.desired[i] - m.positions[i] as real;
    if diff >= 1.0 && m.positions[i + 1] - m.positions[i] > 1 then 1
    else if diff <= -1.0 && m.positions[i] - m.positions[i - 1] > 1 then -1
    else 0
  }

  /** One turn of the adjustment loop. */
  function Adjusted(m: Markers, i: nat): (r: Markers)
    requires Shaped(m) && Spread(m.positions) && 1 <= i <= 3
    ensures Shaped(r) && Spread(r.positions)
    ensures r.desired == m.desired && r.increments == m.increments
  {
    var d := Direction(m, i);
    if d == 0 then m
    else
      var p := Parabolic(m.heights, m.positions, i, d);
      var h := if m.heights[i - 1] < p < m.heights[i + 1] then p else Linear(m.heights, m.positions, i, d);
      m.(heights := m.heights[i := h], positions := m.positions[i := m.positions[i] + d])
  }

  /** What holds of the markers of a running estimator that has seen `n` samples, whose
      least and greatest are `lo` and `hi`. */
  ghost predicate Running(m: Markers, n: nat, lo: real, hi: real) {
    && Shaped(m) && Spread(m.positions) && Ascending(m.heights)
    && n == m.count && m.count >= 5 && |m.initial| == 5
    && m.positions[0] == 1 && m.positions[4] == n
    && m.heights[0] == lo && m.heights[4] == hi
    && 0.0 < m.quantile < 1.0
    && m.increments == [0.0, m.quantile / 2.0, m.quantile, (1.0 + m.quantile) / 2.0, 1.0]
  }

  /** The desired positions are exactly the marker's share of the samples seen. */
  ghost predicate OnTarget(m: Markers, n: nat) {
    && Shaped(m)
    && forall i {:trigger Aims(m.desired[i], n, m.increments[i])} | 0 <= i < 5 ::
         Aims(m.desired[i], n, m.increments[i])
  }

  predicate Aims(desired: real, n: nat, increment: real) {
    desired == 1.0 + (n - 1) as real * increment
  }

  /** The upper marker never lags a whole position behind, nor does the lower one run a
      whole position ahead; and the middle one stays near its target both ways. */
  ghost predicate Tracks(m: Markers) {
    && Shaped(m)
    && m.desired[3] - m.positions[3] as real < 1.0
    && m.desired[1] - m.positions[1] as real > -1.0
    && -2.0 < m.desired[2] - m.positions[2] as real < 3.0
  }

  lemma LinearBetween(h: seq<real>, n: seq<int>, i: nat, d: int)
    requires Ascending(h) && Spread(n) && 1 <= i <= 3 && (d == 1 || d == -1)
    ensures h[i - 1] <= Linear(h, n, i, d) <= h[i + 1]
  {
    if d == 1 {
      Share(h[i + 1] - h[i], (n[i + 1] - n[i]) as real);
      assert Linear(h, n, i, d) == h[i] + 1.0 * (h[i + 1] - h[i]) / ((n[i + 1] - n[i]) as real);
    } else {
      Share(h[i] - h[i - 1], (n[i] - n[i - 1]) as real);
      var x, y := h[i - 1] - h[i], (n[i - 1] - n[i]) as real;
      Negated(x, y);
      assert Linear(h, n, i, d) == h[i] + -1.0 * x / y;
      assert -y == (n[i] - n[i - 1]) as real;
    }
  }

  lemma Share(x: real, y: real)
    requires x >= 0.0 && y >= 1.0
    ensures 0.0 <= x / y <= x
  {
    assert x / y >= 0.0;
    assert (x / y) * y >= (x / y) * 1.0;
  }

  lemma Negated(x: real, y: real)
    requires y != 0.0
    ensures -1.0 * x / y == -x / -(-y) && -x / y == x / -y && x / -y == -(x / y) && -1.0 * x / y == -x / y
    ensures -x / -y == x / y
  {
    var q := x / y;
    assert q * y == x;
    assert (-q) * (-y) == q * y;
    assert (-q) * y == -x;
    assert q * -y == -x;
  }

  lemma Cancel(k: real, y: real, w: real, x: real)
    requires w != 0.0 && y == w * x
    ensures k * y / w == k * x
  {
    var q := k * y / w;
    assert q * w == k * y;
    assert k * (w * x) == (k * x) * w;
    assert (q - k * x) * w == 0.0;
  }

  lemma Slope(e: real, w: real, t: real, x: real)
    requires w != 0.0 && t == w * x
    ensures e / w * t == e * x
  {
    var q := e / w;
    assert q * w == e;
    assert q * (w * x) == (q * w) * x;
  }

  /** `_linear` follows the line through marker `i` and the neighbour it moves towards. */
  lemma LinearExact(h: seq<real>, n: seq<int>, i: nat, d: int, a: real, b: real)
    requires |h| == 5 && Spread(n) && 1 <= i <= 3 && (d == 1 || d == -1)
    requires h[i] == a + b * n[i] as real && h[i + d] == a + b * n[i + d] as real
    ensures Linear(h, n, i, d) == a + b * (n[i] + d) as real
  {
    assert h[i + d] - h[i] == (n[i + d] - n[i]) as real * b;
    Cancel(d as real, h[i + d] - h[i], (n[i + d] - n[i]) as real, b);
    assert a + b * (n[i] + d) as real == h[i] + d as real * b;
  }

  /** The value of a parabola. */
  function Quadratic(a: real, b: real, c: real, x: real): real {
    a + b * x + c * x * x
  }

  /** `_parabolic` follows the one parabola through marker `i` and its two neighbours. */
  lemma ParabolicExact(h: seq<real>, n: seq<int>, i: nat, d: int, a: real, b: real, c: real)
    requires |h| == 5 && Spread(n) && 1 <= i <= 3
    requires h[i - 1] == Quadratic(a, b, c, n[i - 1] as real)
    requires h[i] == Quadratic(a, b, c, n[i] as real)
    requires h[i + 1] == Quadratic(a, b, c, n[i + 1] as real)
    ensures Parabolic(h, n, i, d) == Quadratic(a, b, c, (n[i] + d) as real)
  {
    BendExact(a, b, c, n[i - 1] as real, n[i] as real, n[i + 1] as real, h[i - 1], h[i], h[i + 1], d as real);
  }

  lemma BendExact(a: real, b: real, c: real, l: real, m: real, r: real, hl: real, hm: real, hr: real, d: real)
    requires l < m < r
    requires hl == Quadratic(a, b, c, l) && hm == Quadratic(a, b, c, m) && hr == Quadratic(a, b, c, r)
    ensures Bend(l, m, r, hl, hm, hr, d) == Quadratic(a, b, c, m + d)
  {
    Chord(a, b, c, m, r);
    Chord(a, b, c, l, m);
    Chord(a, b, c, m, m + d);
    Weights(b, c, l, m, r, d);
    BendOf(l, m, r, hl, hm, hr, d, b + c * (m + r), b + c * (l + m), b + c * (m + (m + d)));
  }

  /** The slope of a chord of a parabola. */
  lemma Chord(a: real, b: real, c: real, x: real, y: real)
    ensures Quadratic(a, b, c, y) - Quadratic(a, b, c, x) == (y - x) * (b + c * (x + y))
  {
    assert (y - x) * (c * (x + y)) == c * y * y - c * x * x;
  }

  /** The two chord slopes, weighted by the distances from the target, average to the slope
      of the chord to the target. */
  lemma Weights(b: real, c: real, l: real, m: real, r: real, d: real)
    ensures (m - l + d) * (b + c * (m + r)) + (r - m - d) * (b + c * (l + m))
            == (r - l) * (b + c * (m + (m + d)))
  {
    var p, q, s := m - l + d, r - m - d, r - l;
    assert p * (m + r) + q * (l + m) == s * (m + (m + d));
    Spread3(p, q, s, b, c, m + r, l + m, m + (m + d));
  }

  lemma Spread3(p: real, q: real, s: real, b: real, c: real, x: real, y: real, z: real)
    requires p + q == s && p * x + q * y == s * z
    ensures p * (b + c * x) + q * (b + c * y) == s * (b + c * z)
  {
    assert c * (p * x + q * y) == c * (s * z);
    assert (p + q) * b == s * b;
    assert p * (c * x) == c * (p * x) && q * (c * y) == c * (q * y) && s * (c * z) == c * (s * z);
  }

  lemma BendOf(l: real, m: real, r: real, hl: real, hm: real, hr: real, d: real, right: real, left: real, mid: real)
    requires l < m < r
    requires hr - hm == (r - m) * right && hm - hl == (m - l) * left
    requires (m - l + d) * right + (r - m - d) * left == (r - l) * mid
    ensures Bend(l, m, r, hl, hm, hr, d) == hm + d * mid
  {
    Averaged(m - l, r - m, r - l, m - l + d, r - m - d, hr - hm, hm - hl, d, right, left, mid);
  }

  lemma Averaged(u: real, w: real, s: real, p: real, q: real, rise: real, fall: real, d: real,
                 right: real, left: real, mid: real)
    requires u != 0.0 && w != 0.0 && s != 0.0
    requires rise == w * right && fall == u * left && p * right + q * left == s * mid
    ensures Shift(u, w, s, p, q, rise, fall, d) == d * mid
  {
    Cancel(p, rise, w, right);
    Cancel(q, fall, u, left);
    Slope(d, s, p * right + q * left, mid);
  }

  /** The cell of a sample is where it belongs among the markers: strictly above the lower
      one (unless it is a new minimum or equals the old one), and not above the upper one
      (unless it is a new maximum or equals the old one). */
  lemma CellBrackets(heights: seq<real>, v: real)
    requires Ascending(heights)
    ensures var cell := Cell(heights, v);
            && (v <= heights[0] && v < heights[4] ==> cell == 0)
            && (v >= heights[4] && v >= heights[0] ==> cell == 3)
            && (heights[0] < v < heights[4] ==> heights[cell] < v <= heights[cell + 1])
  {
  }

  lemma AdjustedRuns(m: Markers, i: nat, n: nat, lo: real, hi: real)
    requires Running(m, n, lo, hi) && 1 <= i <= 3
    ensures Running(Adjusted(m, i), n, lo, hi)
    ensures forall j | 0 <= j < 5 && j != i :: Adjusted(m, i).positions[j] == m.positions[j]
    ensures Adjusted(m, i).positions[i] == m.positions[i] + Direction(m, i)
  {
    var d := Direction(m, i);
    if d != 0 {
      LinearBetween(m.heights, m.positions, i, d);
    }
  }

  /** `_update_markers`. */
  function Updated(m: Markers, v: real): (r: Markers)
    requires Shaped(m) && Spread(m.positions)
    ensures Shaped(r) && Spread(r.positions)
  {
    Adjusted(Adjusted(Adjusted(Placed(m, v), 1), 2), 3)
  }

  /** An estimator between two observations: filling its first five slots, or running. */
  predicate Usable(m: Markers) {
    && 0.0 < m.quantile < 1.0
    && (m.count == 0 <==> m.initial == [])
    && (|m.initial| < 5 || (|m.initial| == 5 && Shaped(m) && Spread(m.positions)))
  }

  /** `observe`. */
  function Observed(m: Markers, v: real): (r: Markers)
    requires Usable(m)
    ensures Usable(r)
  {
    var counted := m.(count := m.count + 1);
    if |m.initial| < 5 then Collected(counted, v) else Updated(counted, v)
  }

  /** One of the first five samples; the fifth sets the markers. */
  function Collected(m: Markers, v: real): Markers {
    var filled := m.(initial := m.initial + [v]);
    if |filled.initial| == 5 then Initialized(filled) else filled
  }

  function New(quantile: real): Markers
  {
    Markers(quantile, [], [], [], [], [], 0)
  }

  /** The estimator after a whole stream. */
  function Fed(quantile: real, samples: seq<real>): (r: Markers)
    requires 0.0 < quantile < 1.0
    ensures Usable(r)
  {
    if samples == [] then New(quantile)
    else Observed(Fed(quantile, samples[..|samples| - 1]), samples[|samples| - 1])
  }

  /** `value`. */
  function Value(m: Markers): Option<real>
    requires Usable(m)
  {
    if m.count == 0 then None
    else if |m.initial| < 5 then
      var samples := SortReals(m.initial);
      var k := EarlyIndex(m.quantile, |samples| - 1);
      Some(samples[if k < |samples| - 1 then k else |samples| - 1])
    else Some(m.heights[2])
  }

  /** Which of the sorted samples stands for the quantile before there are markers. */
  function EarlyIndex(q: real, last: nat): (k: nat)
    requires 0.0 < q < 1.0
    ensures k as real <= q * last as real < k as real + 1.0 && k <= last
  {
    assert 0.0 <= q * last as real <= 1.0 * last as real;
    (q * last as real).Floor
  }

  // ---------------------------------------------------------------- every stream

  lemma SortedEnds(xs: seq<real>, sorted: seq<real>)
    requires xs != [] && multiset(sorted) == multiset(xs) && |sorted| == |xs|
    requires forall i, j | 0 <= i < j < |sorted| :: sorted[i] <= sorted[j]
    ensures sorted[0] == Least(xs) && sorted[|xs| - 1] == Greatest(xs)
  {
    assert sorted[0] in multiset(xs) && sorted[|xs| - 1] in multiset(xs);
    assert Least(xs) in multiset(sorted) && Greatest(xs) in multiset(sorted);
    assert sorted[0] in xs && sorted[|xs| - 1] in xs;
    var i, j :| 0 <= i < |sorted| && 0 <= j < |sorted| && sorted[i] == Least(xs) && sorted[j] == Greatest(xs);
  }

  lemma StartsRunning(m: Markers)
    requires |m.initial| == 5 && m.count == 5 && 0.0 < m.quantile < 1.0
    ensures var r := Initialized(m);
            && Running(r, 5, Least(m.initial), Greatest(m.initial)) && OnTarget(r, 5) && Tracks(r)
  {
    var sorted := SortReals(m.initial);
    SortedEnds(m.initial, sorted);
    assert sorted[0] <= sorted[1] <= sorted[2] <= sorted[3] <= sorted[4];
  }

  /** Stretching to a sample keeps everything but the tracking bound, which slips by less
      than the one position the adjustment can make up. */
  lemma PlacedRuns(m: Markers, v: real, n: nat, lo: real, hi: real)
    requires Running(m, n, lo, hi) && Tracks(m)
    ensures var r := Placed(m.(count := m.count + 1), v);
            && Running(r, n + 1, if v < lo then v else lo, if v > hi then v else hi)
            && r.desired[3] - r.positions[3] as real < 2.0
            && r.desired[1] - r.positions[1] as real > -2.0
            && -3.0 < r.desired[2] - r.positions[2] as real < 4.0
  {
  }

  lemma PlacedOnTarget(m: Markers, v: real, n: nat)
    requires OnTarget(m, n) && Spread(m.positions)
    ensures OnTarget(Placed(m.(count := m.count + 1), v), n + 1)
  {
    var r := Placed(m.(count := m.count + 1), v);
    forall i | 0 <= i < 5 ensures Aims(r.desired[i], n + 1, r.increments[i]) {
      assert Aims(m.desired[i], n, m.increments[i]) && r.desired[i] == Due(m, i);
      OneMore(m.desired[i], n, m.increments[i]);
    }
  }

  lemma OneMore(desired: real, n: nat, increment: real)
    requires Aims(desired, n, increment)
    ensures Aims(desired + increment, n + 1, increment)
  {
  }

  /** The end markers never block the moves that keep the outer markers on track. */
  lemma NeverBlocked(m: Markers, n: nat, lo: real, hi: real)
    requires Running(m, n, lo, hi)
    requires Aims(m.desired[3], n, m.increments[3]) && Aims(m.desired[1], n, m.increments[1])
    ensures m.desired[3] - m.positions[3] as real >= 1.0 ==> Direction(m, 3) == 1
    ensures m.desired[1] - m.positions[1] as real <= -1.0 ==> Direction(m, 1) == -1
  {
    AimsInside(m.desired[3], n, m.increments[3]);
    AimsInside(m.desired[1], n, m.increments[1]);
  }

  lemma AimsInside(desired: real, n: nat, increment: real)
    requires Aims(desired, n, increment) && n >= 2 && 0.0 < increment < 1.0
    ensures 1.0 < desired < n as real
  {
    var steps := (n - 1) as real;
    assert 0.0 < steps * increment < steps * 1.0;
  }

  lemma UpdatedRuns(m: Markers, v: real, n: nat, lo: real, hi: real)
    requires Running(m, n, lo, hi) && Tracks(m)
    ensures Running(Updated(m.(count := m.count + 1), v), n + 1, if v < lo then v else lo, if v > hi then v else hi)
  {
    var lo', hi' := if v < lo then v else lo, if v > hi then v else hi;
    var p := Placed(m.(count := m.count + 1), v);
    PlacedRuns(m, v, n, lo, hi);
    AdjustedRuns(p, 1, n + 1, lo', hi');
    AdjustedRuns(Adjusted(p, 1), 2, n + 1, lo', hi');
    AdjustedRuns(Adjusted(Adjusted(p, 1), 2), 3, n + 1, lo', hi');
  }

  lemma SameTarget(p: Markers, r: Markers, n: nat)
    requires OnTarget(p, n) && Shaped(r) && r.desired == p.desired && r.increments == p.increments
    ensures OnTarget(r, n)
  {
  }

  lemma UpdatedOnTarget(m: Markers, v: real, n: nat)
    requires OnTarget(m, n) && Spread(m.positions)
    ensures OnTarget(Updated(m.(count := m.count + 1), v), n + 1)
  {
    PlacedOnTarget(m, v, n);
    SameTarget(Placed(m.(count := m.count + 1), v), Updated(m.(count := m.count + 1), v), n + 1);
  }

  lemma UpdatedTracks(m: Markers, v: real, n: nat, lo: real, hi: real)
    requires Running(m, n, lo, hi) && OnTarget(m, n) && Tracks(m)
    ensures Tracks(Updated(m.(count := m.count + 1), v))
  {
    var lo', hi' := if v < lo then v else lo, if v > hi then v else hi;
    var p := Placed(m.(count := m.count + 1), v);
    var q := Adjusted(p, 1);
    var r := Adjusted(q, 2);
    PlacedRuns(m, v, n, lo, hi);
    AdjustedRuns(p, 1, n + 1, lo', hi');
    AdjustedRuns(q, 2, n + 1, lo', hi');
    assert OnTarget(p, n + 1) by { PlacedOnTarget(m, v, n); }
    LowerTurn(p, n + 1, lo', hi');
    MiddleTurn(q, n + 1, lo', hi');
    LastTurn(p, q, r, n + 1, lo', hi');
  }

  lemma LowerTurn(p: Markers, n: nat, lo: real, hi: real)
    requires Running(p, n, lo, hi) && OnTarget(p, n) && p.desired[1] - p.positions[1] as real > -2.0
    ensures var q := Adjusted(p, 1);
            q.desired[1] - q.positions[1] as real > -1.0
  {
    assert Aims(p.desired[3], n, p.increments[3]) && Aims(p.desired[1], n, p.increments[1]);
    NeverBlocked(p, n, lo, hi);
  }

  /** If a neighbour blocks the middle marker it is adjacent, and its own bound holds the
      middle one. */
  lemma MiddleTurn(q: Markers, n: nat, lo: real, hi: real)
    requires Running(q, n, lo, hi) && OnTarget(q, n)
    requires q.desired[3] - q.positions[3] as real < 2.0 && q.desired[1] - q.positions[1] as real > -1.0
    requires -3.0 < q.desired[2] - q.positions[2] as real < 4.0
    ensures var r := Adjusted(q, 2);
            -2.0 < r.desired[2] - r.positions[2] as real < 3.0
  {
    TargetsAscend(q, n, lo, hi);
  }

  lemma TargetsAscend(q: Markers, n: nat, lo: real, hi: real)
    requires Running(q, n, lo, hi) && OnTarget(q, n)
    ensures q.desired[1] < q.desired[2] < q.desired[3]
  {
    assert Aims(q.desired[1], n, q.increments[1]) && Aims(q.desired[2], n, q.increments[2]);
    assert Aims(q.desired[3], n, q.increments[3]);
    AimsApart(q.desired[1], q.desired[2], n, q.increments[1], q.increments[2]);
    AimsApart(q.desired[2], q.desired[3], n, q.increments[2], q.increments[3]);
  }

  lemma AimsApart(lower: real, upper: real, n: nat, small: real, large: real)
    requires Aims(lower, n, small) && Aims(upper, n, large) && n >= 2 && small < large
    ensures lower < upper
  {
    assert (n - 1) as real * (large - small) > 0.0;
  }

  lemma KeepsRunning(m: Markers, v: real, n: nat, lo: real, hi: real)
    requires Running(m, n, lo, hi) && OnTarget(m, n) && Tracks(m)
    ensures var r := Updated(m.(count := m.count + 1), v);
            && Running(r, n + 1, if v < lo then v else lo, if v > hi then v else hi)
            && OnTarget(r, n + 1) && Tracks(r)
  {
    UpdatedRuns(m, v, n, lo, hi);
    UpdatedOnTarget(m, v, n);
    UpdatedTracks(m, v, n, lo, hi);
  }

  /** After the three turns the outer markers are less than a position off again. */
  lemma LastTurn(p: Markers, q: Markers, r: Markers, n: nat, lo: real, hi: real)
    requires Running(p, n, lo, hi) && Running(r, n, lo, hi) && OnTarget(p, n)
    requires r.desired == p.desired && r.increments == p.increments
    requires r.positions[1] == p.positions[1] + Direction(p, 1) && r.positions[3] == p.positions[3]
    requires p.desired[3] - p.positions[3] as real < 2.0 && p.desired[1] - p.positions[1] as real > -2.0
    requires -2.0 < r.desired[2] - r.positions[2] as real < 3.0
    ensures Tracks(Adjusted(r, 3))
  {
    assert p.desired[1] - p.positions[1] as real <= -1.0 ==> Direction(p, 1) == -1 by {
      assert Aims(p.desired[3], n, p.increments[3]) && Aims(p.desired[1], n, p.increments[1]);
      NeverBlocked(p, n, lo, hi);
    }
    assert r.desired[3] - r.positions[3] as real >= 1.0 ==> Direction(r, 3) == 1 by {
      assert Aims(p.desired[3], n, p.increments[3]) && Aims(p.desired[1], n, p.increments[1]);
      NeverBlocked(r, n, lo, hi);
    }
    MovedBack(r);
  }

  lemma MovedBack(r: Markers)
    requires Shaped(r) && Spread(r.positions)
    requires r.desired[3] - r.positions[3] as real < 2.0
    requires r.desired[3] - r.positions[3] as real >= 1.0 ==> Direction(r, 3) == 1
    requires r.desired[1] - r.positions[1] as real > -1.0 && -2.0 < r.desired[2] - r.positions[2] as real < 3.0
    ensures Tracks(Adjusted(r, 3))
  {
  }

  /** While it fills, the estimator just keeps the samples. */
  lemma {:induction false} FillsUp(quantile: real, samples: seq<real>)
    requires 0.0 < quantile < 1.0 && |samples| < 5
    ensures var m := Fed(quantile, samples);
            m.initial == samples && m.count == |samples| && m.quantile == quantile
  {
    if samples != [] {
      var n := |samples| - 1;
      FillsUp(quantile, samples[..n]);
      assert samples == samples[..n] + [samples[n]];
    }
  }

  /** All that is claimed of an estimator that has seen `samples`. */
  ghost predicate Sound(m: Markers, samples: seq<real>) {
    && samples != []
    && Running(m, |samples|, Least(samples), Greatest(samples)) && OnTarget(m, |samples|) && Tracks(m)
  }

  lemma FifthSample(quantile: real, samples: seq<real>)
    requires 0.0 < quantile < 1.0 && |samples| == 5
    ensures Sound(Fed(quantile, samples), samples) && Fed(quantile, samples).quantile == quantile
  {
    FillsUp(quantile, samples[..4]);
    assert samples == samples[..4] + [samples[4]];
    StartsRunning(Fed(quantile, samples[..4]).(count := 5, initial := samples));
  }

  lemma NextSample(m: Markers, samples: seq<real>, v: real)
    requires Sound(m, samples) && Usable(m)
    ensures Sound(Observed(m, v), samples + [v])
  {
    assert Observed(m, v) == Updated(m.(count := m.count + 1), v) by { OnceFilled(m, v); }
    SoundUpdated(m, samples, v);
  }

  lemma OnceFilled(m: Markers, v: real)
    requires Usable(m) && |m.initial| == 5
    ensures Observed(m, v) == Updated(m.(count := m.count + 1), v)
  {
  }

  lemma SoundUpdated(m: Markers, samples: seq<real>, v: real)
    requires Sound(m, samples)
    ensures Sound(Updated(m.(count := m.count + 1), v), samples + [v])
  {
    var more := samples + [v];
    ExtremesMore(samples, v);
    UpdatedRunsTo(m, v, |samples|, Least(samples), Greatest(samples), |more|, Least(more), Greatest(more));
  }

  lemma UpdatedRunsTo(m: Markers, v: real, n: nat, lo: real, hi: real, n': nat, lo': real, hi': real)
    requires Running(m, n, lo, hi) && OnTarget(m, n) && Tracks(m)
    requires n' == n + 1 && lo' == (if v < lo then v else lo) && hi' == (if v > hi then v else hi)
    ensures var r := Updated(m.(count := m.count + 1), v);
            Running(r, n', lo', hi') && OnTarget(r, n') && Tracks(r)
  {
    KeepsRunning(m, v, n, lo, hi);
  }

  lemma QuantileStays(m: Markers, v: real)
    requires Usable(m)
    ensures Observed(m, v).quantile == m.quantile
  {
  }

  lemma ExtremesMore(samples: seq<real>, v: real)
    requires samples != []
    ensures Least(samples + [v]) == if v < Least(samples) then v else Least(samples)
    ensures Greatest(samples + [v]) == if v > Greatest(samples) then v else Greatest(samples)
  {
    assert (samples + [v])[..|samples|] == samples;
  }

  lemma FedOne(quantile: real, samples: seq<real>, v: real)
    requires 0.0 < quantile < 1.0
    ensures Fed(quantile, samples + [v]) == Observed(Fed(quantile, samples), v)
  {
    var more := samples + [v];
    assert more != [] && more[..|more| - 1] == samples && more[|more| - 1] == v;
  }

  lemma FedLast(quantile: real, samples: seq<real>)
    requires 0.0 < quantile < 1.0 && samples != []
    ensures var n := |samples| - 1;
            && samples == samples[..n] + [samples[n]]
            && Fed(quantile, samples) == Observed(Fed(quantile, samples[..n]), samples[n])
  {
    var n := |samples| - 1;
    FedOne(quantile, samples[..n], samples[n]);
    assert samples == samples[..n] + [samples[n]];
  }

  /** The P-squared invariants, for every stream of five or more samples: positions rise
      strictly from 1 to the number of samples, heights rise from the true minimum to the
      true maximum, desired positions are exact, and the outer markers stay on track. */
  lemma {:induction false} RunsOnEveryStream(quantile: real, samples: seq<real>)
    requires 0.0 < quantile < 1.0 && |samples| >= 5
    ensures Sound(Fed(quantile, samples), samples) && Fed(quantile, samples).quantile == quantile
  {
    var n := |samples| - 1;
    if n == 4 {
      FifthSample(quantile, samples);
    } else {
      RunsOnEveryStream(quantile, samples[..n]);
      NextSample(Fed(quantile, samples[..n]), samples[..n], samples[n]);
      QuantileStays(Fed(quantile, samples[..n]), samples[n]);
      FedLast(quantile, samples);
    }
  }

  /** The estimate is the height of a marker whose target is the quantile's share of the
      stream, and whose position is never three away from it. */
  lemma EstimateTracksQuantile(quantile: real, samples: seq<real>)
    requires 0.0 < quantile < 1.0 && |samples| >= 5
    ensures EstimatesAt(Fed(quantile, samples), 1.0 + (|samples| - 1) as real * quantile)
  {
    RunsOnEveryStream(quantile, samples);
    SoundEstimates(Fed(quantile, samples), samples, quantile, 1.0 + (|samples| - 1) as real * quantile);
  }

  /** The value is the height of a marker that stands less than three positions from there. */
  ghost predicate EstimatesAt(m: Markers, target: real) {
    && Usable(m) && |m.heights| == |m.positions|
    && exists i :: && 0 <= i < |m.heights| && Value(m) == Some(m.heights[i])
                   && -2.0 < target - m.positions[i] as real < 3.0
  }

  lemma SoundEstimates(m: Markers, samples: seq<real>, quantile: real, target: real)
    requires Sound(m, samples) && Usable(m) && m.quantile == quantile
    requires target == 1.0 + (|samples| - 1) as real * quantile
    ensures EstimatesAt(m, target)
  {
    assert Aims(m.desired[2], |samples|, m.increments[2]);
    assert Value(m) == Some(m.heights[2]);
  }

  /** The estimate always lies between the least and the greatest sample. */
  lemma EstimateInRange(quantile: real, samples: seq<real>)
    requires 0.0 < quantile < 1.0 && samples != []
    ensures var v := Value(Fed(quantile, samples));
            v.Some? && Least(samples) <= v.value <= Greatest(samples)
  {
    if |samples| < 5 {
      EarlyEstimate(quantile, samples);
    } else {
      RunsOnEveryStream(quantile, samples);
    }
  }

  // ---------------------------------------------------------------- what one update does

  /** A marker: where it stands among the samples, and the value it stands for. */
  datatype Point = Point(at: int, height: real)

  function PointAt(m: Markers, i: nat): Point
    requires Shaped(m) && i < 5
  {
    Point(m.positions[i], m.heights[i])
  }

  /** Marker `i` once the sample is counted: the extremes stretch to it, and the markers it
      falls below move on. */
  function Passed(m: Markers, v: real, i: nat): Point
    requires Shaped(m) && i < 5
  {
    var p := PointAt(m, i);
    var below := i == 4 || (i > 0 && v <= p.height && v < m.heights[4]);
    var stretches := (i == 0 && v < p.height) || (i == 4 && v > p.height);
    Point(if below then p.at + 1 else p.at, if stretches then v else p.height)
  }

  /** The polynomial a + b * x + c * x * x. */
  datatype Parabola = Parabola(a: real, b: real, c: real)

  predicate Through(f: Parabola, p: Point) {
    p.height == Quadratic(f.a, f.b, f.c, p.at as real)
  }

  predicate InLine(p: Point, q: Point, r: Point) {
    (r.height - p.height) * (q.at - p.at) as real == (q.height - p.height) * (r.at - p.at) as real
  }

  /** The new height is that of the parabola through the three markers if it lies strictly
      between the neighbours, else that of the line to the neighbour it moves towards. */
  ghost predicate Interpolates(f: Parabola, left: Point, mid: Point, right: Point, next: Point) {
    && Through(f, left) && Through(f, mid) && Through(f, right)
    && var h := Quadratic(f.a, f.b, f.c, next.at as real);
       if left.height < h < right.height then next.height == h
       else InLine(mid, if next.at > mid.at then right else left, next)
  }

  /** What becomes of an inner marker: it moves by one towards its target exactly when it is a
      whole position off and the neighbour on that side is not adjacent. */
  ghost predicate Follows(left: Point, mid: Point, right: Point, target: real, next: Point) {
    if target >= mid.at as real + 1.0 && right.at > mid.at + 1 then
      next.at == mid.at + 1 && exists f :: Interpolates(f, left, mid, right, next)
    else if target <= mid.at as real - 1.0 && left.at < mid.at - 1 then
      next.at == mid.at - 1 && exists f :: Interpolates(f, left, mid, right, next)
    else next == mid
  }

  /** The targets after `n` samples: the quantile's share of the way from the first sample to
      the last, half of that, and half of the rest. */
  function TargetOf(quantile: real, n: nat, i: nat): real
    requires 1 <= i <= 3
  {
    1.0 + (n - 1) as real * (if i == 1 then quantile / 2.0 else if i == 2 then quantile else (1.0 + quantile) / 2.0)
  }

  /** The `n`-th sample takes the markers of `m` to those of `r`. Each inner marker follows its
      target between its left neighbour as that now stands and its right one as the sample
      left it. */
  ghost predicate UpdatesTo(m: Markers, v: real, n: nat, quantile: real, r: Markers) {
    && Shaped(m) && Shaped(r)
    && PointAt(r, 0) == Passed(m, v, 0) && PointAt(r, 4) == Passed(m, v, 4)
    && forall i | 1 <= i <= 3 ::
         Follows(PointAt(r, i - 1), Passed(m, v, i), Passed(m, v, i + 1), TargetOf(quantile, n, i), PointAt(r, i))
  }

  /** Every observation of a running estimator, on every stream. */
  lemma EveryUpdate(quantile: real, samples: seq<real>, v: real)
    requires 0.0 < quantile < 1.0 && |samples| >= 5
    ensures UpdatesTo(Fed(quantile, samples), v, |samples| + 1, quantile, Fed(quantile, samples + [v]))
  {
    var m, n := Fed(quantile, samples), |samples|;
    RunsOnEveryStream(quantile, samples);
    FedOne(quantile, samples, v);
    SoundFollows(m, samples, v);
  }

  /** After five samples the markers are those samples, in order, at the first five positions. */
  lemma StartsAtSamples(quantile: real, samples: seq<real>)
    requires 0.0 < quantile < 1.0 && |samples| == 5
    ensures var m := Fed(quantile, samples);
            && multiset(m.heights) == multiset(samples) && Ascending(m.heights)
            && m.positions == [1, 2, 3, 4, 5]
  {
    FillsUp(quantile, samples[..4]);
    assert samples == samples[..4] + [samples[4]];
    var m := Fed(quantile, samples[..4]).(count := 5, initial := samples);
    StartsRunning(m);
    assert Fed(quantile, samples) == Initialized(m);
  }

  lemma SoundFollows(m: Markers, samples: seq<real>, v: real)
    requires Sound(m, samples) && Usable(m)
    ensures UpdatesTo(m, v, |samples| + 1, m.quantile, Observed(m, v))
  {
    assert Observed(m, v) == Updated(m.(count := m.count + 1), v) by { OnceFilled(m, v); }
    SoundUpdateFollows(m, samples, v);
  }

  lemma SoundUpdateFollows(m: Markers, samples: seq<real>, v: real)
    requires Sound(m, samples)
    ensures UpdatesTo(m, v, |samples| + 1, m.quantile, Updated(m.(count := m.count + 1), v))
  {
    UpdateFollows(m, v, |samples|, Least(samples), Greatest(samples));
  }

  lemma UpdateFollows(m: Markers, v: real, n: nat, lo: real, hi: real)
    requires Running(m, n, lo, hi) && OnTarget(m, n) && Tracks(m)
    ensures UpdatesTo(m, v, n + 1, m.quantile, Updated(m.(count := m.count + 1), v))
  {
    var p := Placed(m.(count := m.count + 1), v);
    AllPassed(m, v, n, lo, hi);
    PlacedTurns(m, v, n, lo, hi);
    var q := Adjusted(p, 1);
    Composed(m, v, n + 1, p, q, Adjusted(q, 2), Updated(m.(count := m.count + 1), v));
  }

  lemma PlacedTurns(m: Markers, v: real, n: nat, lo: real, hi: real)
    requires Running(m, n, lo, hi) && OnTarget(m, n) && Tracks(m)
    ensures var p := Placed(m.(count := m.count + 1), v);
            var q := Adjusted(p, 1);
            var r := Adjusted(q, 2);
            OneTurn(p, 1, n + 1, q) && OneTurn(q, 2, n + 1, r) && OneTurn(r, 3, n + 1, Adjusted(r, 3))
  {
    PlacedRuns(m, v, n, lo, hi);
    PlacedOnTarget(m, v, n);
    ThreeTurns(Placed(m.(count := m.count + 1), v), n + 1, if v < lo then v else lo, if v > hi then v else hi);
  }

  lemma ThreeTurns(p: Markers, n: nat, lo: real, hi: real)
    requires Running(p, n, lo, hi) && OnTarget(p, n)
    ensures var q := Adjusted(p, 1);
            var r := Adjusted(q, 2);
            OneTurn(p, 1, n, q) && OneTurn(q, 2, n, r) && OneTurn(r, 3, n, Adjusted(r, 3))
  {
    var q := Adjusted(p, 1);
    var r := Adjusted(q, 2);
    AdjustedRuns(p, 1, n, lo, hi);
    AdjustedRuns(q, 2, n, lo, hi);
    SameTarget(p, q, n);
    SameTarget(q, r, n);
    Turned(p, 1, n, lo, hi);
    Turned(q, 2, n, lo, hi);
    Turned(r, 3, n, lo, hi);
  }

  /** Each turn leaves the other markers where they are. */
  ghost predicate OneTurn(p: Markers, i: nat, n: nat, q: Markers) {
    && Shaped(p) && Shaped(q) && 1 <= i <= 3 && p.quantile == q.quantile
    && Follows(PointAt(p, i - 1), PointAt(p, i), PointAt(p, i + 1), TargetOf(p.quantile, n, i), PointAt(q, i))
    && forall j | 0 <= j < 5 && j != i :: PointAt(q, j) == PointAt(p, j)
  }

  lemma Composed(m: Markers, v: real, n: nat, p: Markers, q: Markers, r: Markers, t: Markers)
    requires Shaped(m) && Shaped(p) && m.quantile == p.quantile
    requires forall i | 0 <= i < 5 :: PointAt(p, i) == Passed(m, v, i)
    requires OneTurn(p, 1, n, q) && OneTurn(q, 2, n, r) && OneTurn(r, 3, n, t)
    ensures UpdatesTo(m, v, n, m.quantile, t)
  {
  }

  lemma TargetsAre(p: Markers, n: nat, lo: real, hi: real)
    requires Running(p, n, lo, hi) && OnTarget(p, n)
    ensures forall i | 1 <= i <= 3 :: p.desired[i] == TargetOf(p.quantile, n, i)
  {
    assert Aims(p.desired[1], n, p.increments[1]) && Aims(p.desired[2], n, p.increments[2]);
    assert Aims(p.desired[3], n, p.increments[3]);
  }

  lemma AllPassed(m: Markers, v: real, n: nat, lo: real, hi: real)
    requires Running(m, n, lo, hi)
    ensures var p := Placed(m.(count := m.count + 1), v);
            forall i | 0 <= i < 5 :: PointAt(p, i) == Passed(m, v, i)
  {
    CellBrackets(m.heights, v);
  }

  /** One turn of the adjustment loop. */
  lemma Turned(p: Markers, i: nat, n: nat, lo: real, hi: real)
    requires Running(p, n, lo, hi) && OnTarget(p, n) && 1 <= i <= 3
    ensures OneTurn(p, i, n, Adjusted(p, i))
  {
    TargetsAre(p, n, lo, hi);
    var d := Direction(p, i);
    if d != 0 {
      var left, mid, right := PointAt(p, i - 1), PointAt(p, i), PointAt(p, i + 1);
      var f := ParabolaThrough(left, mid, right);
      ParabolicExact(p.heights, p.positions, i, d, f.a, f.b, f.c);
      LinearInLine(p.heights, p.positions, i, d);
      assert Interpolates(f, left, mid, right, PointAt(Adjusted(p, i), i));
    }
  }

  lemma LinearInLine(h: seq<real>, n: seq<int>, i: nat, d: int)
    requires |h| == 5 && Spread(n) && 1 <= i <= 3 && (d == 1 || d == -1)
    ensures InLine(Point(n[i], h[i]), Point(n[i + d], h[i + d]), Point(n[i] + d, Linear(h, n, i, d)))
  {
    var rise, run := h[i + d] - h[i], (n[i + d] - n[i]) as real;
    assert d as real * rise / run * run == rise * d as real;
  }

  /** Three markers at different positions lie on one parabola. */
  lemma ParabolaThrough(p: Point, q: Point, r: Point) returns (f: Parabola)
    requires p.at < q.at < r.at
    ensures Through(f, p) && Through(f, q) && Through(f, r)
  {
    var x, y, z := p.at as real, q.at as real, r.at as real;
    var s, t := (q.height - p.height) / (y - x), (r.height - q.height) / (z - y);
    var k := (t - s) / (z - x);
    f := Parabola(p.height - s * x + k * x * y, s - k * (x + y), k);
    Newton(p.height, s, k, x, y, x);
    Newton(p.height, s, k, x, y, y);
    Newton(p.height, s, k, x, y, z);
    assert s * (y - x) == q.height - p.height && t * (z - y) == r.height - q.height;
    assert k * (z - x) * (z - y) == (t - s) * (z - y);
    assert s * (z - x) == s * (y - x) + s * (z - y);
  }

  /** Newton's form of a parabola. */
  lemma Newton(h: real, s: real, k: real, x: real, y: real, at: real)
    ensures Quadratic(h - s * x + k * x * y, s - k * (x + y), k, at) == h + s * (at - x) + k * (at - x) * (at - y)
  {
    assert k * (x + y) * at == k * x * at + k * y * at;
    assert k * (at - x) * (at - y) == k * at * at - k * x * at - k * y * at + k * x * y;
  }

  /** While filling, the estimate is the sample of rank floor(q * (n - 1)) + 1. */
  lemma EarlyEstimate(quantile: real, samples: seq<real>)
    requires 0.0 < quantile < 1.0 && 0 < |samples| < 5
    ensures var v := Value(Fed(quantile, samples));
            v.Some? && IsRanked(samples, EarlyIndex(quantile, |samples| - 1) + 1, v.value)
  {
    var m := Fed(quantile, samples);
    assert m.initial == samples && m.quantile == quantile by { FillsUp(quantile, samples); }
    EarlyValue(m);
    SortRanks(samples, EarlyIndex(quantile, |samples| - 1) + 1);
  }

  lemma EarlyValue(m: Markers)
    requires Usable(m) && 0 < |m.initial| < 5
    ensures Value(m) == Some(SortReals(m.initial)[EarlyIndex(m.quantile, |m.initial| - 1)])
  {
  }

  /** No samples, no estimate. */
  lemma NoEstimateBeforeSamples(quantile: real, samples: seq<real>)
    requires 0.0 < quantile < 1.0
    ensures Value(Fed(quantile, samples)).None? <==> samples == []
  {
  }

  // ---------------------------------------------------------------- the object

  class StreamingPercentileEstimator {
    const quantile: real
    var heights: seq<real>
    var positions: seq<int>
    var desiredPositions: seq<real>
    var increments: seq<real>
    var initialSamples: seq<real>
    var observationCount: nat

    function Model(): Markers
      reads this
    {
      Markers(quantile, heights, positions, desiredPositions, increments, initialSamples, observationCount)
    }

    constructor (quantile: real)
      requires 0.0 < quantile < 1.0
      ensures Model() == Fed(quantile, [])
    {
      this.quantile := quantile;
      heights, positions, desiredPositions, increments, initialSamples := [], [], [], [], [];
      observationCount := 0;
    }

    method Observe(value: real)
      requires Usable(Model())
      modifies this
      ensures Model() == Observed(old(Model()), value)
    {
      CountOne();
      if |initialSamples| < MARKER_COUNT {
        Collect(value);
      } else {
        UpdateMarkers(value);
      }
    }

    method CountOne()
      modifies `observationCount
      ensures Model() == old(Model()).(count := old(observationCount) + 1)
    {
      observationCount := observationCount + 1;
    }

    method Collect(value: real)
      requires |initialSamples| < 5
      modifies this
      ensures Model() == Collected(old(Model()), value)
    {
      initialSamples := initialSamples + [value];
      if |initialSamples| == MARKER_COUNT {
        InitializeMarkers();
      }
    }

    method InitializeMarkers()
      requires |initialSamples| == 5
      modifies this
      ensures Model() == Initialized(old(Model()))
    {
      initialSamples := SortReals(initialSamples);
      heights := initialSamples;
      positions := [1, 2, 3, 4, 5];
      var p := quantile;
      desiredPositions := [1.0, 1.0 + 2.0 * p, 1.0 + 4.0 * p, 3.0 + 2.0 * p, 5.0];
      increments := [0.0, p / 2.0, p, (1.0 + p) / 2.0, 1.0];
    }

    method UpdateMarkers(value: real)
      requires Shaped(Model()) && Spread(positions)
      modifies `heights, `positions, `desiredPositions
      ensures Model() == Updated(old(Model()), value)
    {
      PlaceSample(value);
      Turns(Model());
      AdjustInner();
    }

    /** The extremes stretch, the markers above the sample and all the targets move on. */
    method PlaceSample(value: real)
      requires Shaped(Model()) && Spread(positions)
      modifies `heights, `positions, `desiredPositions
      ensures Model() == Placed(old(Model()), value)
    {
      ghost var before := Model();
      var cell := Cell(heights, value);
      if value < heights[0] {
        heights := heights[0 := value];
      } else if value >= heights[4] {
        heights := heights[4 := value];
      }
      for i := cell + 1 to MARKER_COUNT
        modifies `positions
        invariant |positions| == 5
        invariant forall j | 0 <= j < 5 ::
          positions[j] == before.positions[j] + if cell < j < i then 1 else 0
      {
        positions := positions[i := positions[i] + 1];
      }
      for i := 0 to MARKER_COUNT
        modifies `desiredPositions
        invariant |desiredPositions| == 5
        invariant forall j | 0 <= j < 5 ::
          desiredPositions[j] == before.desired[j] + if j < i then before.increments[j] else 0.0
      {
        desiredPositions := desiredPositions[i := desiredPositions[i] + increments[i]];
      }
      assert positions == Placed(before, value).positions;
      assert desiredPositions == Placed(before, value).desired;
    }

    /** Each inner marker that is a whole position off moves by one, if it has room. */
    method AdjustInner()
      requires Shaped(Model()) && Spread(positions)
      modifies `heights, `positions
      ensures Model() == AdjustedUpTo(old(Model()), 4)
    {
      ghost var before := Model();
      for i := 1 to MARKER_COUNT - 1
        invariant Shaped(Model()) && Spread(positions)
        invariant Model() == AdjustedUpTo(before, i)
      {
        AdjustOne(i);
      }
    }

    /** One turn: the parabola if it keeps the heights in order, else the line. */
    method AdjustOne(i: nat)
      requires Shaped(Model()) && Spread(positions) && 1 <= i <= 3
      modifies `heights, `positions
      ensures Model() == Adjusted(old(Model()), i)
    {
      var diff := desiredPositions[i] - positions[i] as real;
      var rightGap := positions[i + 1] - positions[i];
      var leftGap := positions[i] - positions[i - 1];
      if (diff >= 1.0 && rightGap > 1) || (diff <= -1.0 && leftGap > 1) {
        var direction := if diff >= 1.0 then 1 else -1;
        var adjusted := Parabolic(heights, positions, i, direction);
        if !(heights[i - 1] < adjusted < heights[i + 1]) {
          adjusted := Linear(heights, positions, i, direction);
        }
        heights := heights[i := adjusted];
        positions := positions[i := positions[i] + direction];
      }
    }
  }

  /** The markers after the turns of the adjustment loop below `i`. */
  function AdjustedUpTo(m: Markers, i: nat): (r: Markers)
    requires Shaped(m) && Spread(m.positions) && 1 <= i <= 4
    ensures Shaped(r) && Spread(r.positions)
  {
    if i == 1 then m else Adjusted(AdjustedUpTo(m, i - 1), i - 1)
  }

  lemma Turns(m: Markers)
    requires Shaped(m) && Spread(m.positions)
    ensures AdjustedUpTo(m, 4) == Adjusted(Adjusted(Adjusted(m, 1), 2), 3)
  {
    assert AdjustedUpTo(m, 2) == Adjusted(AdjustedUpTo(m, 1), 1) == Adjusted(m, 1);
    assert AdjustedUpTo(m, 3) == Adjusted(AdjustedUpTo(m, 2), 2);
  }
}
