/**
 * How the raw per-segment token estimates of one model request are rescaled to
 * the token count the provider reported (`scale_segments`).
 *
 * The source rounds a floating-point quotient; here the quotient is exact and
 * `round` is round-half-to-even, as Python's `round` is.
 */
module ContextUsage {
  datatype Segment =
    | SystemPrompt | ToolDefinitions | Rules | Skills | Mcp | SubagentDefinitions | Conversation

  const SEGMENT_KEYS: seq<Segment> :=
    [SystemPrompt, ToolDefinitions, Rules, Skills, Mcp, SubagentDefinitions, Conversation]

  function Sum(s: seq<int>): int {
    if s == [] then 0 else s[0] + Sum(s[1..])
  }

  /** The estimate of each segment, in the order of the keys; a missing or negative one counts as 0. */
  function Weights(raw: map<Segment, int>): seq<nat> {
    seq(|SEGMENT_KEYS|, i requires 0 <= i < |SEGMENT_KEYS| =>
      if SEGMENT_KEYS[i] in raw && raw[SEGMENT_KEYS[i]] > 0 then raw[SEGMENT_KEYS[i]] else 0)
  }

  function Total(raw: map<Segment, int>): int {
    Sum(Weights(raw))
  }

  /** The integer nearest to n / d, the even one when two are equally near. */
  function RoundHalfEven(n: nat, d: int): nat
    requires d > 0
  {
    var q, r := n / d, n % d;
    if 2 * r < d then q else if 2 * r > d then q + 1 else q + q % 2
  }

  function Rounded(w: seq<nat>, target: nat, total: int): seq<nat>
    requires total > 0
  {
    seq(|w|, i requires 0 <= i < |w| => RoundHalfEven(w[i] * target, total))
  }

  /** The first index holding the largest value. */
  function Largest(s: seq<int>): (at: nat)
    requires s != []
    ensures at < |s|
    ensures forall i :: 0 <= i < |s| ==> s[i] <= s[at] && (i < at ==> s[i] < s[at])
  {
    if |s| == 1 then 0
    else
      var rest := Largest(s[1..]);
      assert forall i :: 1 <= i < |s| ==> s[i] == s[1..][i - 1];
      if s[1..][rest] > s[0] then rest + 1 else 0
  }

  /** The largest segment takes the drift, but does not go below 0. */
  function Absorb(scaled: seq<int>, drift: int): seq<int>
    requires scaled != []
  {
    var largest := Largest(scaled);
    if drift == 0 then scaled
    else scaled[largest := if scaled[largest] + drift > 0 then scaled[largest] + drift else 0]
  }

  function ScaleSegments(raw: map<Segment, int>, target: int): seq<int> {
    if target <= 0 || Total(raw) <= 0 then [0, 0, 0, 0, 0, 0, 0]
    else
      var scaled := Rounded(Weights(raw), target, Total(raw));
      Absorb(scaled, target - Sum(scaled))
  }

  // ---------------------------------------------------------------- rounding

  /** Rounding moves a quotient by at most one half, and stays under twice the quotient. */
  lemma RoundingError(n: nat, d: int)
    requires d > 0
    ensures -d <= 2 * (RoundHalfEven(n, d) * d - n) <= d
    ensures RoundHalfEven(n, d) > 0 ==> RoundHalfEven(n, d) * d < 2 * n
  {
    var q, r := n / d, n % d;
    assert n == q * d + r;
    assert (q + 1) * d == q * d + d;
    if q > 0 {
      MulGrows(q, d);
    }
  }

  /** q is a nearest integer to n / d, and the even one of two equally near. */
  predicate Nearest(n: nat, d: int, q: nat) {
    d * (2 * q - 1) <= 2 * n <= d * (2 * q + 1) &&
    (d * (2 * q - 1) == 2 * n || 2 * n == d * (2 * q + 1) ==> q % 2 == 0)
  }

  /** Rounding is characterised by nearness: no other integer qualifies. */
  lemma RoundHalfEvenIsNearest(n: nat, d: int, q: nat)
    requires d > 0
    ensures RoundHalfEven(n, d) == q <==> Nearest(n, d, q)
  {
    var p, r := n / d, n % d;
    assert n == p * d + r;
    var e := q - p;
    assert d * (2 * q - 1) == 2 * (p * d) + 2 * (e * d) - d;
    assert d * (2 * q + 1) == 2 * (p * d) + 2 * (e * d) + d;
    if e > 1 {
      MulGrows(e - 1, d);
      assert (e - 1) * d == e * d - d;
    } else if e < 0 {
      MulGrows(-e, d);
      assert (-e) * d == -(e * d);
    }
  }

  lemma MulGrows(q: int, d: int)
    requires q > 0 && d > 0
    ensures q * d >= d
  {
  }

  lemma {:induction false} SumWithin(p: seq<int>, q: seq<int>, d: int)
    requires |p| == |q|
    requires forall i :: 0 <= i < |p| ==> -d <= 2 * (p[i] - q[i]) <= d
    ensures -(|p| * d) <= 2 * (Sum(p) - Sum(q)) <= |p| * d
  {
    if p == [] {
    } else {
      SumWithin(p[1..], q[1..], d);
      assert |p| * d == |p[1..]| * d + d;
    }
  }

  lemma {:induction false} SumUnderDouble(p: seq<int>, q: seq<int>)
    requires |p| == |q|
    requires forall i :: 0 <= i < |p| ==> 0 <= p[i] && 0 <= q[i] && (p[i] > 0 ==> p[i] < 2 * q[i])
    ensures 0 <= Sum(p) && 0 <= Sum(q) && (Sum(p) > 0 ==> Sum(p) < 2 * Sum(q))
  {
    if p == [] {
    } else {
      SumUnderDouble(p[1..], q[1..]);
    }
  }

  lemma {:induction false} SumScaled(s: seq<int>, t: seq<int>, c: int)
    requires |s| == |t| && forall i :: 0 <= i < |s| ==> t[i] == s[i] * c
    ensures Sum(t) == Sum(s) * c
  {
    if s == [] {
    } else {
      SumScaled(s[1..], t[1..], c);
      assert Sum(s) * c == s[0] * c + Sum(s[1..]) * c;
    }
  }

  lemma {:induction false} SumAtMost(s: seq<int>, bound: int)
    requires forall i :: 0 <= i < |s| ==> s[i] <= bound
    ensures Sum(s) <= |s| * bound
  {
    if s == [] {
    } else {
      SumAtMost(s[1..], bound);
      assert |s| * bound == |s[1..]| * bound + bound;
    }
  }

  lemma {:induction false} SumUpdate(s: seq<int>, i: nat, v: int)
    requires i < |s|
    ensures Sum(s[i := v]) == Sum(s) - s[i] + v
  {
    if i > 0 {
      assert s[i := v][1..] == s[1..][i - 1 := v];
      SumUpdate(s[1..], i - 1, v);
    } else {
      assert s[i := v][1..] == s[1..];
    }
  }

  /** The drift is less than half a token per segment, so at most three tokens. */
  lemma DriftBound(w: seq<nat>, target: nat)
    requires |w| == 7 && Sum(w) > 0
    ensures -3 <= target - Sum(Rounded(w, target, Sum(w))) <= 3
    ensures Sum(Rounded(w, target, Sum(w))) > 0 ==> Sum(Rounded(w, target, Sum(w))) < 2 * target
  {
    var total, r := Sum(w), Rounded(w, target, Sum(w));
    var p := seq(7, i requires 0 <= i < 7 => r[i] * total);
    var q := seq(7, i requires 0 <= i < 7 => w[i] * target);
    forall i | 0 <= i < 7
      ensures -total <= 2 * (p[i] - q[i]) <= total && 0 <= p[i] && 0 <= q[i] && (p[i] > 0 ==> p[i] < 2 * q[i])
    {
      RoundingError(w[i] * target, total);
      Product(r[i], w[i], target, total);
    }
    SumWithin(p, q, total);
    SumUnderDouble(p, q);
    SumScaled(r, p, total);
    SumScaled(w, q, target);
    Cancel(Sum(r), target, total);
  }

  lemma Product(r: nat, w: nat, target: nat, total: int)
    requires total > 0
    ensures 0 <= w * target && 0 <= r * total && (r * total > 0 ==> r > 0)
  {
  }

  lemma Cancel(s: int, target: int, total: int)
    requires total > 0
    requires -(7 * total) <= 2 * (s * total - total * target) <= 7 * total
    requires s * total > 0 ==> s * total < 2 * (total * target)
    ensures -3 <= target - s <= 3
    ensures s > 0 ==> s < 2 * target
  {
    assert (target - s) * total == total * target - s * total;
    Band(target - s, total);
    if s > 0 {
      MulGrows(s, total);
      assert (2 * target) * total == 2 * (total * target);
      StrictlyBelow(s, 2 * target, total);
    }
  }

  lemma Band(e: int, total: int)
    requires total > 0 && -(7 * total) <= 2 * (e * total) <= 7 * total
    ensures -3 <= e <= 3
  {
    assert (2 * e) * total == 2 * (e * total);
    CancelFactor(2 * e, 7, total);
    CancelFactor(-7, 2 * e, total);
  }

  lemma StrictlyBelow(a: int, b: int, c: int)
    requires c > 0 && a * c < b * c
    ensures a < b
  {
    assert (a - b) * c == a * c - b * c;
    if a > b {
      MulGrows(a - b, c);
    }
  }

  lemma CancelFactor(a: int, b: int, c: int)
    requires c > 0 && a * c <= b * c
    ensures a <= b
  {
    assert (a - b) * c == a * c - b * c;
    if a > b {
      MulGrows(a - b, c);
    }
  }

  // ---------------------------------------------------------------- results

  lemma {:induction false} SumOfNats(s: seq<nat>)
    ensures Sum(s) >= 0 && forall i :: 0 <= i < |s| ==> s[i] <= Sum(s)
  {
    if s == [] {
    } else {
      SumOfNats(s[1..]);
      forall i | 0 <= i < |s|
        ensures s[i] <= Sum(s)
      {
        if i > 0 {
          assert s[i] == s[1..][i - 1];
        }
      }
    }
  }

  /** Seven segments come out, none of them negative, whatever the estimates and the target are. */
  lemma SegmentsNeverNegative(raw: map<Segment, int>, target: int)
    ensures |ScaleSegments(raw, target)| == |SEGMENT_KEYS| == 7
    ensures forall i :: 0 <= i < 7 ==> ScaleSegments(raw, target)[i] >= 0
  {
  }

  /** Enough tokens for the largest segment to give up the whole drift, unless it overshoots by two or more. */
  lemma AbsorbsDrift(scaled: seq<nat>, target: nat)
    requires |scaled| == 7
    requires -3 <= target - Sum(scaled) <= 3
    requires target >= 12 || target >= Sum(scaled) - 1
    ensures Sum(Absorb(scaled, target - Sum(scaled))) == target
  {
    var at := Largest(scaled);
    var drift := target - Sum(scaled);
    SumAtMost(scaled, scaled[at]);
    SumOfNats(scaled);
    SumUpdate(scaled, at, scaled[at] + drift);
  }

  /** The segments add up to the reported count for targets of 1, 2 and of 12 or more. */
  lemma SegmentsSumToTarget(raw: map<Segment, int>, target: nat)
    requires Total(raw) > 0
    requires target <= 2 || target >= 12
    ensures Sum(ScaleSegments(raw, target)) == target
  {
    SumOfSeven(ScaleSegments(raw, target));
    if target > 0 {
      DriftBound(Weights(raw), target);
      SumOfNats(Rounded(Weights(raw), target, Total(raw)));
      AbsorbsDrift(Rounded(Weights(raw), target, Total(raw)), target);
    }
  }

  /** Every segment but the one that absorbs the drift is the integer nearest to its share of the target. */
  lemma SegmentsKeepProportions(raw: map<Segment, int>, target: nat, i: nat)
    requires Total(raw) > 0 && target > 0 && i < 7
    requires i != Largest(Rounded(Weights(raw), target, Total(raw)))
    ensures -Total(raw) <= 2 * (ScaleSegments(raw, target)[i] * Total(raw) - Weights(raw)[i] * target) <= Total(raw)
  {
    RoundingError(Weights(raw)[i] * target, Total(raw));
  }

  /** The first k segments weigh x, the others y. */
  function TwoWeights(k: nat, x: nat, y: nat): seq<nat> {
    seq(7, i requires 0 <= i < 7 => if i < k then x else y)
  }

  function FromWeights(w: seq<nat>): map<Segment, int>
    requires |w| == 7
  {
    map[SystemPrompt := w[0], ToolDefinitions := w[1], Rules := w[2], Skills := w[3], Mcp := w[4],
        SubagentDefinitions := w[5], Conversation := w[6]]
  }

  lemma WeightsOf(w: seq<nat>)
    requires |w| == 7
    ensures Weights(FromWeights(w)) == w
  {
  }

  lemma SumOfSeven(s: seq<int>)
    requires |s| == 7
    ensures Sum(s) == s[0] + s[1] + s[2] + s[3] + s[4] + s[5] + s[6]
  {
    var t := s[1..];
    var u := t[1..];
    var v := u[1..];
    var w := v[1..];
    var x := w[1..];
    assert Sum(x) == x[0] + Sum(x[1..]) && Sum(x[1..]) == x[1] + Sum(x[1..][1..]);
  }

  lemma SumOfTwoWeights(k: nat, x: nat, y: nat)
    requires k <= 7
    ensures Sum(TwoWeights(k, x, y)) == k * x + (7 - k) * y
  {
    SumOfSeven(TwoWeights(k, x, y));
  }

  predicate Overshoots(raw: map<Segment, int>, target: int) {
    Total(raw) > 0 && Sum(ScaleSegments(raw, target)) > target
  }

  /** When the rounded segments overshoot by more than their largest, the excess cannot be absorbed. */
  lemma MissedBy(k: nat, x: nat, y: nat, rx: nat, ry: nat, target: nat) returns (raw: map<Segment, int>)
    requires k <= 7 && target > 0 && k * x + (7 - k) * y > 0
    requires Nearest(x * target, k * x + (7 - k) * y, rx)
    requires Nearest(y * target, k * x + (7 - k) * y, ry)
    requires k * rx + (7 - k) * ry - rx > target && k * rx + (7 - k) * ry - ry > target
    ensures Overshoots(raw, target)
  {
    raw := FromWeights(TwoWeights(k, x, y));
    var w, r := TwoWeights(k, x, y), TwoWeights(k, rx, ry);
    WeightsOf(w);
    SumOfTwoWeights(k, x, y);
    SumOfTwoWeights(k, rx, ry);
    RoundHalfEvenIsNearest(x * target, Sum(w), rx);
    RoundHalfEvenIsNearest(y * target, Sum(w), ry);
    assert r == Rounded(w, target, Sum(w));
    SumUpdate(r, Largest(r), 0);
  }

  lemma MissedNegative(target: int) returns (raw: map<Segment, int>)
    requires target < 0
    ensures Total(raw) > 0 && Sum(ScaleSegments(raw, target)) != target
  {
    raw := FromWeights(TwoWeights(7, 1, 0));
    WeightsOf(TwoWeights(7, 1, 0));
    SumOfTwoWeights(7, 1, 0);
    SumOfSeven(ScaleSegments(raw, target));
  }

  lemma MissedLow(target: int) returns (raw: map<Segment, int>)
    requires 3 <= target <= 7
    ensures Overshoots(raw, target)
  {
    match target
    case 3 => raw := MissedBy(5, 3, 0, 1, 0, target);
    case 6 => raw := MissedBy(2, 15, 6, 2, 1, target);
    case 7 => raw := MissedBy(3, 12, 5, 2, 1, target);
    case _ => raw := MissedBy(7, 1, 0, 1, 0, target);
  }

  lemma MissedHigh(target: int) returns (raw: map<Segment, int>)
    requires 8 <= target <= 11
    ensures Overshoots(raw, target)
  {
    match target
    case 8 => raw := MissedBy(4, 9, 4, 2, 1, target);
    case 9 => raw := MissedBy(5, 6, 3, 2, 1, target);
    case 10 => raw := MissedBy(6, 3, 2, 2, 1, target);
    case _ => raw := MissedBy(7, 1, 0, 2, 0, target);
  }

  /** Raw estimates for which the segments miss the target. */
  lemma MissedTarget(target: int) returns (raw: map<Segment, int>)
    requires 3 <= target <= 11
    ensures Overshoots(raw, target)
  {
    if target <= 7 {
      raw := MissedLow(target);
    } else {
      raw := MissedHigh(target);
    }
  }

  /**
   * Exactly which targets are always met: 0, 1, 2 and everything from 12. In
   * between, the largest segment can be too small to give up the drift.
   */
  lemma TargetsAlwaysMet(target: int)
    ensures (forall raw :: Total(raw) > 0 ==> Sum(ScaleSegments(raw, target)) == target)
       <==> 0 <= target <= 2 || target >= 12
  {
    if 0 <= target <= 2 || target >= 12 {
      forall raw | Total(raw) > 0
        ensures Sum(ScaleSegments(raw, target)) == target
      {
        SegmentsSumToTarget(raw, target);
      }
    } else if target < 0 {
      var _ := MissedNegative(target);
    } else {
      var _ := MissedTarget(target);
    }
  }

  /** The estimate of a segment as it counts: none or a negative one is 0. */
  lemma EstimateCounts(raw: map<Segment, int>, i: nat)
    requires i < 7
    ensures |SEGMENT_KEYS| == 7 && |Weights(raw)| == 7
    ensures SEGMENT_KEYS[i] in raw && raw[SEGMENT_KEYS[i]] >= 0 ==> Weights(raw)[i] == raw[SEGMENT_KEYS[i]]
    ensures SEGMENT_KEYS[i] !in raw || raw[SEGMENT_KEYS[i]] < 0 ==> Weights(raw)[i] == 0
  {
  }

  /** There is nothing to rescale exactly if no estimate is positive; then, and without a target, all are 0. */
  lemma NothingToScale(raw: map<Segment, int>, target: int)
    ensures Total(raw) <= 0 <==> forall key :: key in raw ==> raw[key] <= 0
    ensures target <= 0 || (forall key :: key in raw ==> raw[key] <= 0) ==>
              forall i :: 0 <= i < |ScaleSegments(raw, target)| ==> ScaleSegments(raw, target)[i] == 0
  {
    SumOfSeven(Weights(raw));
    forall key | key in raw
      ensures raw[key] <= 0 || Total(raw) > 0
    {
      var i := KeyIndex(key);
      assert raw[key] > 0 ==> Weights(raw)[i] == raw[key];
    }
  }

  lemma KeyIndex(key: Segment) returns (i: nat)
    ensures i < 7 && SEGMENT_KEYS[i] == key
  {
    match key
    case SystemPrompt => i := 0;
    case ToolDefinitions => i := 1;
    case Rules => i := 2;
    case Skills => i := 3;
    case Mcp => i := 4;
    case SubagentDefinitions => i := 5;
    case Conversation => i := 6;
  }
}
