// The ground plane and its grid (src/core/scene/grid.ts): pick a "nice" step
// from the pixel density, snap the half-extent to a whole number of steps,
// bound the number of lines, then emit the lines by integer multiples of the
// step. The pixels-per-unit estimate is an input here (it comes from the
// projector).
module Grid {
  import opened Util
  import opened Types
  import opened Config

  datatype Segment = Segment(a: Vec3, b: Vec3)

  /** The optional settings of buildGrid; None stands for an absent option. */
  datatype GridOptions = GridOptions(
    groundY: Option<real>,
    range: Option<real>,
    adaptive: Option<bool>,
    maxLines: Option<real>,
    stepOverride: Option<real>)

  /** ground holds p1..p4 counter-clockwise; range is the half-extent actually used. */
  datatype GridResult = GridResult(ground: seq<Vec3>, lines: seq<Segment>, step: real, range: real)

  const TargetPx := 28.0
  const DefaultMaxLines := 160.0
  const MinMaxLines := 16.0

  function Abs(x: real): real { if x < 0.0 then -x else x }

  function Pow10(k: int): (r: real)
    ensures r > 0.0
    decreases if k < 0 then -k else k
  {
    if k == 0 then 1.0
    else if k > 0 then 10.0 * Pow10(k - 1)
    else Pow10(k + 1) / 10.0
  }

  const Mantissas: seq<real> := [1.0, 2.0, 5.0]

  /** The 21 candidate steps m * 10^k, exponent outer (k = -3..3), mantissa inner (1, 2, 5). */
  const Candidates: seq<real> := [
    0.001, 0.002, 0.005, 0.01, 0.02, 0.05, 0.1, 0.2, 0.5,
    1.0, 2.0, 5.0, 10.0, 20.0, 50.0, 100.0, 200.0, 500.0, 1000.0, 2000.0, 5000.0]

  const CandidateCount := 21

  /** Candidate 3 (e + 3) + m is mantissa m at exponent e: the table lists m * 10^e in the order of the scan. */
  lemma CandidateAt(e: int, m: nat)
    requires -3 <= e <= 3 && m < 3
    ensures 3 * (e + 3) + m < |Candidates|
    ensures Candidates[3 * (e + 3) + m] == Mantissas[m] * Pow10(e)
  {
    if e == -3 { assert Pow10(e) == 0.001; }
    else if e == -2 { assert Pow10(e) == 0.01; }
    else if e == -1 { assert Pow10(e) == 0.1; }
    else if e == 0 { assert Pow10(e) == 1.0; }
    else if e == 1 { assert Pow10(e) == 10.0; }
    else if e == 2 { assert Pow10(e) == 100.0; }
    else { assert Pow10(e) == 1000.0; }
  }

  /** How far a step's on-screen spacing is from the target spacing. */
  function StepError(pxPerUnit: real, targetPx: real, step: real): real
  {
    Abs(pxPerUnit * step - targetPx)
  }

  /** The error of every candidate, in scan order. */
  function Errors(pxPerUnit: real, targetPx: real): (errs: seq<real>)
    ensures |errs| == CandidateCount
  {
    seq(CandidateCount, k requires 0 <= k < CandidateCount => StepError(pxPerUnit, targetPx, Candidates[k]))
  }

  /** The index of the first least error among the first n. */
  function FirstBest(errs: seq<real>, n: nat): (j: nat)
    requires 1 <= n <= |errs|
    ensures j < n
  {
    if n == 1 then 0
    else
      var j := FirstBest(errs, n - 1);
      if errs[n - 1] < errs[j] then n - 1 else j
  }

  /** FirstBest is an argmin, and the earliest one: every earlier error is strictly larger. */
  lemma {:induction false} FirstBestIsFirstMinimum(errs: seq<real>, n: nat)
    requires 1 <= n <= |errs|
    ensures var j := FirstBest(errs, n);
      && (forall k :: 0 <= k < n ==> errs[j] <= errs[k])
      && (forall k :: 0 <= k < j ==> errs[j] < errs[k])
  {
    if n > 1 {
      FirstBestIsFirstMinimum(errs, n - 1);
    }
  }

  /**
   * The best of the first n candidates as the scan sees it: a later candidate
   * replaces the best so far only when its error is strictly smaller.
   */
  function BestOf(pxPerUnit: real, targetPx: real, n: nat): real
    requires 1 <= n <= CandidateCount
  {
    if n == 1 then Candidates[0]
    else
      var b := BestOf(pxPerUnit, targetPx, n - 1);
      if StepError(pxPerUnit, targetPx, Candidates[n - 1]) < StepError(pxPerUnit, targetPx, b) then Candidates[n - 1]
      else b
  }

  /** The running best is the candidate at the first least error. */
  lemma {:induction false} BestOfIsFirstBest(pxPerUnit: real, targetPx: real, n: nat)
    requires 1 <= n <= CandidateCount
    ensures BestOf(pxPerUnit, targetPx, n) == Candidates[FirstBest(Errors(pxPerUnit, targetPx), n)]
  {
    if n > 1 {
      BestOfIsFirstBest(pxPerUnit, targetPx, n - 1);
    }
  }

  /** The step chooseStep picks: 1 for a degenerate density, else the best of all 21 candidates. */
  function NiceStep(pxPerUnit: real, targetPx: real): real
  {
    if pxPerUnit <= 0.0 then 1.0 else BestOf(pxPerUnit, targetPx, CandidateCount)
  }

  /**
   * For a positive density the chosen step is one of the candidates, no
   * candidate comes closer to the target spacing, and every earlier candidate is
   * strictly farther from it.
   */
  lemma NiceStepIsFirstBest(pxPerUnit: real, targetPx: real)
    requires pxPerUnit > 0.0
    ensures exists j :: (0 <= j < CandidateCount && NiceStep(pxPerUnit, targetPx) == Candidates[j]
      && (forall k :: 0 <= k < CandidateCount ==>
            StepError(pxPerUnit, targetPx, Candidates[j]) <= StepError(pxPerUnit, targetPx, Candidates[k]))
      && (forall k :: 0 <= k < j ==>
            StepError(pxPerUnit, targetPx, Candidates[j]) < StepError(pxPerUnit, targetPx, Candidates[k])))
  {
    var errs := Errors(pxPerUnit, targetPx);
    var j := FirstBest(errs, CandidateCount);
    FirstBestIsFirstMinimum(errs, CandidateCount);
    BestOfIsFirstBest(pxPerUnit, targetPx, CandidateCount);
    assert forall k :: 0 <= k < CandidateCount ==> errs[k] == StepError(pxPerUnit, targetPx, Candidates[k]);
  }

  /** FirstBest over n entries looks at those n entries only. */
  lemma {:induction false} FirstBestPrefix(errs: seq<real>, more: seq<real>, n: nat)
    requires 1 <= n <= |errs|
    ensures FirstBest(errs + more, n) == FirstBest(errs, n)
  {
    if n > 1 {
      FirstBestPrefix(errs, more, n - 1);
      assert (errs + more)[n - 1] == errs[n - 1];
    }
  }

  /**
   * The scan so far: steps and errs are the candidates visited and their errors,
   * and best and bestErr the first one with the least error.
   */
  predicate Scanned(steps: seq<real>, errs: seq<real>, best: real, bestErr: real)
  {
    1 <= |errs| == |steps|
    && best == steps[FirstBest(errs, |errs|)]
    && bestErr == errs[FirstBest(errs, |errs|)]
  }

  /** The visited steps are the first candidates, each with its own error. */
  predicate Visited(pxPerUnit: real, targetPx: real, steps: seq<real>, errs: seq<real>)
  {
    |steps| == |errs| <= CandidateCount
    && (forall k :: 0 <= k < |steps| ==> steps[k] == Candidates[k])
    && (forall k :: 0 <= k < |errs| ==> errs[k] == StepError(pxPerUnit, targetPx, Candidates[k]))
  }

  /** Scan the candidates keeping the first one with the least error. */
  method ChooseStep(pxPerUnit: real, targetPx: real) returns (best: real)
    ensures best == NiceStep(pxPerUnit, targetPx)
  {
    if pxPerUnit <= 0.0 {
      return 1.0;
    }
    ghost var steps: seq<real> := [];
    ghost var errs: seq<real> := [];
    best := 1.0;
    var bestErr := 0.0;
    var haveBest := false;  // bestErr = Infinity while false
    var exp := -3;
    while exp <= 3
      invariant -3 <= exp <= 4 && |steps| == 3 * (exp + 3)
      invariant Visited(pxPerUnit, targetPx, steps, errs)
      invariant haveBest == (exp > -3)
      invariant haveBest ==> Scanned(steps, errs, best, bestErr)
    {
      steps, errs, best, bestErr := ScanDecade(pxPerUnit, targetPx, exp, steps, errs, haveBest, best, bestErr);
      haveBest := true;
      exp := exp + 1;
    }
    ScanComplete(pxPerUnit, targetPx, steps, errs, best, bestErr);
  }

  /** The inner loop of the scan: the three mantissas at scale 10^exp. */
  method ScanDecade(pxPerUnit: real, targetPx: real, exp: int, ghost steps0: seq<real>, ghost errs0: seq<real>,
                    haveBest: bool, best0: real, bestErr0: real)
    returns (ghost steps: seq<real>, ghost errs: seq<real>, best: real, bestErr: real)
    requires -3 <= exp <= 3 && |steps0| == 3 * (exp + 3)
    requires Visited(pxPerUnit, targetPx, steps0, errs0)
    requires haveBest == (|steps0| > 0)
    requires haveBest ==> Scanned(steps0, errs0, best0, bestErr0)
    ensures |steps| == 3 * (exp + 4)
    ensures Visited(pxPerUnit, targetPx, steps, errs)
    ensures Scanned(steps, errs, best, bestErr)
  {
    steps, errs, best, bestErr := steps0, errs0, best0, bestErr0;
    var scale := Pow10(exp);
    var mi := 0;
    while mi < 3
      invariant 0 <= mi <= 3 && |steps| == 3 * (exp + 3) + mi
      invariant Visited(pxPerUnit, targetPx, steps, errs)
      invariant (haveBest || mi > 0) == (|steps| > 0)
      invariant (haveBest || mi > 0) ==> Scanned(steps, errs, best, bestErr)
    {
      var step := ScaledMantissa(exp, mi, scale);
      var err := StepError(pxPerUnit, targetPx, step);
      best, bestErr := KeepBetter(steps, errs, step, err, haveBest || mi > 0, best, bestErr);
      VisitNext(pxPerUnit, targetPx, steps, errs, step, err);
      steps, errs := steps + [step], errs + [err];
      mi := mi + 1;
    }
  }

  /** One step of the scan: take the new step when it is the first or strictly better. */
  method KeepBetter(ghost steps: seq<real>, ghost errs: seq<real>, step: real, err: real,
                    haveBest: bool, best: real, bestErr: real)
    returns (best': real, bestErr': real)
    requires |steps| == |errs| && haveBest == (|errs| > 0)
    requires haveBest ==> Scanned(steps, errs, best, bestErr)
    ensures Scanned(steps + [step], errs + [err], best', bestErr')
  {
    if |errs| > 0 {
      FirstBestPrefix(errs, [err], |errs|);
    }
    if !haveBest || err < bestErr {
      best', bestErr' := step, err;
    } else {
      best', bestErr' := best, bestErr;
    }
  }

  lemma VisitNext(pxPerUnit: real, targetPx: real, steps: seq<real>, errs: seq<real>, step: real, err: real)
    requires Visited(pxPerUnit, targetPx, steps, errs) && |steps| < CandidateCount
    requires step == Candidates[|steps|] && err == StepError(pxPerUnit, targetPx, step)
    ensures Visited(pxPerUnit, targetPx, steps + [step], errs + [err])
  {
  }

  /** Having visited all 21 candidates, the scan holds NiceStep. */
  lemma ScanComplete(pxPerUnit: real, targetPx: real, steps: seq<real>, errs: seq<real>, best: real, bestErr: real)
    requires pxPerUnit > 0.0 && |steps| == CandidateCount
    requires Visited(pxPerUnit, targetPx, steps, errs) && Scanned(steps, errs, best, bestErr)
    ensures best == NiceStep(pxPerUnit, targetPx)
  {
    assert errs == Errors(pxPerUnit, targetPx);
    BestOfIsFirstBest(pxPerUnit, targetPx, CandidateCount);
  }

  /** m * scale for the mi-th mantissa at scale 10^exp: the candidate of that position. */
  method ScaledMantissa(exp: int, mi: nat, scale: real) returns (step: real)
    requires -3 <= exp <= 3 && mi < 3 && scale == Pow10(exp)
    ensures 3 * (exp + 3) + mi < CandidateCount
    ensures step == Candidates[3 * (exp + 3) + mi]
  {
    step := Mantissas[mi] * scale;
    CandidateAt(exp, mi);
  }

  lemma NiceStepPositive(pxPerUnit: real, targetPx: real)
    ensures NiceStep(pxPerUnit, targetPx) > 0.0
  {
    if pxPerUnit > 0.0 {
      BestOfIsFirstBest(pxPerUnit, targetPx, CandidateCount);
      var j := FirstBest(Errors(pxPerUnit, targetPx), CandidateCount);
      assert Candidates[j] > 0.0;
    }
  }

  /** The line budget: the requested maximum, 160 when none is given, and never below 16. */
  function EffectiveMaxLines(opts: GridOptions): (m: real)
    ensures m >= MinMaxLines
    ensures opts.maxLines == None ==> m == DefaultMaxLines
  {
    Max(MinMaxLines, GetOr(opts.maxLines, DefaultMaxLines))
  }

  /** A positive override wins; otherwise the adaptive choice, or 1 when not adaptive. */
  function SelectedStep(pxPerUnit: real, opts: GridOptions): (step: real)
    ensures step > 0.0
    ensures opts.stepOverride.Some? && opts.stepOverride.value > 0.0 ==> step == opts.stepOverride.value
    ensures !(opts.stepOverride.Some? && opts.stepOverride.value > 0.0) && opts.adaptive == Some(false) ==> step == 1.0
    ensures !(opts.stepOverride.Some? && opts.stepOverride.value > 0.0) && GetOr(opts.adaptive, true) ==>
      step == NiceStep(pxPerUnit, TargetPx)
  {
    if opts.stepOverride.Some? && opts.stepOverride.value > 0.0 then opts.stepOverride.value
    else if GetOr(opts.adaptive, true) then NiceStepPositive(pxPerUnit, TargetPx); NiceStep(pxPerUnit, TargetPx)
    else 1.0
  }

  function BaseRange(opts: GridOptions): real { GetOr(opts.range, GridMaxExtent) }

  function GroundY(opts: GridOptions): real { GetOr(opts.groundY, -1.0) }

  /** Whole steps that fit in the requested half-extent. */
  function HalfSteps(baseRange: real, step: real): int
    requires step > 0.0
  {
    (baseRange / step).Floor
  }

  /** The lines needed for half-extent h: 2h + 1 positions on each of two axes. */
  function NominalLines(h: int): int { (h * 2 + 1) * 2 }

  /** Half-extent allowed by the line budget. */
  function AllowedSteps(maxLines: real): int
  {
    var f := ((maxLines / 2.0 - 1.0) / 2.0).Floor;
    if f < 1 then 1 else f
  }

  /** The number of steps on each side of the origin after the line clamp. */
  function HalfCount(baseRange: real, step: real, maxLines: real): int
    requires step > 0.0
  {
    var h := HalfSteps(baseRange, step);
    if NominalLines(h) as real > maxLines then AllowedSteps(maxLines) else h
  }

  /** N for the given options: the clamped half count at the selected step. */
  function LineHalfCount(pxPerUnit: real, opts: GridOptions): int
  {
    HalfCount(BaseRange(opts), SelectedStep(pxPerUnit, opts), EffectiveMaxLines(opts))
  }

  /** The half-extent the grid uses: N whole steps. */
  function GridRange(pxPerUnit: real, opts: GridOptions): real
  {
    LineHalfCount(pxPerUnit, opts) as real * SelectedStep(pxPerUnit, opts)
  }

  lemma GridRangeOf(pxPerUnit: real, opts: GridOptions, n: int, step: real)
    requires n == LineHalfCount(pxPerUnit, opts) && step == SelectedStep(pxPerUnit, opts)
    ensures n as real * step == GridRange(pxPerUnit, opts)
  {
  }

  /** The quad p1..p4 = (-r,-r), (r,-r), (r,r), (-r,r) in x/z at height y, counter-clockwise. */
  function GroundQuad(range: real, y: real): seq<Vec3>
  {
    [Vec3(-range, y, -range), Vec3(range, y, -range), Vec3(range, y, range), Vec3(-range, y, range)]
  }

  /** Twice the signed area of a quadrilateral in the x/z plane (shoelace); positive when counter-clockwise. */
  function ShoelaceXZ(q: seq<Vec3>): real
    requires |q| == 4
  {
    (q[0].x * q[1].z - q[1].x * q[0].z) + (q[1].x * q[2].z - q[2].x * q[1].z)
    + (q[2].x * q[3].z - q[3].x * q[2].z) + (q[3].x * q[0].z - q[0].x * q[3].z)
  }

  /**
   * The ground quad is the square of side 2 range centred on the origin at
   * height y: its corners are at the ground height, consecutive corners differ
   * in one coordinate only, and it is listed counter-clockwise in x/z.
   */
  lemma GroundQuadShape(range: real, y: real)
    ensures var q := GroundQuad(range, y);
      && |q| == 4
      && (forall c :: c in q ==> c.y == y && (c.x == range || c.x == -range) && (c.z == range || c.z == -range))
      && q[0].z == q[1].z && q[1].x == q[2].x && q[2].z == q[3].z && q[3].x == q[0].x
      && q[0].x + q[1].x + q[2].x + q[3].x == 0.0 && q[0].z + q[1].z + q[2].z + q[3].z == 0.0
      && ShoelaceXZ(q) == 8.0 * Sq(range)
      && (range != 0.0 ==> ShoelaceXZ(q) > 0.0)
  {
    var q := GroundQuad(range, y);
    var r2 := Sq(range);
    assert q[0].x * q[1].z - q[1].x * q[0].z == 2.0 * r2;
    assert q[1].x * q[2].z - q[2].x * q[1].z == 2.0 * r2;
    assert q[2].x * q[3].z - q[3].x * q[2].z == 2.0 * r2;
    assert q[3].x * q[0].z - q[0].x * q[3].z == 2.0 * r2;
    SqSign(range);
  }

  /** The line parallel to z at x = v. */
  function ZLine(v: real, range: real, y: real): Segment
  {
    Segment(Vec3(v, y, -range), Vec3(v, y, range))
  }

  /** The line parallel to x at z = v. */
  function XLine(v: real, range: real, y: real): Segment
  {
    Segment(Vec3(-range, y, v), Vec3(range, y, v))
  }

  /** Line k of a grid with n steps each side: pair k / 2 sits at offset (k / 2 - n) * step. */
  function GridLine(n: int, step: real, range: real, y: real, k: int): Segment
  {
    var v := (k / 2 - n) as real * step;
    if k % 2 == 0 then ZLine(v, range, y) else XLine(v, range, y)
  }

  /** For i = -n..n: the z-parallel line at i * step, then the x-parallel one. */
  function GridLines(n: int, step: real, range: real, y: real): (lines: seq<Segment>)
    ensures n >= 0 ==> |lines| == 2 * (2 * n + 1)
    ensures n < 0 ==> lines == []
  {
    if n < 0 then [] else seq(2 * (2 * n + 1), k => GridLine(n, step, range, y, k))
  }

  /** Ground quad and lines of the grid, with the step and half-extent used. */
  method BuildGrid(pxPerUnit: real, opts: GridOptions) returns (g: GridResult)
    ensures g.step == SelectedStep(pxPerUnit, opts)
    ensures g.range == GridRange(pxPerUnit, opts)
    ensures g.ground == GroundQuad(g.range, GroundY(opts))
    ensures g.lines == GridLines(LineHalfCount(pxPerUnit, opts), g.step, g.range, GroundY(opts))
    ensures |g.lines| as real <= EffectiveMaxLines(opts)
  {
    var groundY := GetOr(opts.groundY, -1.0);
    var baseRange := GetOr(opts.range, GridMaxExtent);
    var adaptive := GetOr(opts.adaptive, true);
    var maxLines := Max(MinMaxLines, GetOr(opts.maxLines, DefaultMaxLines));

    var step: real;
    if opts.stepOverride.Some? && opts.stepOverride.value > 0.0 {
      step := opts.stepOverride.value;
    } else if adaptive {
      step := ChooseStep(pxPerUnit, TargetPx);
    } else {
      step := 1.0;
    }
    assert step == SelectedStep(pxPerUnit, opts);
    assert HalfCount(baseRange, step, maxLines) == LineHalfCount(pxPerUnit, opts);
    GridRangeOf(pxPerUnit, opts, HalfCount(baseRange, step, maxLines), step);
    g := LayOutGrid(baseRange, step, maxLines, groundY);
  }

  /**
   * The part of buildGrid after the step is known: snap the half-extent to
   * whole steps, clamp the line count, then emit the ground quad and the lines.
   */
  method LayOutGrid(baseRange: real, step: real, maxLines: real, groundY: real) returns (g: GridResult)
    requires step > 0.0 && maxLines >= MinMaxLines
    ensures g.step == step
    ensures g.range == HalfCount(baseRange, step, maxLines) as real * step
    ensures g.ground == GroundQuad(g.range, groundY)
    ensures g.lines == GridLines(HalfCount(baseRange, step, maxLines), step, g.range, groundY)
    ensures |g.lines| as real <= maxLines
  {
    var halfSteps := (baseRange / step).Floor;
    var range := halfSteps as real * step;
    var nominalLinesPerAxis := halfSteps * 2 + 1;
    ghost var n := halfSteps;
    if (nominalLinesPerAxis * 2) as real > maxLines {
      var allowed := ((maxLines / 2.0 - 1.0) / 2.0).Floor;
      if allowed < 1 {
        allowed := 1;
      }
      range := allowed as real * step;
      n := allowed;
    }
    assert n == HalfCount(baseRange, step, maxLines);

    var ground := [Vec3(-range, groundY, -range), Vec3(range, groundY, -range),
                   Vec3(range, groundY, range), Vec3(-range, groundY, range)];

    var lines := EmitGridLines(range, step, groundY, n);
    LineCountWithinBudget(baseRange, step, maxLines);
    return GridResult(ground, lines, step, range);
  }

  /**
   * The line loop of buildGrid: with N = round(range / step), which is the n the
   * range was built from, push for i = -N..N the z-parallel and then the
   * x-parallel line at i * step.
   */
  method EmitGridLines(range: real, step: real, y: real, ghost n0: int) returns (lines: seq<Segment>)
    requires step > 0.0 && range == n0 as real * step
    ensures lines == GridLines(n0, step, range, y)
  {
    RoundWhole(n0, step, range);
    var n := Round(range / step);
    ghost var all := GridLines(n, step, range, y);
    lines := [];
    var i := -n;
    while i <= n
      invariant n >= 0 ==> -n <= i <= n + 1 && lines == all[..2 * (i + n)]
      invariant n < 0 ==> i == -n && lines == []
    {
      var v := i as real * step;
      GridLinePair(n, step, range, y, i);
      assert all[..2 * (i + n) + 2] == all[..2 * (i + n)] + [all[2 * (i + n)], all[2 * (i + n) + 1]];
      lines := lines + [ZLine(v, range, y)];
      lines := lines + [XLine(v, range, y)];
      i := i + 1;
    }
    assert n >= 0 ==> lines == all;
  }

  /** Dividing a whole number of steps by the step and rounding gives that number back. */
  lemma RoundWhole(n: int, step: real, range: real)
    requires step > 0.0 && range == n as real * step
    ensures Round(range / step) == n
  {
    DivOfMul(n as real, step);
    assert range == Mul(step, n as real);
  }

  /** Lines 2 (i + n) and 2 (i + n) + 1 are the pair at offset i * step. */
  lemma GridLinePair(n: int, step: real, range: real, y: real, i: int)
    requires -n <= i <= n
    ensures GridLine(n, step, range, y, 2 * (i + n)) == ZLine(i as real * step, range, y)
    ensures GridLine(n, step, range, y, 2 * (i + n) + 1) == XLine(i as real * step, range, y)
  {
    assert (2 * (i + n)) / 2 - n == i && (2 * (i + n)) % 2 == 0;
    assert (2 * (i + n) + 1) / 2 - n == i && (2 * (i + n) + 1) % 2 == 1;
  }

  /** Math.round on the exact values used here: the nearest integer, halves upward. */
  function Round(x: real): (k: int)
    ensures x - 0.5 < k as real <= x + 0.5
  {
    (x + 0.5).Floor
  }

  /** The line clamp keeps the grid within its line budget. */
  lemma LineCountWithinBudget(baseRange: real, step: real, maxLines: real)
    requires step > 0.0 && maxLines >= MinMaxLines
    ensures var n := HalfCount(baseRange, step, maxLines);
      n >= 0 ==> NominalLines(n) as real <= maxLines
  {
    var h := HalfSteps(baseRange, step);
    if NominalLines(h) as real > maxLines {
      var x := (maxLines / 2.0 - 1.0) / 2.0;
      assert x >= 3.5;
      assert x.Floor >= 3;
      assert AllowedSteps(maxLines) == x.Floor;
      assert (x.Floor as real) * 4.0 + 2.0 <= maxLines;
    }
  }

  /** floor(b / step) whole steps fit in b, and one more step would not. */
  lemma FloorSnap(b: real, step: real)
    requires b >= 0.0 && step > 0.0
    ensures var h := HalfSteps(b, step);
      && 0 <= h
      && 0.0 <= h as real * step <= b
      && b - step < h as real * step
  {
    var q := b / step;
    var h := HalfSteps(b, step);
    DivSign(b, step);
    MulDiv(b, step);
    assert h as real <= q < h as real + 1.0;
    MulNonNeg(step, h as real);
    MulNonNeg(step, q - h as real);
    assert Mul(step, q - h as real) == Mul(step, q) - h as real * step;
    MulPos(step, h as real + 1.0 - q);
    assert Mul(step, h as real + 1.0 - q) == h as real * step + step - Mul(step, q);
  }

  /**
   * When the requested half-extent is not negative, the grid uses a whole,
   * non-negative number of steps that fits inside it: the range snaps down,
   * never up, and the clamp only ever shrinks it.
   */
  lemma RangeSnapsDown(baseRange: real, step: real, maxLines: real)
    requires baseRange >= 0.0 && step > 0.0 && maxLines >= MinMaxLines
    ensures var n := HalfCount(baseRange, step, maxLines);
      var h := HalfSteps(baseRange, step);
      && 0 <= n <= h
      && 0.0 <= n as real * step <= baseRange
      && baseRange - step < h as real * step
  {
    FloorSnap(baseRange, step);
    var h := HalfSteps(baseRange, step);
    var n := HalfCount(baseRange, step, maxLines);
    if NominalLines(h) as real > maxLines {
      LineCountWithinBudget(baseRange, step, maxLines);
      assert n < h;
    }
    MulNonNeg(step, n as real);
    MulNonNeg(step, (h - n) as real);
    assert Mul(step, (h - n) as real) == h as real * step - n as real * step;
  }

  /**
   * Every line lies at the ground height and spans exactly [-range, range] on
   * the axis it runs along; line 2m is z-parallel and line 2m + 1 is x-parallel,
   * both at offset (m - n) * step.
   */
  lemma GridLineShape(n: int, step: real, range: real, y: real, k: nat)
    requires n >= 0 && k < 2 * (2 * n + 1)
    ensures var s := GridLines(n, step, range, y)[k];
      var v := (k / 2 - n) as real * step;
      && s.a.y == y && s.b.y == y
      && -n <= k / 2 - n <= n
      && (k % 2 == 0 ==> s.a.x == v && s.b.x == v && s.a.z == -range && s.b.z == range)
      && (k % 2 == 1 ==> s.a.z == v && s.b.z == v && s.a.x == -range && s.b.x == range)
  {
  }

  /** The options the scene builder passes: half-extent 2, fixed unit step, at most 100 lines. */
  const SceneGridOptions := GridOptions(Some(-1.0), Some(2.0), Some(false), Some(100.0), Some(1.0))

  /** Those options give step 1, range 2 and ten lines: x and z at -2, -1, 0, 1, 2. */
  lemma SceneGridFixed(pxPerUnit: real)
    ensures SelectedStep(pxPerUnit, SceneGridOptions) == 1.0
    ensures LineHalfCount(pxPerUnit, SceneGridOptions) == 2
    ensures |GridLines(2, 1.0, 2.0, -1.0)| == 10
  {
    assert HalfSteps(2.0, 1.0) == 2;
  }
}
