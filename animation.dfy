// The construction-animation state machine (src/core/fsm/animation.ts): a
// time-driven transition function over five phases plus the two queries the
// scene asks of it. Time is the `now` of performance.now(), in milliseconds.
module Animation {
  import opened Util
  import opened Types
  import opened Config

  /** (Re)start the animation: wait the initial delay, keeping the completion flag. */
  function BeginDrawCall(now: real, anim: AnimationState): (r: AnimationState)
    ensures r.phase == InitialDelay && r.currentIndex == 0 && r.startTime == now
    ensures r.hasCompletedOnce == anim.hasCompletedOnce
  {
    AnimationState(InitialDelay, 0, now, anim.hasCompletedOnce)
  }

  /**
   * One frame of the state machine. A frame either changes nothing or stamps
   * the start time with now; the index only moves one item on, or back to 0
   * when a new phase begins.
   */
  function TickAnimation(now: real, anim: AnimationState, mesh: Mesh, d: Durations): (r: AnimationState)
    ensures r == anim || r.startTime == now
    ensures r.phase == anim.phase ==> r.currentIndex == anim.currentIndex || r.currentIndex == anim.currentIndex + 1
    ensures r.phase != anim.phase ==> r.currentIndex == 0
  {
    if anim.phase == Idle || anim.phase == Complete then anim
    else if anim.startTime == 0.0 then anim.(startTime := now)
    else
      var elapsed := now - anim.startTime;
      match anim.phase
      case InitialDelay =>
        if elapsed >= d.initialDelay then AnimationState(VertexConstruction, 0, now, anim.hasCompletedOnce)
        else anim
      case VertexConstruction =>
        if elapsed >= d.vertexBuild then
          var next := anim.currentIndex + 1;
          if next >= |mesh.vertices| then AnimationState(EdgeDrawing, 0, now, anim.hasCompletedOnce)
          else AnimationState(VertexConstruction, next, now, anim.hasCompletedOnce)
        else anim
      case EdgeDrawing =>
        if elapsed >= d.edgeDraw then
          var next := anim.currentIndex + 1;
          if next >= |mesh.edges| then AnimationState(Complete, 0, now, true)
          else AnimationState(EdgeDrawing, next, now, anim.hasCompletedOnce)
        else anim
      case _ => anim
  }

  predicate Active(p: Phase)
  {
    p == InitialDelay || p == VertexConstruction || p == EdgeDrawing
  }

  /** The number of items the phase walks through: vertices, then edges. */
  function PhaseCount(p: Phase, mesh: Mesh): nat
  {
    if p == VertexConstruction then |mesh.vertices| else |mesh.edges|
  }

  function PhaseDuration(p: Phase, d: Durations): real
  {
    match p
    case InitialDelay => d.initialDelay
    case VertexConstruction => d.vertexBuild
    case _ => d.edgeDraw
  }

  function NextPhase(p: Phase): Phase
  {
    match p
    case InitialDelay => VertexConstruction
    case VertexConstruction => EdgeDrawing
    case _ => Complete
  }

  /** IDLE and COMPLETE are resting phases: a tick leaves the state as it is. */
  lemma TickResting(now: real, anim: AnimationState, mesh: Mesh, d: Durations)
    requires !Active(anim.phase)
    ensures TickAnimation(now, anim, mesh, d) == anim
  {
  }

  /** In an active phase an unstamped state (startTime 0) only takes the current time. */
  lemma TickStamps(now: real, anim: AnimationState, mesh: Mesh, d: Durations)
    requires Active(anim.phase) && anim.startTime == 0.0
    ensures TickAnimation(now, anim, mesh, d) == anim.(startTime := now)
  {
  }

  /** The initial delay ends exactly when the elapsed time reaches it. */
  lemma TickInitialDelay(now: real, anim: AnimationState, mesh: Mesh, d: Durations)
    requires anim.phase == InitialDelay && anim.startTime != 0.0
    ensures var r := TickAnimation(now, anim, mesh, d);
      if now - anim.startTime >= d.initialDelay
      then r == AnimationState(VertexConstruction, 0, now, anim.hasCompletedOnce)
      else r == anim
  {
  }

  /**
   * Once the step's time is up, a counting phase moves to the next item; the step
   * past the last item enters the next phase at index 0 instead. Before that the
   * state is unchanged.
   */
  lemma TickStep(now: real, anim: AnimationState, mesh: Mesh, d: Durations)
    requires anim.phase == VertexConstruction || anim.phase == EdgeDrawing
    requires anim.startTime != 0.0
    ensures var r := TickAnimation(now, anim, mesh, d);
      if now - anim.startTime < PhaseDuration(anim.phase, d) then r == anim
      else if anim.currentIndex + 1 < PhaseCount(anim.phase, mesh)
      then r == anim.(currentIndex := anim.currentIndex + 1, startTime := now)
      else (r.phase == NextPhase(anim.phase) && r.currentIndex == 0 && r.startTime == now
            && r.hasCompletedOnce == (anim.hasCompletedOnce || anim.phase == EdgeDrawing))
  {
  }

  /**
   * Phases never go backwards, a change of phase goes one step forward, the
   * completion flag is sticky and is set on entering COMPLETE.
   */
  lemma TickMonotone(now: real, anim: AnimationState, mesh: Mesh, d: Durations)
    ensures var r := TickAnimation(now, anim, mesh, d);
      && PhaseRank(anim.phase) <= PhaseRank(r.phase)
      && (r.phase != anim.phase ==> Active(anim.phase) && r.phase == NextPhase(anim.phase))
      && (anim.hasCompletedOnce ==> r.hasCompletedOnce)
      && (r.phase == Complete ==> r.hasCompletedOnce || r == anim)
  {
  }

  /** A tick either keeps the start time or restamps it with the current time; nothing else is ever stored there. */
  lemma TickStartTime(now: real, anim: AnimationState, mesh: Mesh, d: Durations)
    ensures var r := TickAnimation(now, anim, mesh, d);
      r.startTime == anim.startTime || r.startTime == now
  {
  }

  /** With positive durations a second tick at the same instant changes nothing. */
  lemma TickIdempotent(now: real, anim: AnimationState, mesh: Mesh, d: Durations)
    requires d.initialDelay > 0.0 && d.vertexBuild > 0.0 && d.edgeDraw > 0.0
    ensures var r := TickAnimation(now, anim, mesh, d);
      TickAnimation(now, r, mesh, d) == r
  {
    var r := TickAnimation(now, anim, mesh, d);
    if Active(anim.phase) && anim.startTime != 0.0 && r != anim {
      assert r.startTime == now;
      if Active(r.phase) && now != 0.0 {
        assert PhaseDuration(r.phase, d) > 0.0;
      }
    }
  }

  /** In a counting phase the index names an existing vertex or edge. */
  predicate IndexInRange(anim: AnimationState, mesh: Mesh)
  {
    (anim.phase == VertexConstruction ==> anim.currentIndex < |mesh.vertices|)
    && (anim.phase == EdgeDrawing ==> anim.currentIndex < |mesh.edges|)
  }

  /** Ticks keep the index in range when both collections are non-empty. */
  lemma TickKeepsIndexInRange(now: real, anim: AnimationState, mesh: Mesh, d: Durations)
    requires |mesh.vertices| > 0 && |mesh.edges| > 0
    requires IndexInRange(anim, mesh)
    ensures IndexInRange(TickAnimation(now, anim, mesh, d), mesh)
  {
  }

  /** A frame loop: tick at each of the given instants in turn. */
  function Run(nows: seq<real>, anim: AnimationState, mesh: Mesh, d: Durations): AnimationState
    decreases |nows|
  {
    if nows == [] then anim
    else Run(nows[1..], TickAnimation(nows[0], anim, mesh, d), mesh, d)
  }

  /**
   * Over any run of frames the phase only moves forward, the completion flag
   * stays set, and the index stays in range.
   */
  lemma {:induction false} RunMonotone(nows: seq<real>, anim: AnimationState, mesh: Mesh, d: Durations)
    requires |mesh.vertices| > 0 && |mesh.edges| > 0
    requires IndexInRange(anim, mesh)
    ensures var r := Run(nows, anim, mesh, d);
      && PhaseRank(anim.phase) <= PhaseRank(r.phase)
      && (anim.hasCompletedOnce ==> r.hasCompletedOnce)
      && IndexInRange(r, mesh)
    decreases |nows|
  {
    if nows != [] {
      var s := TickAnimation(nows[0], anim, mesh, d);
      TickMonotone(nows[0], anim, mesh, d);
      TickKeepsIndexInRange(nows[0], anim, mesh, d);
      RunMonotone(nows[1..], s, mesh, d);
    }
  }

  /** Once COMPLETE is reached, the flag is set and further frames change nothing. */
  lemma {:induction false} RunStaysComplete(nows: seq<real>, anim: AnimationState, mesh: Mesh, d: Durations)
    requires anim.phase == Complete
    ensures Run(nows, anim, mesh, d) == anim
    decreases |nows|
  {
    if nows != [] {
      TickResting(nows[0], anim, mesh, d);
      RunStaysComplete(nows[1..], anim, mesh, d);
    }
  }

  /** What the scene may show of vertex i. */
  datatype Visibility = Visibility(visible: bool, alpha: real)

  /**
   * Vertices before the current one are fully shown, the current one fades in
   * with the eased build progress, later ones are hidden; all are shown once the
   * edges are drawing.
   */
  function VertexVisibility(i: int, now: real, anim: AnimationState, d: Durations): (r: Visibility)
    requires d.vertexBuild > 0.0
    ensures 0.0 <= r.alpha <= 1.0
    ensures !r.visible ==> r.alpha == 0.0
    ensures (anim.phase == Idle || anim.phase == InitialDelay) ==> !r.visible
    ensures (anim.phase == EdgeDrawing || anim.phase == Complete) ==> r == Visibility(true, 1.0)
    ensures anim.phase == VertexConstruction ==>
      (r.visible <==> i <= anim.currentIndex)
      && (i < anim.currentIndex ==> r.alpha == 1.0)
      && (i == anim.currentIndex ==> (r.alpha == 0.0 <==> now <= anim.startTime))
      && (i == anim.currentIndex ==> (r.alpha == 1.0 <==> now - anim.startTime >= d.vertexBuild))
      && (i == anim.currentIndex && 0.0 <= now - anim.startTime <= d.vertexBuild ==>
            r.alpha == EaseCubicInOut((now - anim.startTime) / d.vertexBuild))
  {
    if anim.phase == Idle || anim.phase == InitialDelay then Visibility(false, 0.0)
    else if anim.phase == VertexConstruction then
      if i < anim.currentIndex then Visibility(true, 1.0)
      else if i == anim.currentIndex then
        var t := Clamp01((now - anim.startTime) / d.vertexBuild);
        FractionOfDuration(now - anim.startTime, d.vertexBuild);
        EaseReachesOne(t);
        Visibility(true, EaseCubicInOut(t))
      else Visibility(false, 0.0)
    else Visibility(true, 1.0)
  }

  /** The clamped fraction of a positive duration is 0 exactly before it starts, 1 exactly once it is over. */
  lemma FractionOfDuration(elapsed: real, dur: real)
    requires dur > 0.0
    ensures Clamp01(elapsed / dur) == 0.0 <==> elapsed <= 0.0
    ensures Clamp01(elapsed / dur) == 1.0 <==> elapsed >= dur
  {
    DivSign(elapsed, dur);
  }

  /** The ease reaches 1 only at the end of its input range. */
  lemma EaseReachesOne(t: real)
    requires 0.0 <= t <= 1.0
    ensures EaseCubicInOut(t) == 1.0 <==> t == 1.0
  {
    if t < 0.5 {
      EaseLowerHalf(t);
      assert EaseCubicInOut(t) == 4.0 * Cube(t);
    } else if t < 1.0 {
      CubeSign(-2.0 * t + 2.0);
      assert EaseCubicInOut(t) == 1.0 - Cube(-2.0 * t + 2.0) / 2.0;
    }
  }

  /**
   * How much of edge i is drawn, in [0, 1]: earlier edges are complete, the
   * current one grows linearly with time, later ones are not started; outside
   * EDGE_DRAWING every edge is complete in COMPLETE and absent otherwise.
   */
  function EdgeProgress(i: int, now: real, anim: AnimationState, d: Durations): (r: real)
    requires d.edgeDraw > 0.0
    ensures 0.0 <= r <= 1.0
    ensures anim.phase == Complete ==> r == 1.0
    ensures anim.phase != Complete && anim.phase != EdgeDrawing ==> r == 0.0
    ensures anim.phase == EdgeDrawing ==>
      (i < anim.currentIndex ==> r == 1.0)
      && (i > anim.currentIndex ==> r == 0.0)
      && (i == anim.currentIndex ==> (r == 0.0 <==> now <= anim.startTime))
      && (i == anim.currentIndex ==> (r == 1.0 <==> now - anim.startTime >= d.edgeDraw))
      && (i == anim.currentIndex && 0.0 <= now - anim.startTime <= d.edgeDraw ==>
            r * d.edgeDraw == now - anim.startTime)
  {
    if anim.phase == EdgeDrawing then
      if i < anim.currentIndex then 1.0
      else if i == anim.currentIndex then
        FractionOfDuration(now - anim.startTime, d.edgeDraw);
        Clamp01((now - anim.startTime) / d.edgeDraw)
      else 0.0
    else if anim.phase == Complete then 1.0
    else 0.0
  }

  /** For a fixed state, an edge's progress never goes down as time passes. */
  lemma EdgeProgressMonotone(i: int, now: real, now': real, anim: AnimationState, d: Durations)
    requires d.edgeDraw > 0.0 && now <= now'
    ensures EdgeProgress(i, now, anim, d) <= EdgeProgress(i, now', anim, d)
  {
    if anim.phase == EdgeDrawing && i == anim.currentIndex {
      DivMonotone(now - anim.startTime, now' - anim.startTime, d.edgeDraw);
    }
  }

  /** For a fixed state, a vertex's alpha never goes down as time passes. */
  lemma VertexVisibilityMonotone(i: int, now: real, now': real, anim: AnimationState, d: Durations)
    requires d.vertexBuild > 0.0 && now <= now'
    ensures VertexVisibility(i, now, anim, d).alpha <= VertexVisibility(i, now', anim, d).alpha
  {
    if anim.phase == VertexConstruction && i == anim.currentIndex {
      var e, e' := now - anim.startTime, now' - anim.startTime;
      DivMonotone(e, e', d.vertexBuild);
      assert Clamp01(e / d.vertexBuild) <= Clamp01(e' / d.vertexBuild);
      EaseMonotone(Clamp01(e / d.vertexBuild), Clamp01(e' / d.vertexBuild));
    }
  }

  /** The drawn edges form a prefix: progress never increases with the edge index. */
  lemma EdgeProgressPrefix(i: int, j: int, now: real, anim: AnimationState, d: Durations)
    requires d.edgeDraw > 0.0 && i <= j
    ensures EdgeProgress(j, now, anim, d) <= EdgeProgress(i, now, anim, d)
  {
  }

  /** While any edge shows, every vertex is fully visible. */
  lemma EdgesAfterVertices(i: int, j: int, now: real, anim: AnimationState, d: Durations)
    requires d.edgeDraw > 0.0 && d.vertexBuild > 0.0
    requires EdgeProgress(i, now, anim, d) > 0.0
    ensures VertexVisibility(j, now, anim, d) == Visibility(true, 1.0)
  {
  }

  /**
   * An edge before the current one, or any edge once COMPLETE, is still at
   * full progress after the next tick. The current edge has no such promise:
   * a tick that only stamps the start time sets its progress back to 0.
   */
  lemma CompletedEdgeStays(i: int, later: real, anim: AnimationState, mesh: Mesh, d: Durations)
    requires d.edgeDraw > 0.0
    requires anim.phase == Complete || (anim.phase == EdgeDrawing && i < anim.currentIndex)
    ensures EdgeProgress(i, later, TickAnimation(later, anim, mesh, d), d) == 1.0
  {
    if anim.phase == EdgeDrawing && anim.startTime != 0.0 {
      TickStep(later, anim, mesh, d);
    }
  }

  /**
   * The current edge can lose its progress: with the start time still unset
   * (0), the edge reads as fully drawn, and the tick that stamps the time
   * starts it again from nothing.
   */
  lemma StampRestartsCurrentEdge(now: real, mesh: Mesh)
    requires now >= DefaultDurations.edgeDraw
    ensures var anim := AnimationState(EdgeDrawing, 0, 0.0, false);
      && EdgeProgress(0, now, anim, DefaultDurations) == 1.0
      && EdgeProgress(0, now, TickAnimation(now, anim, mesh, DefaultDurations), DefaultDurations) == 0.0
  {
  }

  /**
   * The stamping rule uses 0 as "unset", so a draw call begun at time 0 is not
   * stamped: the first tick only records its time, and the initial delay is then
   * counted from that tick, not from the call.
   */
  lemma BeginAtZeroWaitsForStamp(later: real, anim: AnimationState, mesh: Mesh)
    requires later >= DefaultDurations.initialDelay
    ensures var r := TickAnimation(later, BeginDrawCall(0.0, anim), mesh, DefaultDurations);
      r.phase == InitialDelay && r.startTime == later
  {
  }

  /** Begun at a nonzero time, the delay ends at the first tick that is initialDelay later. */
  lemma BeginThenDelay(start: real, later: real, anim: AnimationState, mesh: Mesh, d: Durations)
    requires start != 0.0
    ensures var r := TickAnimation(later, BeginDrawCall(start, anim), mesh, d);
      (later - start >= d.initialDelay ==> r == AnimationState(VertexConstruction, 0, later, anim.hasCompletedOnce))
      && (later - start < d.initialDelay ==> r.phase == InitialDelay && r.startTime == start)
  {
  }
}
