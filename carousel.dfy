/** The three-pane swipe carousel of the swipe-li directive as a state machine
    over values: pane geometry, the offset sent to the container, the gesture
    dispatch and the queue of deferred completions. The class in directive.dfy
    performs the same transitions in place. */
module Carousel {

  /** Number of panes: accept (0), neutral (1), reject (2). */
  const PaneCount: int := 3
  const LastPane: int := PaneCount - 1
  /** Factor applied to the drag displacement when dragging outward from an edge pane. */
  const EdgeDamping: real := 0.4

  /** A pane index; the directive never holds one outside 0..2. */
  type Pane = p: int | 0 <= p < 3

  function Abs(x: real): real { if x < 0.0 then -x else x }

  function Max(a: int, b: int): int { if a < b then b else a }
  function Min(a: int, b: int): int { if a < b then a else b }

  /** Hammer's gesture direction. */
  datatype Direction = Left | Right | Up | Down

  /** The name of the attribute whose expression a completion evaluates. */
  datatype Completion = Accept | Reject

  /** The gesture types the handler switches on; `Unhandled` is any other type. */
  datatype GestureType = DragLeft | DragRight | SwipeLeft | SwipeRight | Release | Unhandled {
    predicate IsDrag() { this == DragLeft || this == DragRight }
  }

  /** What the handler reads of a Hammer event. */
  datatype Gesture = Gesture(kind: GestureType, deltaX: real, direction: Direction)

  /** Everything one directive instance owns: the captured `current_pane` and
      `pane_width`, what was last sent to the render sink (offset percent,
      animate flag, pane and container widths), the deferred completions not
      yet run (oldest first) and the callbacks already invoked (in order). */
  datatype State = State(
    pane: Pane,
    paneWidth: real,
    percent: real,
    animated: bool,
    paneCssWidth: real,
    containerWidth: real,
    pending: seq<Completion>,
    invoked: seq<Completion>)

  /** The layout invariant: widths are never negative and the sink was told to
      make every pane `paneWidth` wide and the container three panes wide. */
  predicate Valid(c: State) {
    c.paneWidth >= 0.0 && c.paneCssWidth == c.paneWidth && c.containerWidth == PaneCount as real * c.paneWidth
  }

  /** The container rests exactly on the current pane. */
  predicate AtRest(c: State) {
    c.percent == RestingOffset(c.pane)
  }

  /** Completions in the order they were scheduled: those already run, then those still queued. */
  function Timeline(c: State): seq<Completion> { c.invoked + c.pending }

  /** State of a freshly linked directive: nothing measured, nothing sent to the sink. */
  function Initial(): (c: State)
    ensures Valid(c) && c.pane == 0 && c.paneWidth == 0.0 && AtRest(c)
    ensures Timeline(c) == []
  {
    State(0, 0.0, 0.0, false, 0.0, 0.0, [], [])
  }

  // ---------------------------------------------------------------- geometry

  /** `Math.max(0, Math.min(index, pane_count - 1))`: saturates, never fails. */
  function ClampPane(index: int): (p: Pane)
    ensures 0 <= index < PaneCount ==> p == index
    ensures index < 0 ==> p == 0
    ensures index >= PaneCount ==> p == LastPane
  {
    Max(0, Min(index, LastPane))
  }

  /** Offset, in percent of the container width, at which pane `p` fills the view. */
  function RestingOffset(p: Pane): (r: real)
    ensures -200.0 / 3.0 <= r <= 0.0
    ensures r == 0.0 <==> p == 0
    ensures r == -200.0 / 3.0 <==> p == LastPane
  {
    -((100.0 / PaneCount as real) * p as real)
  }

  /** Undamped drag displacement in percent of the container for a finger
      displacement of `deltaX` pixels over panes `paneWidth` pixels wide. */
  function DragDisplacement(paneWidth: real, deltaX: real): real
    requires paneWidth > 0.0
  {
    ((100.0 / paneWidth) * deltaX) / PaneCount as real
  }

  /** Dragging further outward from the first pane (to the right) or the last (to the left). */
  predicate AtOuterEdge(p: Pane, dir: Direction) {
    (p == 0 && dir == Right) || (p == LastPane && dir == Left)
  }

  /** The edge rule: the displacement is scaled by 0.4 at an outer edge. Damping
      never lengthens the displacement nor turns it around, and it alters a
      nonzero displacement exactly at an outer edge. */
  function EdgeDamped(p: Pane, dir: Direction, d: real): (r: real)
    ensures Abs(r) <= Abs(d)
    ensures 0.0 <= r * d
    ensures d != 0.0 ==> (r != d <==> AtOuterEdge(p, dir))
  {
    if AtOuterEdge(p, dir) then d * EdgeDamping else d
  }

  /** The live offset while a finger drags from pane `p`. */
  function DragOffset(p: Pane, dir: Direction, paneWidth: real, deltaX: real): real
    requires paneWidth > 0.0
  {
    RestingOffset(p) + EdgeDamped(p, dir, DragDisplacement(paneWidth, deltaX))
  }

  /** Release navigates when the finger moved more than half a pane. */
  predicate ReleaseCommits(paneWidth: real, deltaX: real) {
    Abs(deltaX) > paneWidth / 2.0
  }

  // ----------------------------------------------------------- transitions

  /** `setContainerOffset`: only the offset and the animate flag change. */
  function SetContainerOffset(c: State, percent: real, animate: bool): (r: State)
    ensures r.percent == percent && r.animated == animate
    ensures r.pane == c.pane && r.paneWidth == c.paneWidth
    ensures r.paneCssWidth == c.paneCssWidth && r.containerWidth == c.containerWidth
    ensures r.pending == c.pending && r.invoked == c.invoked
  {
    c.(percent := percent, animated := animate)
  }

  /** `showPane`: clamp, store and come to rest on that pane. */
  function ShowPane(c: State, index: int, animate: bool): (r: State)
    ensures r.pane == Max(0, Min(index, LastPane))
    ensures AtRest(r) && -200.0 / 3.0 <= r.percent <= 0.0
    ensures r.animated == animate
    ensures r.paneWidth == c.paneWidth && r.paneCssWidth == c.paneCssWidth
    ensures r.containerWidth == c.containerWidth
    ensures r.pending == c.pending && r.invoked == c.invoked
  {
    var p := ClampPane(index);
    SetContainerOffset(c.(pane := p), RestingOffset(p), animate)
  }

  /** `setPaneDimensions` with the measured element width given. */
  function SetPaneDimensions(c: State, measured: real): (r: State)
    requires measured >= 0.0
    ensures Valid(r) && r.paneWidth == measured && r.containerWidth == 3.0 * measured
    ensures r.pane == c.pane && r.percent == c.percent && r.animated == c.animated
    ensures r.pending == c.pending && r.invoked == c.invoked
  {
    c.(paneWidth := measured, paneCssWidth := measured, containerWidth := measured * PaneCount as real)
  }

  /** `init`: measure, then show the neutral pane without animation. */
  function Init(c: State, measured: real): (r: State)
    requires measured >= 0.0
    ensures Valid(r) && r.pane == 1 && AtRest(r) && !r.animated
    ensures r.percent == -100.0 / 3.0
    ensures r.paneWidth == measured && r.containerWidth == 3.0 * r.paneWidth
    ensures r.pending == c.pending && r.invoked == c.invoked
  {
    ShowPane(SetPaneDimensions(c, measured), 1, false)
  }

  /** `onComplete`: schedules exactly one deferred action. */
  function OnComplete(c: State, t: Completion): (r: State)
    ensures r.pending == c.pending + [t] && Timeline(r) == Timeline(c) + [t]
    ensures r.(pending := c.pending) == c
  {
    c.(pending := c.pending + [t])
  }

  /** The oldest deferred action runs: back to the neutral pane, animated, then
      its callback is invoked. With nothing scheduled nothing happens. */
  function Fire(c: State): (r: State)
    ensures Timeline(r) == Timeline(c)
    ensures c.pending == [] ==> r == c
    ensures c.pending != [] ==>
      r.pane == 1 && AtRest(r) && r.animated &&
      r.invoked == c.invoked + [c.pending[0]] && r.pending == c.pending[1..]
    ensures r.paneWidth == c.paneWidth && r.paneCssWidth == c.paneCssWidth
    ensures r.containerWidth == c.containerWidth
  {
    if c.pending == [] then c
    else
      var shown := ShowPane(c, 1, true);
      shown.(pending := c.pending[1..], invoked := c.invoked + [c.pending[0]])
  }

  /** Commit to the accept pane or the reject pane and schedule its completion. */
  function Commit(c: State, t: Completion): (r: State)
    ensures r.pane == (if t == Accept then 0 else LastPane)
    ensures AtRest(r) && r.animated
    ensures r.pending == c.pending + [t] && r.invoked == c.invoked
    ensures r.paneWidth == c.paneWidth && r.paneCssWidth == c.paneCssWidth
    ensures r.containerWidth == c.containerWidth
  {
    OnComplete(ShowPane(c, if t == Accept then 0 else LastPane, true), t)
  }

  /** `handleHammer`: the gesture dispatch. A drag needs a measured pane. */
  function Handle(c: State, g: Gesture): (r: State)
    requires g.kind.IsDrag() ==> c.paneWidth > 0.0
    ensures Valid(c) ==> Valid(r)
    ensures r.paneWidth == c.paneWidth && r.invoked == c.invoked
    ensures r.paneCssWidth == c.paneCssWidth && r.containerWidth == c.containerWidth
    // drag: follow the finger, damped at the outer edges, never animated
    ensures g.kind.IsDrag() ==>
      r.pane == c.pane && !r.animated && r.pending == c.pending &&
      r.percent == RestingOffset(c.pane) + EdgeDamped(c.pane, g.direction, DragDisplacement(c.paneWidth, g.deltaX))
    // swipe: commit at once
    ensures g.kind == SwipeLeft ==>
      r.pane == LastPane && AtRest(r) && r.animated && r.pending == c.pending + [Reject]
    ensures g.kind == SwipeRight ==>
      r.pane == 0 && AtRest(r) && r.animated && r.pending == c.pending + [Accept]
    // release: commit past half a pane, otherwise settle back animated
    ensures g.kind == Release && ReleaseCommits(c.paneWidth, g.deltaX) ==>
      AtRest(r) && r.animated &&
      (if g.direction == Right then r.pane == 0 && r.pending == c.pending + [Accept]
       else r.pane == LastPane && r.pending == c.pending + [Reject])
    ensures g.kind == Release && !ReleaseCommits(c.paneWidth, g.deltaX) ==>
      r == c.(percent := RestingOffset(c.pane), animated := true)
    ensures g.kind == Unhandled ==> r == c
  {
    match g.kind
    case DragLeft | DragRight =>
      SetContainerOffset(c, DragOffset(c.pane, g.direction, c.paneWidth, g.deltaX), false)
    case SwipeLeft => Commit(c, Reject)
    case SwipeRight => Commit(c, Accept)
    case Release =>
      if ReleaseCommits(c.paneWidth, g.deltaX) then
        if g.direction == Right then Commit(c, Accept) else Commit(c, Reject)
      else ShowPane(c, c.pane, true)
    case Unhandled => c
  }

  // ------------------------------------------------------ properties of drag

  /** Damping never increases the displacement of the container. */
  lemma DampingNeverIncreases(p: Pane, dir: Direction, w: real, deltaX: real)
    requires w > 0.0
    ensures Abs(DragOffset(p, dir, w, deltaX) - RestingOffset(p)) <= Abs(DragDisplacement(w, deltaX))
  {
  }

  /** The container sticks to the finger: away from an outer edge, dragging one
      whole pane width moves the offset exactly onto the neighbouring pane. */
  lemma DragOnePaneReachesNeighbour(p: Pane, w: real)
    requires w > 0.0
    ensures p < LastPane ==> DragOffset(p, Left, w, -w) == RestingOffset(p + 1)
    ensures p > 0 ==> DragOffset(p, Right, w, w) == RestingOffset(p - 1)
  {
  }

  /** The live offset moves with the finger: a larger `deltaX` never gives a smaller offset. */
  lemma DragOffsetMonotone(p: Pane, dir: Direction, w: real, dx1: real, dx2: real)
    requires w > 0.0 && dx1 <= dx2
    ensures DragOffset(p, dir, w, dx1) <= DragOffset(p, dir, w, dx2)
  {
  }

  /** Undamped, a release navigates exactly when the live offset had moved more
      than half a pane (50/3 percent) away from the resting offset. */
  lemma ReleaseThresholdIsHalfAPane(p: Pane, dir: Direction, w: real, deltaX: real)
    requires w > 0.0 && !AtOuterEdge(p, dir)
    ensures ReleaseCommits(w, deltaX) <==> Abs(DragOffset(p, dir, w, deltaX) - RestingOffset(p)) > 50.0 / 3.0
  {
  }

  // ------------------------------------------------------------ event runs

  /** What reaches a linked directive: a Hammer gesture, a window resize
      (re-measuring the element), or the settle timer firing. */
  datatype Event = Hammer(g: Gesture) | Resize(width: real) | Timeout

  /** Every measurement in the run found a laid-out element. */
  predicate LaidOut(evs: seq<Event>) {
    forall i :: 0 <= i < |evs| ==> evs[i].Resize? ==> evs[i].width > 0.0
  }

  function Step(c: State, e: Event): (r: State)
    requires c.paneWidth > 0.0
    requires e.Resize? ==> e.width > 0.0
    ensures r.paneWidth > 0.0
  {
    match e
    case Hammer(g) => Handle(c, g)
    case Resize(w) => SetPaneDimensions(c, w)
    case Timeout => Fire(c)
  }

  /** The state after the events, in order, starting from a measured layout. */
  function Run(c: State, evs: seq<Event>): (r: State)
    requires c.paneWidth > 0.0 && LaidOut(evs)
    ensures r.paneWidth > 0.0
    decreases |evs|
  {
    if evs == [] then c else Run(Step(c, evs[0]), evs[1..])
  }

  function Timeouts(n: nat): (evs: seq<Event>)
    ensures |evs| == n && LaidOut(evs)
  {
    if n == 0 then [] else [Timeout] + Timeouts(n - 1)
  }

  /** Every event sequence keeps the layout invariant. */
  lemma {:induction false} RunKeepsValid(c: State, evs: seq<Event>)
    requires c.paneWidth > 0.0 && LaidOut(evs) && Valid(c)
    ensures Valid(Run(c, evs))
    decreases |evs|
  {
    if evs != [] {
      RunKeepsValid(Step(c, evs[0]), evs[1..]);
    }
  }

  /** Completions are never lost, duplicated or reordered: the scheduled
      sequence only grows, by at most one per event, and the callbacks already
      invoked stay invoked in the same order. */
  lemma {:induction false} RunExtendsTimeline(c: State, evs: seq<Event>)
    requires c.paneWidth > 0.0 && LaidOut(evs)
    ensures Timeline(c) <= Timeline(Run(c, evs))
    ensures c.invoked <= Run(c, evs).invoked
    ensures |Timeline(Run(c, evs))| <= |Timeline(c)| + |evs|
    decreases |evs|
  {
    if evs != [] {
      var s := Step(c, evs[0]);
      assert Timeline(c) <= Timeline(s) && c.invoked <= s.invoked && |Timeline(s)| <= |Timeline(c)| + 1 by {
        match evs[0]
        case Hammer(g) =>
          assert Timeline(s) == Timeline(c) || Timeline(s) == Timeline(c) + [s.pending[|s.pending| - 1]];
        case Resize(w) =>
        case Timeout =>
      }
      RunExtendsTimeline(s, evs[1..]);
    }
  }

  /** Every scheduled action fires, oldest first. */
  function Drain(c: State): State
    decreases |c.pending|
  {
    if c.pending == [] then c else Drain(Fire(c))
  }

  /** Exactly once: letting every scheduled action fire invokes each pending
      callback once, in scheduling order, and leaves the carousel resting on
      the neutral pane, whatever the pane width. */
  lemma {:induction false} DrainInvokesEachOnce(c: State)
    ensures Drain(c).invoked == c.invoked + c.pending
    ensures Drain(c).pending == []
    ensures c.pending != [] ==> Drain(c).pane == 1 && AtRest(Drain(c)) && Drain(c).animated
    ensures Drain(c).paneWidth == c.paneWidth
    decreases |c.pending|
  {
    if c.pending != [] {
      var s := Fire(c);
      DrainInvokesEachOnce(s);
      assert c.invoked + c.pending == s.invoked + s.pending;
    }
  }

  /** A run of one timer firing per pending action is the drain. */
  lemma {:induction false} TimeoutsDrain(c: State)
    requires c.paneWidth > 0.0
    ensures Run(c, Timeouts(|c.pending|)) == Drain(c)
    decreases |c.pending|
  {
    if c.pending != [] {
      var evs := Timeouts(|c.pending|);
      var s := Fire(c);
      assert evs[0] == Timeout && evs[1..] == Timeouts(|s.pending|);
      TimeoutsDrain(s);
    }
  }

  // ----------------------------------------------------- worked scenarios

  /** A 300-pixel pane: dragging 80 pixels right from the neutral pane gives an
      offset of -220/9 percent (about -24.44), not animated, with nothing scheduled. */
  lemma DragScenario(c: State)
    requires c.pane == 1 && c.paneWidth == 300.0
    ensures Handle(c, Gesture(DragRight, 80.0, Right)).percent == -220.0 / 9.0
    ensures Handle(c, Gesture(DragRight, 80.0, Right)).pending == c.pending
  {
  }

  /** Releasing 160 pixels to the right of a 300-pixel pane commits to accept;
      when the timer fires the carousel is back on the neutral pane and the
      accept callback has run once. */
  lemma ReleaseScenario(c: State)
    requires c.paneWidth == 300.0 && c.pending == []
    ensures Handle(c, Gesture(Release, 160.0, Right)).pane == 0
    ensures Run(c, [Hammer(Gesture(Release, 160.0, Right)), Timeout]).pane == 1
    ensures Run(c, [Hammer(Gesture(Release, 160.0, Right)), Timeout]).invoked == c.invoked + [Accept]
    ensures Run(c, [Hammer(Gesture(Release, 160.0, Right)), Timeout]).pending == []
  {
  }
}
