# swipe-li carousel core in Dafny

The swipe-li directive turns a list item into a three-pane carousel. Pane 0 is accept, pane 1 is neutral and pane 2 is reject. The user drags the item, swipes it, or releases it after a drag. A drag makes the container follow the finger, with damping at the edge panes. A swipe commits at once. A release commits when the finger moved more than half a pane width, and otherwise settles back. A commit shows the accept or reject pane. 300 ms later a deferred action returns the carousel to the neutral pane and evaluates the item's `accept` or `reject` attribute.

This project models that core in two modules:

- `Carousel` (carousel.dfy) describes the directive's state as a value (`State`). It holds:
  - the captured `current_pane` and `pane_width`;
  - what was last sent to the render sink: the container offset in percent, the animate flag, and the pane and container widths;
  - the queue of settle timers not yet fired;
  - the log of callbacks already evaluated.

  Each operation of the directive is a function on that value. The lemmas cover drag geometry, the release threshold and event runs. An event run is a sequence of gestures, resizes and timer firings.
- `SwipeLi` (directive.dfy) holds the class `Directive`. Its fields are those variables, and its methods update them in place in the source's own order. For example, `HandleHammer` calls `ShowPane`, which calls `SetContainerOffset`. Every method ensures that its new state is the matching `Carousel` function applied to its old state. It also states the key facts directly.

Arithmetic uses exact `real`. The offset formulas are those of the source: `-(100/3)·pane`, and `(100/paneWidth)·deltaX/3` for a drag.

`src/swipe-li.js` reacts only to Hammer's `dragleft`, `dragright`, `swipeleft`, `swiperight` and `release` events (line 134). It commits a release when `|deltaX| > pane_width / 2` (line 111). It keeps handling gestures during the 300 ms settle delay, so a second commit in that window schedules a second completion.

## Model

| member | source | states |
|---|---|---|
| Carousel.Initial | src/swipe-li.js:33-35 | a freshly linked directive is on pane 0 with width 0 and nothing scheduled or invoked |
| SwipeLi.Directive.constructor | src/swipe-li.js:33-35 | the fields start in the `Initial` state, which satisfies the layout invariant |
| Carousel.ClampPane | src/swipe-li.js:59 | in-range indices are kept; negative indices saturate to 0 and indices ≥ 3 to 2, never failing |
| Carousel.RestingOffset | src/swipe-li.js:62 | the resting offset lies in [-200/3, 0]; it is 0 exactly for pane 0 and -200/3 exactly for pane 2 |
| Carousel.ShowPane | src/swipe-li.js:57-64 | the pane becomes max(0, min(index, 2)); the container rests on it within [-200/3, 0] with the given animate flag; widths and timers are unchanged |
| SwipeLi.Directive.ShowPane | src/swipe-li.js:57-64 | in place, keeping the layout invariant: `currentPane == ClampPane(index)`, offset is its resting offset, animate flag passed through, timers and width unchanged |
| Carousel.SetContainerOffset | src/swipe-li.js:66-73 | only the offset and the animate flag change; pane, widths, timers and callbacks are unchanged |
| SwipeLi.Directive.SetContainerOffset | src/swipe-li.js:66-73 | in place, keeping the layout invariant: the offset and animate class are set; `currentPane`, `paneWidth` and the timers are unchanged |
| Carousel.SetPaneDimensions | src/swipe-li.js:48-54 | the pane width becomes the measured width, each pane is sized to it and the container to three times it; pane and offset are unchanged |
| SwipeLi.Directive.SetPaneDimensions | src/swipe-li.js:48-54 | in place: the same, and the layout invariant holds afterwards |
| Carousel.Init | src/swipe-li.js:37-45 | after init the carousel rests on pane 1 at -100/3 without animation, and the container width is 3 × the pane width |
| SwipeLi.Directive.Init | src/swipe-li.js:37-45 | in place: `currentPane == 1`, no animation, container 3 × pane width |
| Carousel.OnComplete | src/swipe-li.js:21-26 | exactly one deferred action is appended; nothing else changes |
| SwipeLi.Directive.OnComplete | src/swipe-li.js:21-26 | in place, keeping the layout invariant: one timer is appended to `pending`; the pane is unchanged |
| Carousel.Fire | src/swipe-li.js:22-25 | the oldest deferred action moves from pending to invoked (the timeline is unchanged), the carousel rests on pane 1 animated; with nothing scheduled nothing changes |
| SwipeLi.Directive.FireTimer | src/swipe-li.js:22-25 | in place, keeping the layout invariant: returns the callback it ran, appends it to `invoked` and leaves `currentPane == 1`; returns None when nothing was scheduled |
| Carousel.EdgeDamped | src/swipe-li.js:88-92 | the damped displacement is never longer than the undamped one and has the same sign; a nonzero displacement changes exactly when dragging outward from pane 0 (right) or pane 2 (left) |
| Carousel.Commit | src/swipe-li.js:97-107 | commit to accept rests on pane 0 and commit to reject on pane 2, animated, with exactly one completion of that type scheduled |
| Carousel.Handle | src/swipe-li.js:76-124 | pane width, pane and container widths and invoked callbacks are unchanged; drag: pane and timers unchanged, no animation, offset = resting offset + edge-damped (100/w)·deltaX/3; swipeleft → pane 2 + reject; swiperight → pane 0 + accept; release past w/2 → right gives pane 0 + accept, any other direction pane 2 + reject; release within w/2 → same pane, resting offset re-applied with animation, nothing scheduled; other types change nothing; the layout invariant is kept |
| SwipeLi.Directive.HandleHammer | src/swipe-li.js:76-124 | in place, keeping the layout invariant: the state after is `Handle` of the state before; a drag keeps the pane and turns animation off; the swipes set pane 2/0 and append reject/accept |
| Carousel.DampingNeverIncreases | src/swipe-li.js:85-94 | the live drag offset is never further from the resting offset than the undamped displacement |
| Carousel.DragOnePaneReachesNeighbour | src/swipe-li.js:84-94 | away from an outer edge, dragging one full pane width lands exactly on the neighbouring pane's resting offset |
| Carousel.DragOffsetMonotone | src/swipe-li.js:84-94 | the live offset is non-decreasing in deltaX |
| Carousel.ReleaseThresholdIsHalfAPane | src/swipe-li.js:109-111 | away from an outer edge, a release commits exactly when the live drag offset had moved more than 50/3 percent (half a pane) from rest |
| Carousel.Step | src/swipe-li.js:42-44 | a gesture, a resize with a laid-out element, or a timer firing keeps the pane width positive |
| Carousel.RunKeepsValid | src/swipe-li.js:42-54 | any sequence of gestures, resizes and timer firings keeps the pane and container widths consistent with the pane width |
| Carousel.RunExtendsTimeline | src/swipe-li.js:21-26 | over any event sequence, scheduled completions are never lost, duplicated or reordered, invoked callbacks stay invoked, and each event schedules at most one completion |
| Carousel.DrainInvokesEachOnce | src/swipe-li.js:21-26 | firing every pending timer, at any pane width, invokes each scheduled callback exactly once, in order, and leaves the carousel resting on pane 1, animated |
| Carousel.TimeoutsDrain | src/swipe-li.js:21-26 | an event run of one timer firing per pending action ends in exactly the drained state |
| Carousel.DragScenario | src/swipe-li.js:82-94 | with 300-pixel panes, dragging 80 pixels right from pane 1 gives offset -220/9 (≈ -24.44) and schedules nothing |
| Carousel.ReleaseScenario | src/swipe-li.js:110-118 | with 300-pixel panes, releasing 160 pixels right goes to pane 0; after the timer fires the carousel is on pane 1 and accept was invoked once |

## Left out

- Hammer.js registration, the event subscription and unregistering on `$destroy` are left out, because they are wiring into the gesture library. A gesture is an input value (type, deltaX, direction).
- `preventDefault()` and `stopDetect()` on the gesture are left out, because they are calls into the gesture library. `stopDetect()` (lines 100 and 106) ends Hammer's gesture, so the `release` that would follow a swipe never reaches the handler. Event runs are therefore a superset of what Hammer delivers, and the run lemmas cover more sequences than the source can see.
- DOM measurement (`offsetWidth`) is a parameter (`measured`). The CSS strings and the `animate` class become the recorded values `percent`, `animated`, `paneCssWidth` and `containerWidth`. Before init nothing has been written, and the model shows that as offset 0, no animation and widths 0.
- The window `load resize orientationchange` listener is not modelled as a listener. Its effect is the `Resize` event of an event run.
- `$timeout` timing is not modelled. The 300 ms timers form a FIFO queue, because all of them have the same delay. A timer firing is the `Timeout` event. `scope.$apply(iAttrs[type])` is modelled as appending the completion type to the `invoked` log, because the attribute expressions are application code.
- JavaScript double arithmetic is replaced by exact reals. Negative measured widths cannot occur and are excluded.
- Carousel.Handle and SwipeLi.Directive.HandleHammer require a positive pane width for drag gestures, because JavaScript would produce an Infinity or NaN offset there. Swipe and release are modelled for every width.
- Carousel.Run requires the starting state and every resize in the run to have a positive width, because a drag needs one.
- Index arguments to `showPane` are integers. The source only ever passes 0, 1, 2 or `current_pane`.
