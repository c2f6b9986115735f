/** The swipe-li directive instance: the variables its link function captures
    (`current_pane`, `pane_width`), the render sink it writes (container offset,
    animate class, pane and container widths), the settle timers it has
    scheduled and the attribute callbacks those timers have evaluated. Every
    method updates the fields in place and ends in the state the matching
    Carousel transition describes. */
module SwipeLi {
  import opened Carousel

  class Directive {
    var currentPane: Pane
    var paneWidth: real
    /** Offset last written to the container's transform, in percent. */
    var percent: real
    /** Whether the container carries the `animate` class. */
    var animated: bool
    var paneCssWidth: real
    var containerWidth: real
    /** Settle timers scheduled and not yet fired, oldest first. */
    var pending: seq<Completion>
    /** Callbacks evaluated by fired timers, in order. */
    var invoked: seq<Completion>

    /** The instance as a Carousel value. */
    function Model(): State
      reads this
    {
      State(currentPane, paneWidth, percent, animated, paneCssWidth, containerWidth, pending, invoked)
    }

    ghost predicate Valid()
      reads this
    {
      Carousel.Valid(Model())
    }

    /** Linking the directive: `current_pane = 0`, `pane_width = 0`. */
    constructor ()
      ensures Model() == Initial() && Valid()
    {
      currentPane, paneWidth := 0, 0.0;
      percent, animated := 0.0, false;
      paneCssWidth, containerWidth := 0.0, 0.0;
      pending, invoked := [], [];
    }

    method SetContainerOffset(p: real, animate: bool)
      modifies this
      ensures Model() == Carousel.SetContainerOffset(old(Model()), p, animate)
      ensures old(Valid()) ==> Valid()
      ensures percent == p && animated == animate
      ensures currentPane == old(currentPane) && paneWidth == old(paneWidth)
      ensures pending == old(pending) && invoked == old(invoked)
    {
      animated := false;
      if animate {
        animated := true;
      }
      percent := p;
    }

    method ShowPane(index: int, animate: bool)
      modifies this
      ensures Model() == Carousel.ShowPane(old(Model()), index, animate)
      ensures old(Valid()) ==> Valid()
      ensures currentPane == ClampPane(index) && percent == RestingOffset(currentPane)
      ensures animated == animate && pending == old(pending) && paneWidth == old(paneWidth)
    {
      var i := Max(0, Min(index, PaneCount - 1));
      currentPane := i;
      var offset := -((100.0 / PaneCount as real) * currentPane as real);
      SetContainerOffset(offset, animate);
    }

    /** `setPaneDimensions`, given the element's measured width. */
    method SetPaneDimensions(measured: real)
      requires measured >= 0.0
      modifies this
      ensures Model() == Carousel.SetPaneDimensions(old(Model()), measured)
      ensures Valid() && paneWidth == measured && containerWidth == 3.0 * measured
      ensures currentPane == old(currentPane) && percent == old(percent)
    {
      paneWidth := measured;
      paneCssWidth := paneWidth;
      containerWidth := paneWidth * PaneCount as real;
    }

    method Init(measured: real)
      requires measured >= 0.0
      modifies this
      ensures Model() == Carousel.Init(old(Model()), measured)
      ensures Valid() && currentPane == 1 && !animated && percent == -100.0 / 3.0
      ensures containerWidth == 3.0 * paneWidth
    {
      SetPaneDimensions(measured);
      ShowPane(1, false);
    }

    /** `onComplete`: schedule one settle timer. */
    method OnComplete(t: Completion)
      modifies this
      ensures Model() == Carousel.OnComplete(old(Model()), t)
      ensures old(Valid()) ==> Valid()
      ensures pending == old(pending) + [t] && currentPane == old(currentPane)
    {
      pending := pending + [t];
    }

    /** The oldest settle timer fires: show the neutral pane, then evaluate its
        callback. Returns the callback run, if a timer was scheduled. */
    method FireTimer() returns (ran: Option<Completion>)
      modifies this
      ensures Model() == Fire(old(Model()))
      ensures old(Valid()) ==> Valid()
      ensures old(pending) == [] ==> ran == None
      ensures old(pending) != [] ==>
        ran == Some(old(pending)[0]) && invoked == old(invoked) + [old(pending)[0]] && currentPane == 1
    {
      if pending == [] {
        return None;
      }
      var t := pending[0];
      pending := pending[1..];
      ShowPane(1, true);
      invoked := invoked + [t];
      ran := Some(t);
    }

    method HandleHammer(g: Gesture)
      requires g.kind.IsDrag() ==> paneWidth > 0.0
      modifies this
      ensures Model() == Handle(old(Model()), g)
      ensures old(Valid()) ==> Valid()
      ensures g.kind.IsDrag() ==> currentPane == old(currentPane) && !animated
      ensures g.kind == SwipeLeft ==> currentPane == LastPane && pending == old(pending) + [Reject]
      ensures g.kind == SwipeRight ==> currentPane == 0 && pending == old(pending) + [Accept]
    {
      ghost var before := Model();
      match g.kind {
        case DragLeft | DragRight =>
          var paneOffset := -(100.0 / PaneCount as real) * currentPane as real;
          var dragOffset := ((100.0 / paneWidth) * g.deltaX) / PaneCount as real;
          assert paneOffset == RestingOffset(currentPane);
          assert dragOffset == DragDisplacement(paneWidth, g.deltaX);
          if (currentPane == 0 && g.direction == Right) || (currentPane == PaneCount - 1 && g.direction == Left) {
            dragOffset := dragOffset * EdgeDamping;
          }
          assert dragOffset + paneOffset == DragOffset(currentPane, g.direction, paneWidth, g.deltaX);
          SetContainerOffset(dragOffset + paneOffset, false);
          assert Model() == Handle(before, g);
        case SwipeLeft =>
          ShowPane(2, true);
          OnComplete(Reject);
          assert Model() == Commit(before, Reject) == Handle(before, g);
        case SwipeRight =>
          ShowPane(0, true);
          OnComplete(Accept);
          assert Model() == Commit(before, Accept) == Handle(before, g);
        case Release =>
          if Abs(g.deltaX) > paneWidth / 2.0 {
            if g.direction == Right {
              ShowPane(0, true);
              OnComplete(Accept);
              assert Model() == Commit(before, Accept) == Handle(before, g);
            } else {
              ShowPane(2, true);
              OnComplete(Reject);
              assert Model() == Commit(before, Reject) == Handle(before, g);
            }
          } else {
            ShowPane(currentPane, true);
            assert Model() == Carousel.ShowPane(before, before.pane, true) == Handle(before, g);
          }
        case Unhandled =>
      }
    }
  }

  datatype Option<T> = None | Some(value: T)
}
