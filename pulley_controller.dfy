/**
  JKPulleyViewController: the drawer state machine. The controller keeps
  the current status, the last drag offset and whether the drawer may be
  dragged, and drives the scroll surface's offset and the dimming overlay
  from them. Views are reduced to the numbers the controller reads and
  writes; the drawer delegate is a log of the calls it receives.
 */
module PulleyController {
  import opened CoreGraphics
  import opened PulleyStatus
  import opened PulleyGeometry
  import opened PulleyResolver
  import PulleyScrollView

  /** A call the drawer delegate receives. Nil progress stands for NaN. */
  datatype DelegateEvent = DidChangeStatus(status: Status) | DraggingProgress(progress: Optional<real>)

  /** UIGestureRecognizer.State. */
  datatype GestureState = Possible | Began | Changed | Ended | Cancelled | Failed

  /** The two views a touch outside the drawer can be handed to. */
  datatype TouchSurface = DimmingSurface | ContentContainerSurface

  /** Everything except the configuration and the delegate log, for comparing states. */
  datatype ControllerState = ControllerState(
    viewport: Viewport,
    currentStatus: Optional<Status>,
    lastContentOffset: Point,
    drawerShouldScroll: bool,
    contentContainerFrame: Rect,
    scrollFrame: Rect,
    contentOffset: Point,
    contentSize: Size,
    drawerContainerFrame: Rect,
    dimming: DimmingView)

  class PulleyViewController {
    // Configuration, set by the embedding application.
    var hasContentDataSource: bool
    var drawerDataSource: Optional<DrawerHeights>
    var hasDrawerDelegate: bool
    var supportedStatus: Status
    var drawerExpandTopInset: real
    var dimmingOpacity: real

    // The view's size and safe-area insets, supplied by the platform.
    var viewport: Viewport

    // The controller's own state.
    var currentStatus: Optional<Status>
    var lastContentOffset: Point
    var drawerShouldScroll: bool

    // Geometry of the views the controller manages.
    var contentContainerFrame: Rect
    var scrollFrame: Rect
    var contentOffset: Point
    var contentSize: Size
    var drawerContainerFrame: Rect
    var dimming: DimmingView

    // Calls made to the drawer delegate, oldest first.
    var events: seq<DelegateEvent>

    /**
      init(contentDataSource:drawerDataSource:) followed by viewDidLoad:
      default configuration, every container the size of the view, the
      overlay transparent but taking touches, no status yet.
     */
    constructor (drawer: DrawerHeights, vp: Viewport)
      ensures hasContentDataSource && drawerDataSource == Some(drawer) && !hasDrawerDelegate
      ensures supportedStatus == {Closed, PartiallyExpand, Expand}
      ensures drawerExpandTopInset == 20.0 && dimmingOpacity == 0.5
      ensures viewport == vp && currentStatus == Nil
      ensures lastContentOffset == ZeroPoint && !drawerShouldScroll
      ensures contentContainerFrame == ViewBounds(vp) && drawerContainerFrame == ViewBounds(vp) && scrollFrame == ViewBounds(vp)
      ensures contentOffset == ZeroPoint && contentSize == Size(0.0, 0.0)
      ensures dimming == DimmingView(0.0, true, ZeroRect)
      ensures events == []
    {
      hasContentDataSource := true;
      drawerDataSource := Some(drawer);
      hasDrawerDelegate := false;
      supportedStatus := {Closed, PartiallyExpand, Expand};
      drawerExpandTopInset := 20.0;
      dimmingOpacity := 0.5;
      viewport := vp;
      currentStatus := Nil;
      lastContentOffset := ZeroPoint;
      drawerShouldScroll := false;
      contentContainerFrame := ViewBounds(vp);
      drawerContainerFrame := ViewBounds(vp);
      scrollFrame := ViewBounds(vp);
      contentOffset := ZeroPoint;
      contentSize := Size(0.0, 0.0);
      dimming := DimmingView(0.0, true, ZeroRect);
      events := [];
    }

    static function ViewBounds(vp: Viewport): Rect {
      Rect(ZeroPoint, Size(vp.width, vp.height))
    }

    function Snapshot(): ControllerState
      reads this
    {
      ControllerState(viewport, currentStatus, lastContentOffset, drawerShouldScroll, contentContainerFrame,
                      scrollFrame, contentOffset, contentSize, drawerContainerFrame, dimming)
    }

    function DrawerClosedHeight(): real
      reads this
    {
      ClosedHeight(drawerDataSource)
    }

    function DrawerPartiallyExpandHeight(): real
      reads this
    {
      PartiallyExpandHeight(drawerDataSource)
    }

    function DrawerExpandHeight(): real
      reads this
    {
      ExpandHeight(drawerDataSource)
    }

    /** The scroll surface's height (its bounds and frame have the same size). */
    function ScrollHeight(): real
      reads this
    {
      scrollFrame.size.height
    }

    /** The visible drawer height update(status:animated:) moves to. */
    function StopHeight(status: Status): real
      reads this
    {
      StopFor(status, DrawerClosedHeight(), DrawerPartiallyExpandHeight(), DrawerExpandHeight(), ScrollHeight())
    }

    function Metrics(): DimmingMetrics
      reads this
    {
      DimmingMetrics(viewport.safeBottom, DrawerClosedHeight(), DrawerPartiallyExpandHeight(), ScrollHeight(), dimmingOpacity)
    }

    function SpaceToDrag(): real
      reads this
    {
      ScrollHeight() - viewport.safeTop - DrawerClosedHeight()
    }

    /** A delegate call is recorded only when a delegate is attached. */
    function Notify(e: DelegateEvent): seq<DelegateEvent>
      reads this
    {
      if hasDrawerDelegate then [e] else []
    }

    /** What scrollViewDidScroll reports at a given offset. */
    function ScrollEvents(offsetY: real): seq<DelegateEvent>
      reads this
    {
      Notify(DraggingProgress(ReportedDragProgress(offsetY, SpaceToDrag())))
    }

    /** The drawer's top edge in the controller's view. */
    function DrawerTopOnScreen(): real
      reads this
    {
      scrollFrame.origin.y + drawerContainerFrame.origin.y - contentOffset.y
    }

    /** updateDrawerDraggingProgress: report the (rounded) drag progress to the delegate. */
    method UpdateDrawerDraggingProgress()
      modifies this`events
      ensures events == old(events) + ScrollEvents(contentOffset.y)
    {
      var closed := DrawerClosedHeight();
      var spaceToDrag := scrollFrame.size.height - viewport.safeTop - closed;
      var progress := ReportedDragProgress(contentOffset.y, spaceToDrag);
      if hasDrawerDelegate {
        events := events + [DraggingProgress(progress)];
      }
    }

    /** updateDimmingViewAlpha: apply the dimming rule at the current offset. */
    method UpdateDimmingViewAlpha()
      modifies this`dimming
      ensures dimming == DimmingAfterScroll(old(dimming), contentOffset.y, Metrics())
    {
      var closed := DrawerClosedHeight();
      var partial := DrawerPartiallyExpandHeight();
      if contentOffset.y - viewport.safeBottom > partial - closed {
        var progress: real;
        var fullRevealHeight := scrollFrame.size.height;
        if fullRevealHeight == partial {
          progress := 1.0;
        } else {
          progress := (contentOffset.y - (partial - closed)) / (fullRevealHeight - partial);
        }
        dimming := dimming.(alpha := progress * dimmingOpacity, interactive := true);
      } else if dimming.alpha >= AlphaResetThreshold {
        dimming := dimming.(alpha := 0.0, interactive := false);
      }
      dimming := dimming.(frame := DimmingFrameForDrawer(dimming.frame, contentOffset.y + closed));
    }

    /** scrollViewDidScroll: progress first, then the overlay; other scroll views are ignored. */
    method ScrollViewDidScroll(isDrawerScrollView: bool)
      modifies this`events, this`dimming
      ensures !isDrawerScrollView ==> events == old(events) && dimming == old(dimming)
      ensures isDrawerScrollView ==> events == old(events) + ScrollEvents(contentOffset.y)
      ensures isDrawerScrollView ==> dimming == DimmingAfterScroll(old(dimming), contentOffset.y, Metrics())
    {
      if !isDrawerScrollView {
        return;
      }
      UpdateDrawerDraggingProgress();
      UpdateDimmingViewAlpha();
    }

    /** Assigning the scroll surface's contentOffset, which calls scrollViewDidScroll at once. */
    method SetContentOffset(p: Point)
      modifies this`contentOffset, this`events, this`dimming
      ensures contentOffset == p
      ensures events == old(events) + ScrollEvents(p.y)
      ensures dimming == DimmingAfterScroll(old(dimming), p.y, Metrics())
    {
      contentOffset := p;
      ScrollViewDidScroll(true);
    }

    /**
      update(status:animated:): commit a status and move the drawer to its
      stop. The delegate hears of the status before the offset moves, even
      when the status is unchanged; animated and instant updates end in the
      same geometry.
     */
    method Update(status: Status, animated: bool)
      modifies this`currentStatus, this`contentOffset, this`events, this`dimming
      ensures currentStatus == Some(status)
      ensures contentOffset == Point(0.0, StopHeight(status) - DrawerClosedHeight())
      ensures dimming.frame == DimmingFrameForDrawer(old(dimming.frame), StopHeight(status))
      ensures dimming == DimmingAfterScroll(old(dimming), contentOffset.y, Metrics())
      ensures events == old(events) + Notify(DidChangeStatus(status)) + ScrollEvents(contentOffset.y)
    {
      var stopToMoveTo: real;
      var minimumHeight := DrawerClosedHeight();
      if Closed in status {
        stopToMoveTo := minimumHeight;
      } else if PartiallyExpand in status {
        stopToMoveTo := DrawerPartiallyExpandHeight();
      } else if Expand in status {
        if DrawerExpandHeight() > 0.0 {
          stopToMoveTo := DrawerExpandHeight();
        } else {
          stopToMoveTo := scrollFrame.size.height;
        }
      } else {
        stopToMoveTo := 0.0;
      }
      currentStatus := Some(status);
      if hasDrawerDelegate {
        events := events + [DidChangeStatus(status)];
      }
      // With or without animation the same two assignments are made; an
      // animation is modelled by the state it ends in.
      SetContentOffset(Point(0.0, stopToMoveTo - minimumHeight));
      dimming := dimming.(frame := DimmingFrameForDrawer(dimming.frame, stopToMoveTo));
    }

    /**
      The scan at the heart of newStatusFrom: walk the stops in order, a
      stop replacing the closest one so far only when strictly nearer the
      target.
     */
    static method ScanForClosestStop(drawerStops: seq<real>, distanceFromBottomOfView: real, lowestStop: real)
      returns (currentClosestStop: real)
      ensures currentClosestStop == Closest(drawerStops, distanceFromBottomOfView, lowestStop)
    {
      currentClosestStop := lowestStop;
      for i := 0 to |drawerStops|
        invariant Closest(drawerStops[i..], distanceFromBottomOfView, currentClosestStop)
               == Closest(drawerStops, distanceFromBottomOfView, lowestStop)
      {
        var currentStop := drawerStops[i];
        assert drawerStops[i..][1..] == drawerStops[i + 1..];
        if Abs(currentStop - distanceFromBottomOfView) < Abs(currentClosestStop - distanceFromBottomOfView) {
          currentClosestStop := currentStop;
        }
      }
      assert drawerStops[|drawerStops|..] == [];
    }

    /**
      newStatusFrom: list the supported stops, find the one nearest
      lowest + offset.y, and map the winner back to a state.
     */
    method NewStatusFrom(currentStatus: Status, lastContentOffset: Point, supportedStatus: Status) returns (r: Status)
      requires HasStop(supportedStatus)
      ensures r == Resolve(currentStatus, lastContentOffset.y, supportedStatus,
                           DrawerClosedHeight(), DrawerPartiallyExpandHeight(), ScrollHeight())
      ensures (r == {Closed} || r == {PartiallyExpand} || r == {Expand}) && r <= supportedStatus
    {
      var closed, partial, scrollHeight := DrawerClosedHeight(), DrawerPartiallyExpandHeight(), scrollFrame.size.height;
      var drawerStops := DrawerStops(supportedStatus, closed, partial, scrollHeight);
      var lowestStop := Lowest(drawerStops);
      var distanceFromBottomOfView := lowestStop + lastContentOffset.y;
      var cloestValidDrawerStatus := currentStatus;
      var currentClosestStop := ScanForClosestStop(drawerStops, distanceFromBottomOfView, lowestStop);
      if Abs(currentClosestStop - scrollHeight) == 0.0 && Expand in supportedStatus {
        cloestValidDrawerStatus := {Expand};
      } else if Abs(currentClosestStop - closed) == 0.0 && Closed in supportedStatus {
        cloestValidDrawerStatus := {Closed};
      } else if PartiallyExpand in supportedStatus {
        cloestValidDrawerStatus := {PartiallyExpand};
      }
      r := cloestValidDrawerStatus;
      assert r == StateOfStop(currentClosestStop, currentStatus, supportedStatus, closed, scrollHeight);
      ResolveOfScannedStop(currentStatus, lastContentOffset.y, supportedStatus, closed, partial, scrollHeight, currentClosestStop);
    }

    /**
      A drawer left where update(status:animated:) put it, with the closed
      state supported, strictly increasing stops and no positive expanded
      height, snaps back to the same state when a drag ends without moving it.
     */
    lemma UpdatedStatusIsStable(current: Status, f: Flag)
      requires Closed in supportedStatus && f in supportedStatus * DrawerStates
      requires DrawerClosedHeight() < DrawerPartiallyExpandHeight() < ScrollHeight() && DrawerExpandHeight() <= 0.0
      ensures Resolve(current, StopHeight({f}) - DrawerClosedHeight(), supportedStatus,
                      DrawerClosedHeight(), DrawerPartiallyExpandHeight(), ScrollHeight()) == {f}
    {
      var closed, partial, scrollHeight := DrawerClosedHeight(), DrawerPartiallyExpandHeight(), ScrollHeight();
      StopForFollowsPriority({f}, closed, partial, DrawerExpandHeight(), scrollHeight);
      assert StopHeight({f}) == StopOfState(f, closed, partial, scrollHeight);
      ResolveAtRestIsIdentity(current, f, supportedStatus, closed, partial, scrollHeight);
    }

    /** The offset a pan's translation stands for. */
    function DragOffset(translation: Point): Point
      reads this
    {
      Point(0.0, ScrollHeight() - translation.y - DrawerClosedHeight())
    }

    /**
      The scroll surface's pan handler. Nothing happens unless the drawer
      may be dragged. A change with a leftward component is ignored; any
      other change moves the drawer to the dragged offset and remembers it.
      The end of the pan stops dragging and commits the resolved state with
      animation.
     */
    method DidRecognizeScrollViewPan(state: GestureState, translation: Point)
      requires drawerShouldScroll && state == Ended ==> currentStatus.Some? && HasStop(supportedStatus)
      modifies this`drawerShouldScroll, this`lastContentOffset, this`currentStatus, this`contentOffset, this`events, this`dimming
      ensures !old(drawerShouldScroll) || (state != Changed && state != Ended) || (state == Changed && translation.x < 0.0)
        ==> unchanged(this)
      ensures old(drawerShouldScroll) && state == Changed && translation.x >= 0.0 ==>
        && lastContentOffset == DragOffset(translation)
        && contentOffset == DragOffset(translation)
        && drawerShouldScroll && currentStatus == old(currentStatus)
        && dimming == DimmingAfterScroll(old(dimming), contentOffset.y, Metrics())
        && events == old(events) + ScrollEvents(contentOffset.y)
      ensures old(drawerShouldScroll) && state == Ended ==>
        && !drawerShouldScroll && lastContentOffset == old(lastContentOffset)
        && currentStatus == Some(Resolve(old(currentStatus).value, lastContentOffset.y, supportedStatus,
                                         DrawerClosedHeight(), DrawerPartiallyExpandHeight(), ScrollHeight()))
        && currentStatus.value <= supportedStatus
        && (currentStatus.value == {Closed} || currentStatus.value == {PartiallyExpand} || currentStatus.value == {Expand})
        && contentOffset == Point(0.0, StopHeight(currentStatus.value) - DrawerClosedHeight())
        && dimming == DimmingAfterScroll(old(dimming), contentOffset.y, Metrics())
        && events == old(events) + Notify(DidChangeStatus(currentStatus.value)) + ScrollEvents(contentOffset.y)
    {
      if !drawerShouldScroll {
        return;
      }
      if state == Changed {
        if translation.x < 0.0 {
          return;
        }
        var offSet := Point(0.0, scrollFrame.size.height - translation.y - DrawerClosedHeight());
        lastContentOffset := offSet;
        SetContentOffset(offSet);
      } else if state == Ended {
        drawerShouldScroll := false;
        var status := NewStatusFrom(currentStatus.value, lastContentOffset, supportedStatus);
        Update(status, true);
      }
    }

    /** A tap on the overlay closes the drawer, whether or not closed is supported. */
    method DidRecognizeDimmingViewTap(state: GestureState)
      modifies this`currentStatus, this`contentOffset, this`events, this`dimming
      ensures state != Ended ==> unchanged(this)
      ensures state == Ended ==>
        && currentStatus == Some({Closed})
        && contentOffset == ZeroPoint
        && dimming == DimmingAfterScroll(old(dimming), 0.0, Metrics())
        && events == old(events) + Notify(DidChangeStatus({Closed})) + ScrollEvents(0.0)
    {
      if state == Ended {
        Update({Closed}, true);
      }
    }

    /** scrollViewWillEndDragging: remember where the deceleration will stop. */
    method ScrollViewWillEndDragging(isDrawerScrollView: bool, targetContentOffset: Point)
      modifies this`lastContentOffset
      ensures lastContentOffset == if isDrawerScrollView then targetContentOffset else old(lastContentOffset)
    {
      if !isDrawerScrollView {
        return;
      }
      lastContentOffset := Point(targetContentOffset.x, targetContentOffset.y);
    }

    /** scrollViewDidEndDragging: snap from the remembered offset and commit with animation. */
    method ScrollViewDidEndDragging(isDrawerScrollView: bool, willDecelerate: bool)
      requires isDrawerScrollView ==> currentStatus.Some? && HasStop(supportedStatus)
      modifies this`currentStatus, this`contentOffset, this`events, this`dimming
      ensures !isDrawerScrollView ==> unchanged(this)
      ensures isDrawerScrollView ==>
        && currentStatus == Some(Resolve(old(currentStatus).value, lastContentOffset.y, supportedStatus,
                                         DrawerClosedHeight(), DrawerPartiallyExpandHeight(), ScrollHeight()))
        && currentStatus.value <= supportedStatus
        && contentOffset == Point(0.0, StopHeight(currentStatus.value) - DrawerClosedHeight())
        && dimming == DimmingAfterScroll(old(dimming), contentOffset.y, Metrics())
        && events == old(events) + Notify(DidChangeStatus(currentStatus.value)) + ScrollEvents(contentOffset.y)
    {
      if !isDrawerScrollView {
        return;
      }
      var newStatus := NewStatusFrom(currentStatus.value, lastContentOffset, supportedStatus);
      Update(newStatus, true);
    }

    /**
      drawerScrollViewDidScroll: the drawer may be dragged exactly when the
      content scrolled inside it is at (or above) its top; the inner scroll
      view scrolls exactly when the drawer may not be dragged.
     */
    method DrawerScrollViewDidScroll(innerOffsetY: real) returns (innerScrollEnabled: bool)
      modifies this`drawerShouldScroll
      ensures drawerShouldScroll <==> innerOffsetY <= 0.0
      ensures innerScrollEnabled <==> !drawerShouldScroll
    {
      if innerOffsetY <= 0.0 {
        drawerShouldScroll := true;
        innerScrollEnabled := false;
      } else {
        drawerShouldScroll := false;
        innerScrollEnabled := true;
      }
    }

    /** The delegate calls one layout pass makes. */
    function LayoutEvents(): seq<DelegateEvent>
      reads this
      requires currentStatus.Some?
    {
      Notify(DidChangeStatus(currentStatus.value)) + ScrollEvents(contentOffset.y)
    }

    function LayoutGeometry(vp: Viewport): LayoutGeometry
      reads this
    {
      Layout(vp, DrawerClosedHeight(), DrawerPartiallyExpandHeight(), supportedStatus, drawerExpandTopInset)
    }

    /**
      viewWillLayoutSubviews: lay out every frame for the given view size and
      insets, then re-commit the current status without animation, which
      notifies the delegate again. Afterwards the drawer's top edge is the
      status's stop above the bottom of the view.
     */
    method ViewWillLayoutSubviews(vp: Viewport)
      requires hasContentDataSource && drawerDataSource.Some? && currentStatus.Some?
      modifies this`viewport, this`contentContainerFrame, this`scrollFrame, this`drawerContainerFrame, this`contentSize
      modifies this`dimming, this`currentStatus, this`contentOffset, this`events
      ensures viewport == vp && currentStatus == old(currentStatus)
      ensures var g := LayoutGeometry(vp);
        && contentContainerFrame == g.contentContainer
        && scrollFrame == g.scroll
        && drawerContainerFrame == g.drawerContainer
        && contentSize == g.contentSize
        && dimming == DimmingAfterScroll(old(dimming).(frame := g.dimming), contentOffset.y, Metrics())
      ensures contentOffset == Point(0.0, StopHeight(currentStatus.value) - DrawerClosedHeight())
      ensures events == old(events) + Notify(DidChangeStatus(currentStatus.value)) + ScrollEvents(contentOffset.y)
      ensures DrawerTopOnScreen() == vp.height - StopHeight(currentStatus.value)
    {
      viewport := vp;
      var g := LayoutGeometry(vp);
      contentContainerFrame := g.contentContainer;
      scrollFrame := g.scroll;
      drawerContainerFrame := g.drawerContainer;
      contentSize := g.contentSize;
      dimming := dimming.(frame := g.dimming);
      DrawerTopAtStop(vp, DrawerClosedHeight(), DrawerPartiallyExpandHeight(), supportedStatus, drawerExpandTopInset,
                      StopHeight(currentStatus.value));
      Update(currentStatus.value, false);
    }

    /** shouldTouchPulleyScrollView: the point, in the drawer container's coordinates, is outside it. */
    predicate ShouldTouchPulleyScrollView(p: Point)
      reads this
    {
      OutsideContainer(drawerContainerFrame, p)
    }

    /** A point of the scroll surface lies outside the drawer container it holds. */
    static predicate OutsideContainer(container: Rect, p: Point) {
      !Contains(Bounds(container), ConvertToDrawerContainer(container, p))
    }

    /** A point of the scroll surface in the coordinates of the drawer container inside it. */
    static function ConvertToDrawerContainer(container: Rect, p: Point): Point {
      Point(p.x - container.origin.x, p.y - container.origin.y)
    }

    /** viewToReceiveTouch: the overlay over an expanded drawer, the content otherwise. */
    function ViewToReceiveTouch(p: Point): TouchSurface
      reads this
      requires currentStatus.Some?
    {
      SurfaceForStatus(currentStatus.value)
    }

    /** The view that takes touches outside the drawer in the given status. */
    static function SurfaceForStatus(status: Status): TouchSurface {
      if Expand in status then DimmingSurface else ContentContainerSurface
    }

    /**
      The controller as the scroll surface's touch delegate. Points of the
      scroll surface are in its bounds, whose origin is the content offset;
      the overlay and the content container are its siblings. The first two
      functions are ShouldTouchPulleyScrollView and ViewToReceiveTouch over
      the captured frame and status.
     */
    function AsTouchDelegate(): PulleyScrollView.TouchDelegate<TouchSurface>
      reads this
      requires currentStatus.Some?
    {
      var container := drawerContainerFrame;
      var status := currentStatus.value;
      var offset := contentOffset;
      var scrollOrigin := scrollFrame.origin;
      var dimmingOrigin := dimming.frame.origin;
      var contentOrigin := contentContainerFrame.origin;
      PulleyScrollView.TouchDelegate(
        (p: Point) => OutsideContainer(container, p),
        (p: Point) => SurfaceForStatus(status),
        (s: TouchSurface, p: Point) =>
          var origin := if s == DimmingSurface then dimmingOrigin else contentOrigin;
          Point(p.x - offset.x + scrollOrigin.x - origin.x, p.y - offset.y + scrollOrigin.y - origin.y))
    }

    /** The scroll surface's hitTest with the controller as its touch delegate. */
    function RouteTouch(p: Point): PulleyScrollView.HitTarget<TouchSurface>
      reads this
      requires currentStatus.Some?
    {
      PulleyScrollView.HitTest(Some(AsTouchDelegate()), p)
    }

    /**
      Touches inside the drawer container stay with the scroll surface;
      outside it they go to the overlay when the drawer is expanded and to
      the content otherwise.
     */
    lemma RouteTouchRule(p: Point)
      requires currentStatus.Some?
      ensures RouteTouch(p).SuperHitTest? <==> !ShouldTouchPulleyScrollView(p)
      ensures RouteTouch(p).DelegatedHitTest? ==> RouteTouch(p).view == ViewToReceiveTouch(p)
      ensures RouteTouch(p).DelegatedHitTest? && RouteTouch(p).view == DimmingSurface <==>
        ShouldTouchPulleyScrollView(p) && Expand in currentStatus.value
      ensures RouteTouch(p).DelegatedHitTest? && RouteTouch(p).view == ContentContainerSurface <==>
        ShouldTouchPulleyScrollView(p) && Expand !in currentStatus.value
    {
    }
  }

  /**
    Two layout passes with the same inputs leave the same geometry, status
    and overlay; the delegate hears the same calls again on the second pass.
   */
  method LayoutIsIdempotent(c: PulleyViewController, vp: Viewport) returns (first: ControllerState, second: ControllerState)
    requires c.hasContentDataSource && c.drawerDataSource.Some? && c.currentStatus.Some?
    modifies c
    ensures c.currentStatus == old(c.currentStatus)
    ensures first == second && second == c.Snapshot()
    ensures c.events == old(c.events) + c.LayoutEvents() + c.LayoutEvents()
  {
    c.ViewWillLayoutSubviews(vp);
    first := c.Snapshot();
    ghost var events1 := c.events;
    ghost var frame := c.LayoutGeometry(vp).dimming;
    ghost var y, m := c.contentOffset.y, c.Metrics();
    c.ViewWillLayoutSubviews(vp);
    second := c.Snapshot();
    DimmingStableUnderRelayout(old(c.dimming), frame, y, m);
    assert second.dimming == first.dimming;
  }
}
