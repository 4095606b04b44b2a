/**
  The pure arithmetic of the pulley drawer: the configured heights and their
  defaults, the stop a status moves to, the dimming overlay rule, the drag
  progress, and the frames computed on every layout pass.
 */
module PulleyGeometry {
  import opened CoreGraphics
  import opened PulleyStatus

  /** What a drawer data source answers for the three heights. */
  datatype DrawerHeights = DrawerHeights(closed: real, partiallyExpand: real, expand: real)

  /** Heights used when no drawer data source is attached. */
  const DefaultClosedHeight: real := 68.0
  const DefaultPartiallyExpandHeight: real := 264.0
  /** Zero means "use the whole scroll surface" when expanding. */
  const DefaultExpandHeight: real := 0.0

  function ClosedHeight(source: Optional<DrawerHeights>): real {
    if source.Some? then source.value.closed else DefaultClosedHeight
  }

  function PartiallyExpandHeight(source: Optional<DrawerHeights>): real {
    if source.Some? then source.value.partiallyExpand else DefaultPartiallyExpandHeight
  }

  function ExpandHeight(source: Optional<DrawerHeights>): real {
    if source.Some? then source.value.expand else DefaultExpandHeight
  }

  /** Without a data source the getters fall back to 68, 264 and 0. */
  lemma DefaultHeightsWithoutDataSource()
    ensures ClosedHeight(Nil) == 68.0
    ensures PartiallyExpandHeight(Nil) == 264.0
    ensures ExpandHeight(Nil) == 0.0
  {
  }

  /**
    The visible drawer height a status moves to. Members are tried in the
    order closed, partially expanded, expanded; the expanded stop is the
    configured height when it is positive and the scroll surface's height
    otherwise; a status with none of the three moves to 0.
   */
  function StopFor(status: Status, closed: real, partial: real, expand: real, scrollHeight: real): real {
    if Closed in status then closed
    else if PartiallyExpand in status then partial
    else if Expand in status then (if expand > 0.0 then expand else scrollHeight)
    else 0.0
  }

  /** The stop of a single resting state, as the resolver measures it. */
  function StopOfState(f: Flag, closed: real, partial: real, scrollHeight: real): real {
    match f
    case Closed => closed
    case PartiallyExpand => partial
    case Expand => scrollHeight
    case None => 0.0
  }

  /**
    A status with several members moves like its highest-priority member.
    A single resting state moves to its own height, the expanded one to the
    configured height when positive and to the whole scroll surface
    otherwise; that is the stop the resolver measures for it when no
    positive expanded height is set.
   */
  lemma StopForFollowsPriority(status: Status, closed: real, partial: real, expand: real, scrollHeight: real)
    ensures Closed in status ==> StopFor(status, closed, partial, expand, scrollHeight) == StopFor({Closed}, closed, partial, expand, scrollHeight)
    ensures Closed !in status && PartiallyExpand in status ==>
      StopFor(status, closed, partial, expand, scrollHeight) == StopFor({PartiallyExpand}, closed, partial, expand, scrollHeight)
    ensures status * DrawerStates == {Expand} ==>
      StopFor(status, closed, partial, expand, scrollHeight) == StopFor({Expand}, closed, partial, expand, scrollHeight)
    ensures status * DrawerStates == {} ==> StopFor(status, closed, partial, expand, scrollHeight) == 0.0
    ensures StopFor({Closed}, closed, partial, expand, scrollHeight) == closed
    ensures StopFor({PartiallyExpand}, closed, partial, expand, scrollHeight) == partial
    ensures StopFor({Expand}, closed, partial, expand, scrollHeight) == if expand > 0.0 then expand else scrollHeight
    ensures expand <= 0.0 ==> forall f :: f in DrawerStates ==>
      StopFor({f}, closed, partial, expand, scrollHeight) == StopOfState(f, closed, partial, scrollHeight)
  {
    assert Closed in DrawerStates && PartiallyExpand in DrawerStates && Expand in DrawerStates;
    if status * DrawerStates == {Expand} {
      assert Closed !in status * DrawerStates && PartiallyExpand !in status * DrawerStates;
      assert Expand in status * DrawerStates;
    }
  }

  /** dimmingViewFrameForDrawer: the overlay's frame moved so that its top is at -position. */
  function DimmingFrameForDrawer(frame: Rect, position: real): (r: Rect)
    ensures r.size == frame.size && r.origin.x == frame.origin.x
    ensures r.origin.y + position == 0.0
  {
    Rect(Point(frame.origin.x, 0.0 - position), frame.size)
  }

  /** The overlay between the content and the drawer. */
  datatype DimmingView = DimmingView(alpha: real, interactive: bool, frame: Rect)

  /** Everything the dimming rule reads besides the overlay and the offset. */
  datatype DimmingMetrics = DimmingMetrics(safeBottom: real, closed: real, partial: real, fullReveal: real, opacity: real)

  /** Alpha below which a hidden overlay is left as it is. */
  const AlphaResetThreshold: real := 0.01

  predicate Revealed(offsetY: real, m: DimmingMetrics) {
    offsetY - m.safeBottom > m.partial - m.closed
  }

  /** Interpolation factor; 1 when the full-reveal height equals the partial height. */
  function RevealProgress(offsetY: real, m: DimmingMetrics): real {
    if m.fullReveal == m.partial then 1.0
    else (offsetY - (m.partial - m.closed)) / (m.fullReveal - m.partial)
  }

  /**
    updateDimmingViewAlpha: above the threshold the overlay shows
    progress * opacity and takes touches; below it a visible overlay
    (alpha at least 0.01) is cleared and stops taking touches, a nearly
    invisible one is left alone. Either way its top moves to -(offset + closed).
   */
  function DimmingAfterScroll(d: DimmingView, offsetY: real, m: DimmingMetrics): (r: DimmingView)
    ensures r.frame == DimmingFrameForDrawer(d.frame, offsetY + m.closed)
    ensures Revealed(offsetY, m) ==> r.interactive && r.alpha == RevealProgress(offsetY, m) * m.opacity
    ensures !Revealed(offsetY, m) ==> r.alpha < AlphaResetThreshold
    ensures !Revealed(offsetY, m) && d.alpha >= AlphaResetThreshold ==> r.alpha == 0.0 && !r.interactive
    ensures !Revealed(offsetY, m) && d.alpha < AlphaResetThreshold ==> r.alpha == d.alpha && r.interactive == d.interactive
  {
    var shown :=
      if Revealed(offsetY, m) then d.(alpha := RevealProgress(offsetY, m) * m.opacity, interactive := true)
      else if d.alpha >= AlphaResetThreshold then d.(alpha := 0.0, interactive := false)
      else d;
    shown.(frame := DimmingFrameForDrawer(d.frame, offsetY + m.closed))
  }

  /** Running the rule again at the same offset changes nothing. */
  lemma DimmingIsIdempotent(d: DimmingView, offsetY: real, m: DimmingMetrics)
    ensures DimmingAfterScroll(DimmingAfterScroll(d, offsetY, m), offsetY, m) == DimmingAfterScroll(d, offsetY, m)
  {
  }

  /**
    A layout pass resets the overlay's frame and applies the rule again at
    the same offset; doing so a second time leaves the overlay as the first
    pass left it.
   */
  lemma DimmingStableUnderRelayout(d: DimmingView, frame: Rect, offsetY: real, m: DimmingMetrics)
    ensures var once := DimmingAfterScroll(d.(frame := frame), offsetY, m);
      DimmingAfterScroll(once.(frame := frame), offsetY, m) == once
  {
  }

  /** With equal partial and full-reveal heights a revealed overlay is at full opacity. */
  lemma DegenerateRevealIsFullOpacity(d: DimmingView, offsetY: real, m: DimmingMetrics)
    requires m.fullReveal == m.partial && Revealed(offsetY, m)
    ensures DimmingAfterScroll(d, offsetY, m).alpha == m.opacity
  {
  }

  /** Where a non-negative quotient lies relative to 0 and 1. */
  lemma QuotientBounds(num: real, den: real)
    requires 0.0 < den && 0.0 <= num
    ensures num / den * den == num
    ensures 0.0 <= num / den
    ensures num <= den ==> num / den <= 1.0
    ensures den <= num ==> 1.0 <= num / den
  {
    var q := num / den;
    assert q * den == num;
    if q < 0.0 {
      MulMonotone(q, 0.0, den);
      assert false;
    }
    if num <= den && 1.0 < q {
      MulMonotone(1.0, q, den);
      assert false;
    }
    if den <= num && q < 1.0 {
      MulMonotone(q, 1.0, den);
      assert false;
    }
  }

  lemma ScaleBounds(p: real, opacity: real)
    requires 0.0 <= p <= 1.0 && 0.0 <= opacity
    ensures 0.0 <= p * opacity <= opacity
  {
    assert p * opacity <= 1.0 * opacity;
  }

  /**
    For any offset the scroll surface can rest at (0 up to the top of the
    reveal range) and safe-area insets that are not negative, the rule keeps
    the alpha between 0 and the configured opacity.
   */
  lemma DimmingAlphaWithinOpacity(d: DimmingView, offsetY: real, m: DimmingMetrics)
    requires 0.0 <= m.opacity && 0.0 <= d.alpha <= m.opacity
    requires 0.0 <= m.safeBottom && m.partial < m.fullReveal
    requires offsetY <= m.fullReveal - m.closed
    ensures 0.0 <= DimmingAfterScroll(d, offsetY, m).alpha <= m.opacity
  {
    if Revealed(offsetY, m) {
      var num, den := offsetY - (m.partial - m.closed), m.fullReveal - m.partial;
      assert RevealProgress(offsetY, m) == num / den;
      assert 0.0 <= num / den <= 1.0 by {
        assert 0.0 < num <= den;
        QuotientBounds(num, den);
      }
      ScaleBounds(num / den, m.opacity);
    }
  }

  /** Once revealed, the overlay darkens as the drawer rises. */
  lemma DimmingAlphaMonotone(d1: DimmingView, d2: DimmingView, o1: real, o2: real, m: DimmingMetrics)
    requires 0.0 <= m.opacity && m.partial < m.fullReveal
    requires Revealed(o1, m) && o1 <= o2
    ensures DimmingAfterScroll(d1, o1, m).alpha <= DimmingAfterScroll(d2, o2, m).alpha
  {
    var den := m.fullReveal - m.partial;
    var p1, p2 := RevealProgress(o1, m), RevealProgress(o2, m);
    assert p1 * den == o1 - (m.partial - m.closed);
    assert p2 * den == o2 - (m.partial - m.closed);
    assert (p2 - p1) * den >= 0.0;
    assert p1 <= p2;
    assert (p2 - p1) * m.opacity >= 0.0;
  }

  /**
    Drag progress before it is reported: |offset| / spaceToDrag, set to 1
    when it exceeds 1. A zero space gives +infinity (clamped to 1) or, for a
    zero offset, NaN, written Nil.
   */
  function DragProgress(offsetY: real, spaceToDrag: real): Optional<real> {
    if spaceToDrag == 0.0 then (if offsetY == 0.0 then Nil else Some(1.0))
    else
      var q := Abs(offsetY) / spaceToDrag;
      Some(if q > 1.0 then 1.0 else q)
  }

  /**
    With room to drag, the progress is the dragged distance as a fraction
    of that room, and 1 once the drawer has travelled all of it.
   */
  lemma DragProgressIsFraction(offsetY: real, spaceToDrag: real)
    requires spaceToDrag > 0.0
    ensures DragProgress(offsetY, spaceToDrag).Some?
    ensures 0.0 <= DragProgress(offsetY, spaceToDrag).value <= 1.0
    ensures Abs(offsetY) <= spaceToDrag ==> DragProgress(offsetY, spaceToDrag).value * spaceToDrag == Abs(offsetY)
    ensures Abs(offsetY) >= spaceToDrag ==> DragProgress(offsetY, spaceToDrag).value == 1.0
  {
    var num := Abs(offsetY);
    QuotientBounds(num, spaceToDrag);
    var q := num / spaceToDrag;
    assert DragProgress(offsetY, spaceToDrag) == Some(if q > 1.0 then 1.0 else q);
  }

  lemma MulMonotone(a: real, b: real, c: real)
    requires c > 0.0 && a < b
    ensures a * c < b * c
  {
    assert b * c - a * c == (b - a) * c;
  }

  function Abs(x: real): real {
    if x < 0.0 then -x else x
  }

  /**
    The value the progress callback delivers as the source is written: the
    format "0.2f" has no conversion specifier, so the string is always
    "0.2f", which does not parse as a Double, and the fallback 0 is sent.
   */
  function ReportedProgressAsWritten(progress: real): (r: real)
    ensures r == 0.0
  {
    0.0
  }

  /** The evidently intended "%.2f": round half away from zero to hundredths. */
  function RoundToHundredths(p: real): (r: real)
    ensures (r * 100.0).Floor as real == r * 100.0
    ensures p - 0.005 <= r <= p + 0.005
    ensures 0.0 <= p <= 1.0 ==> 0.0 <= r <= 1.0
  {
    var n := RoundHalfAwayFromZero(p * 100.0);
    assert n as real / 100.0 * 100.0 == n as real;
    n as real / 100.0
  }

  /** The nearest integer, halves rounded away from zero. */
  function RoundHalfAwayFromZero(x: real): (n: int)
    ensures x - 0.5 <= n as real <= x + 0.5
    ensures 0.0 <= x ==> 0 <= n
    ensures x <= 100.0 ==> n <= 100
  {
    if x >= 0.0 then (x + 0.5).Floor else -((-x + 0.5).Floor)
  }

  /** A half-dragged drawer reports 0 as written; the intended rounding reports 0.5. */
  lemma ProgressFormatDropsValue()
    ensures ReportedProgressAsWritten(0.5) == 0.0
    ensures RoundToHundredths(0.5) == 0.5
  {
    assert (0.5 * 100.0 + 0.5).Floor == 50;
  }

  /** The progress delivered to the drawer delegate (Nil stands for NaN). */
  function ReportedDragProgress(offsetY: real, spaceToDrag: real): (r: Optional<real>)
    ensures r.Some? <==> DragProgress(offsetY, spaceToDrag).Some?
    ensures r.Some? ==> DragProgress(offsetY, spaceToDrag).value - 0.005 <= r.value <= DragProgress(offsetY, spaceToDrag).value + 0.005
    ensures spaceToDrag > 0.0 ==> r.Some? && 0.0 <= r.value <= 1.0
    ensures r.Some? ==> (r.value * 100.0).Floor as real == r.value * 100.0
  {
    if spaceToDrag > 0.0 then DragProgressIsFraction(offsetY, spaceToDrag); ReportedAt(DragProgress(offsetY, spaceToDrag))
    else ReportedAt(DragProgress(offsetY, spaceToDrag))
  }

  function ReportedAt(progress: Optional<real>): (r: Optional<real>)
    ensures r.Some? <==> progress.Some?
    ensures r.Some? ==> progress.value - 0.005 <= r.value <= progress.value + 0.005
    ensures progress.Some? && 0.0 <= progress.value <= 1.0 ==> 0.0 <= r.value <= 1.0
    ensures r.Some? ==> (r.value * 100.0).Floor as real == r.value * 100.0
  {
    match progress
    case Nil => Nil
    case Some(p) => Some(RoundToHundredths(p))
  }

  /** The view's size and safe-area insets, taken as plain inputs. */
  datatype Viewport = Viewport(width: real, height: real, safeTop: real, safeBottom: real)

  /** Every frame a layout pass sets. */
  datatype LayoutGeometry = LayoutGeometry(
    contentContainer: Rect,
    scroll: Rect,
    drawerContainer: Rect,
    contentSize: Size,
    dimming: Rect)

  /** The height of the scroll surface when the drawer cannot expand. */
  function ShrunkScrollHeight(supported: Status, closed: real, partial: real): real {
    if PartiallyExpand in supported then partial else closed
  }

  /**
    The frame arithmetic of a layout pass. With the expanded state
    supported the scroll surface runs from topInset below the safe area to
    the bottom of the view; otherwise it is only as tall as the partially
    expanded height (or the closed one) and sits on the bottom edge.
   */
  function Layout(vp: Viewport, closed: real, partial: real, supported: Status, topInset: real): (g: LayoutGeometry)
    ensures g.scroll.origin.y + g.scroll.size.height == vp.height
    ensures g.scroll.origin.x == 0.0 && g.scroll.size.width == vp.width
    ensures Expand in supported ==> g.scroll.origin.y == topInset + vp.safeTop
    ensures Expand !in supported ==> g.scroll.size.height == ShrunkScrollHeight(supported, closed, partial)
    ensures g.drawerContainer.origin.y + closed == g.scroll.size.height
    ensures g.drawerContainer.origin.x == 0.0 && g.drawerContainer.size == g.scroll.size
    ensures g.contentSize.width == g.scroll.size.width
    ensures g.contentSize.height - g.scroll.size.height == g.scroll.size.height - closed - vp.safeBottom
    ensures g.dimming == Rect(ZeroPoint, Size(vp.width, g.contentSize.height))
    ensures g.contentContainer == Rect(ZeroPoint, Size(vp.width, vp.height))
  {
    var scroll :=
      if Expand in supported then
        Rect(Point(0.0, topInset + vp.safeTop), Size(vp.width, vp.height - topInset - vp.safeTop))
      else
        var h := ShrunkScrollHeight(supported, closed, partial);
        Rect(Point(0.0, vp.height - h), Size(vp.width, h));
    var h := scroll.size.height;
    var contentSize := Size(scroll.size.width, (h - closed) + h - vp.safeBottom);
    LayoutGeometry(
      Rect(ZeroPoint, Size(vp.width, vp.height)),
      scroll,
      Rect(Point(0.0, h - closed), scroll.size),
      contentSize,
      Rect(ZeroPoint, Size(vp.width, contentSize.height)))
  }

  /**
    With the scroll surface and drawer container laid out and the content
    offset at stop - closed, the drawer's top edge is stop points above the
    bottom of the view; at the expanded stop of a drawer that may expand it
    is topInset below the safe area.
   */
  lemma DrawerTopAtStop(vp: Viewport, closed: real, partial: real, supported: Status, topInset: real, stop: real)
    ensures var g := Layout(vp, closed, partial, supported, topInset);
      g.scroll.origin.y + g.drawerContainer.origin.y - (stop - closed) == vp.height - stop
    ensures var g := Layout(vp, closed, partial, supported, topInset);
      Expand in supported && stop == g.scroll.size.height ==>
        g.scroll.origin.y + g.drawerContainer.origin.y - (stop - closed) == topInset + vp.safeTop
  {
  }
}
