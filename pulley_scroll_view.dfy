/**
  JKPulleyScrollView: the drawer's scroll surface, which lets a touch
  delegate hand touches outside the drawer to another view, and always lets
  a drag cancel the touches of a button.
 */
module PulleyScrollView {
  import opened CoreGraphics

  /**
    JKPulleyScrollViewDelegate, with the view type left abstract: whether a
    point belongs to another view, which view that is, and how the point
    reads in that view's coordinates (UIView.convert(_:from:)).
   */
  datatype TouchDelegate<!V> = TouchDelegate(
    shouldTouch: Point -> bool,
    viewToReceiveTouch: Point -> V,
    convert: (V, Point) -> Point)

  /** Who answers a hit test: the delegate's view at a converted point, or UIScrollView's own hit test. */
  datatype HitTarget<V> = DelegatedHitTest(view: V, at: Point) | SuperHitTest(at: Point)

  /**
    hitTest(_:with:): without a delegate, or when the delegate declines,
    the superclass answers at the same point; otherwise the delegate's view
    answers at the point converted into its coordinates.
   */
  function HitTest<V>(delegate: Optional<TouchDelegate<V>>, p: Point): (r: HitTarget<V>)
    ensures delegate.Nil? ==> r == SuperHitTest(p)
    ensures delegate.Some? ==> (r.DelegatedHitTest? <==> delegate.value.shouldTouch(p))
    ensures r.SuperHitTest? ==> r.at == p
    ensures r.DelegatedHitTest? ==>
      delegate.Some? && r.view == delegate.value.viewToReceiveTouch(p) && r.at == delegate.value.convert(r.view, p)
  {
    if delegate.Some? && delegate.value.shouldTouch(p) then
      var view := delegate.value.viewToReceiveTouch(p);
      DelegatedHitTest(view, delegate.value.convert(view, p))
    else
      SuperHitTest(p)
  }

  /** The only distinction touchesShouldCancel(in:) draws between views. */
  datatype ViewKind = Button | OtherView

  datatype CancelDecision = Cancel | DeferToSuper

  /** touchesShouldCancel(in:): a button's touches are always cancelled; anything else is UIScrollView's call. */
  function TouchesShouldCancel(kind: ViewKind): (d: CancelDecision)
    ensures d == Cancel <==> kind == Button
    ensures d == DeferToSuper <==> kind != Button
  {
    if kind == Button then Cancel else DeferToSuper
  }
}
