# JKPullTableView pulley drawer, modelled in Dafny

JKPullTableView is an iOS component. It shows a main content view with a
"drawer" on top that the user drags up and down, in the manner of Apple
Maps. `JKPulleyViewController` owns three views:

- a content container;
- a dimming overlay;
- a `JKPulleyScrollView`, the scroll surface, whose content holds the drawer container.

The drawer rests in one of three states: closed, partially expanded and
expanded. A drawer data source gives each state's visible height; without
one the heights fall back to 68, 264 and 0. An expanded height of 0 means
"the whole scroll surface".

- **Moving the drawer.** Dragging moves the scroll surface's content offset.
- **Snapping.** When a drag ends, the drawer snaps to the supported state
  whose stop is nearest, and that status is committed.
- **Dimming.** The overlay darkens as the drawer rises past the partially
  expanded height.
- **Delegate calls.** A drawer delegate is told of every committed status
  and of the drag progress.
- **Touch routing.** Touches outside the drawer are routed to the overlay
  when the drawer is expanded, and to the content otherwise.

The project has six modules:

- `CoreGraphics`: points, sizes, rectangles and `CGRect.contains`, over `real`.
- `PulleyStatus`: the `JKPulleyStatus` option set. It is a set of members,
  with its 64-bit raw encoding proved to round-trip.
- `PulleyGeometry`: the pure arithmetic:
  - the height getters and their defaults;
  - the stop a status moves to;
  - the dimming rule;
  - the drag progress and its rounding;
  - the frames of a layout pass.
- `PulleyResolver`: `newStatusFrom` as a function. The snap decision is
  proved to pick a nearest supported stop and always to return exactly one
  supported state. On a tie it keeps the lowest stop, and otherwise the stop
  listed first in the order closed, partially expanded, expanded.
- `PulleyScrollView`: `hitTest` and `touchesShouldCancel` of the scroll
  surface. The touch delegate is a record of functions.
- `PulleyController`: the controller as a class. Its fields are:
  - the configuration;
  - `currentStatus`, `lastContentOffset` and `drawerShouldScroll`;
  - the frames, content offset and content size;
  - the overlay;
  - the log of delegate calls.

  Every handler is a method whose `ensures` gives the whole new state.
  `newStatusFrom` is a loop proved equal to the resolver function.

The model assumes that UIKit calls `scrollViewDidScroll` synchronously
whenever the content offset is assigned, whether or not the value changes.
`SetContentOffset` models this: it assigns the offset, then reports the
progress, then applies the dimming rule. Under that assumption, `update` and
the pan handler make the same delegate calls, in the same order, and the same
overlay changes as the component. The one difference is the value each
progress call carries: the model sends the corrected progress rounded to
hundredths (`PulleyGeometry.ReportedDragProgress`), where the component as
written always sends 0 (see Findings).

Observations the proofs make explicit:

- **The fallback in `newStatusFrom` is dead code.** The nearest stop always
  matches a supported state, so the status is never the current one passed
  back unchanged (`ResolveIsSupportedState`).
- **The resolver ignores a configured expanded height.** It always measures
  the expanded stop as the scroll surface's height, even though `update`
  moves an expanded drawer to a configured positive height. A drawer opened
  to such a height and released where it rests can snap to another state
  (`ConfiguredExpandHeightIsMisread`).
- **The resolver measures from the lowest supported stop.** `update`
  measures from the closed height, even when the closed state is not
  supported. With closed unsupported, a drawer resting at the partially
  expanded stop and released in place can snap to expanded
  (`ClosedUnsupportedRestIsMisread`).
- **When resting at a stop is stable.** Three conditions together make it
  stable (`UpdatedStatusIsStable`):
  - the closed state is supported;
  - the stops strictly increase;
  - no positive expanded height is set.
- **A tap on the overlay commits the closed state even when it is not supported.**
- **A layout pass re-commits the current status.** The delegate is therefore
  told of the status again on every layout pass (`LayoutIsIdempotent`).

## Model

| member | source | states |
|---|---|---|
| PulleyStatus.RawValue | JKPullTableView/VC/JKPulleyViewController.swift:11-18 | the raw value holds a member's bit exactly when the member is in the set, and no bit above the four member bits |
| PulleyStatus.FromRaw | JKPullTableView/VC/JKPulleyViewController.swift:11-18 | a member is in the decoded set exactly when its bit is set in the raw value |
| PulleyStatus.FromRawOfRawValue | JKPullTableView/VC/JKPulleyViewController.swift:11-18 | decoding an encoded status gives it back |
| PulleyStatus.RawValueOfFromRaw | JKPullTableView/VC/JKPulleyViewController.swift:11-18 | encoding a decoded raw value keeps exactly its four member bits |
| PulleyGeometry.DefaultHeightsWithoutDataSource | JKPullTableView/VC/JKPulleyViewController.swift:80-130 | without a drawer data source the heights are 68, 264 and 0 |
| PulleyGeometry.StopForFollowsPriority | JKPullTableView/VC/JKPulleyViewController.swift:318-345 | a status moves like its first member in the order closed, partially expanded, expanded; a status with none of them moves to 0; closed moves to the closed height, partially expanded to the partial height, expanded to the configured height when positive and otherwise to the scroll surface's height; each resting state moves to the stop the resolver measures for it when no positive expanded height is set |
| PulleyGeometry.DimmingFrameForDrawer | JKPullTableView/VC/JKPulleyViewController.swift:540-546 | the overlay keeps its size and x, and its top is moved to minus the drawer position |
| PulleyGeometry.DimmingAfterScroll | JKPullTableView/VC/JKPulleyViewController.swift:489-531 | above the partially expanded height the overlay takes touches at progress times opacity; below it a visible overlay is cleared and stops taking touches, a nearly invisible one is left alone; its frame always follows the drawer |
| PulleyGeometry.DimmingIsIdempotent | JKPullTableView/VC/JKPulleyViewController.swift:489-531 | applying the dimming rule twice at one offset is the same as applying it once |
| PulleyGeometry.DimmingStableUnderRelayout | JKPullTableView/VC/JKPulleyViewController.swift:279-282 | resetting the overlay frame and re-applying the rule at the same offset leaves the overlay as the first pass left it |
| PulleyGeometry.DegenerateRevealIsFullOpacity | JKPullTableView/VC/JKPulleyViewController.swift:507-516 | when the full-reveal height equals the partially expanded height, a revealed overlay has the full configured opacity |
| PulleyGeometry.DimmingAlphaWithinOpacity | JKPullTableView/VC/JKPulleyViewController.swift:489-531 | for offsets up to the top of the reveal range, the overlay's alpha stays between 0 and the configured opacity |
| PulleyGeometry.DimmingAlphaMonotone | JKPullTableView/VC/JKPulleyViewController.swift:503-519 | once revealed, the overlay's alpha does not decrease as the offset grows |
| PulleyGeometry.DragProgressIsFraction | JKPullTableView/VC/JKPulleyViewController.swift:456-479 | with room to drag, the progress is in [0, 1]; it is the dragged distance over the room, and 1 once the whole room is travelled |
| PulleyGeometry.ReportedProgressAsWritten | JKPullTableView/VC/JKPulleyViewController.swift:481-486 | as written, the delegate always receives 0 |
| PulleyGeometry.RoundToHundredths | JKPullTableView/VC/JKPulleyViewController.swift:481-486 | the intended formatting: the result is a whole number of hundredths, within 0.005 of the input, and stays in [0, 1] |
| PulleyGeometry.ProgressFormatDropsValue | JKPullTableView/VC/JKPulleyViewController.swift:481-486 | half way, the as-written report is 0 while the intended one is 0.5 |
| PulleyGeometry.ReportedDragProgress | JKPullTableView/VC/JKPulleyViewController.swift:456-487 | a progress is reported exactly when the drag progress is defined; it is within 0.005 of the drag progress, a whole number of hundredths, and in [0, 1] whenever there is room to drag |
| PulleyGeometry.Layout | JKPullTableView/VC/JKPulleyViewController.swift:263-281 | the scroll surface is full width and sits on the bottom edge; it starts topInset below the safe area when the drawer may expand, else it is the partially expanded (or closed) height; the drawer container sits at x 0 with the surface's size, starting closed-height above the surface's bottom; the content is as wide as the surface; the overlay follows |
| PulleyGeometry.DrawerTopAtStop | JKPullTableView/VC/JKPulleyViewController.swift:263-282 | after layout, at the content offset stop minus closed, the drawer's top is stop points above the bottom of the view; fully expanded, it is topInset below the safe area |
| PulleyResolver.DrawerStops | JKPullTableView/VC/JKPulleyViewController.swift:404-421 | one stop per supported state, in the order closed, partially expanded, expanded; they are exactly the supported states' stops, and there is one whenever a state is supported |
| PulleyResolver.Lowest | JKPullTableView/VC/JKPulleyViewController.swift:423-425 | the lowest stop is one of the stops and no stop is lower |
| PulleyResolver.ClosestIsNearest | JKPullTableView/VC/JKPulleyViewController.swift:425-437 | the scan ends on the starting stop or one of the stops, and nothing scanned is nearer the target |
| PulleyResolver.ClosestPrefersEarlier | JKPullTableView/VC/JKPulleyViewController.swift:429-437 | a later stop replaces the current one only when strictly nearer, so ties keep the earlier stop |
| PulleyResolver.WinningStopIsNearest | JKPullTableView/VC/JKPulleyViewController.swift:404-437 | the winning stop belongs to a supported state and is nearest to lowest stop + offset |
| PulleyResolver.ResolveIsSupportedState | JKPullTableView/VC/JKPulleyViewController.swift:399-454 | the new status is exactly one supported resting state |
| PulleyResolver.ResolveSnapsToNearestStop | JKPullTableView/VC/JKPulleyViewController.swift:399-454 | the resolved state is supported and its stop is at least as near the target as every supported state's stop |
| PulleyResolver.ResolveAtRestIsIdentity | JKPullTableView/VC/JKPulleyViewController.swift:399-454 | with closed supported and increasing stops, a drawer resting at a supported state's stop resolves to that state |
| PulleyResolver.ClosedOrExpandScenario | JKPullTableView/VC/JKPulleyViewController.swift:399-454 | closed and expanded supported, closed 170, surface 800, offset 500: the drawer expands |
| PulleyResolver.PartialScenario | JKPullTableView/VC/JKPulleyViewController.swift:399-454 | all states supported, offset at partial minus closed: the drawer partially expands |
| PulleyResolver.TieGoesToLowestScenario | JKPullTableView/VC/JKPulleyViewController.swift:429-437 | half way between the closed and partially expanded stops, the drawer closes |
| PulleyResolver.ResolveKeepsLowestOnTie | JKPullTableView/VC/JKPulleyViewController.swift:423-437 | when no supported stop is strictly nearer the target than the lowest stop, the drawer resolves to the lowest stop's state |
| PulleyResolver.TieBetweenPartialAndExpandKeepsPartial | JKPullTableView/VC/JKPulleyViewController.swift:404-454 | all states supported and increasing stops: released half way between the partially expanded and expanded stops, the drawer partially expands |
| PulleyResolver.ClosedUnsupportedRestIsMisread | JKPullTableView/VC/JKPulleyViewController.swift:318-454 | with closed unsupported, a drawer resting at the partially expanded stop snaps to expanded when the scroll height is nearer 2 * partial - closed than the partial stop |
| PulleyResolver.ConfiguredExpandHeightIsMisread | JKPullTableView/VC/JKPulleyViewController.swift:417-421 | a drawer moved to a configured expanded height that lies nearer the partially expanded stop than the scroll height snaps to partially expanded when released in place |
| PulleyScrollView.HitTest | JKPullTableView/View/JKPulleyScrollView.swift:21-31 | without a delegate, or when it declines, the scroll view answers at the same point; otherwise the delegate's view answers at the point converted into its coordinates |
| PulleyScrollView.TouchesShouldCancel | JKPullTableView/View/JKPulleyScrollView.swift:33-43 | touches in a button are always cancelled; any other view defers to UIScrollView |
| PulleyController.PulleyViewController.constructor | JKPullTableView/VC/JKPulleyViewController.swift:131-214 | defaults: all three states supported, top inset 20, opacity 0.5, no status, zero last offset, no dragging, containers of the view's size, transparent overlay that takes touches |
| PulleyController.PulleyViewController.UpdateDrawerDraggingProgress | JKPullTableView/VC/JKPulleyViewController.swift:456-487 | a delegate, if any, receives the reported progress at the current offset; nothing else changes |
| PulleyController.PulleyViewController.UpdateDimmingViewAlpha | JKPullTableView/VC/JKPulleyViewController.swift:489-531 | the overlay becomes the dimming rule applied at the current offset |
| PulleyController.PulleyViewController.ScrollViewDidScroll | JKPullTableView/VC/JKPulleyViewController.swift:571-578 | other scroll views change nothing; the drawer's reports progress and then updates the overlay |
| PulleyController.PulleyViewController.SetContentOffset | JKPullTableView/VC/JKPulleyViewController.swift:571-578 | assigning the offset runs the scroll handler at the new offset |
| PulleyController.PulleyViewController.Update | JKPullTableView/VC/JKPulleyViewController.swift:318-360 | the status is committed and announced first; the offset becomes the status's stop minus the closed height; the overlay follows; animated or not, the end state is the same |
| PulleyController.PulleyViewController.ScanForClosestStop | JKPullTableView/VC/JKPulleyViewController.swift:425-437 | the loop ends on the stop the strictly-nearer scan selects, starting from the lowest stop |
| PulleyController.PulleyViewController.NewStatusFrom | JKPullTableView/VC/JKPulleyViewController.swift:399-454 | the loop computes the resolver's result, which is one supported resting state |
| PulleyController.PulleyViewController.UpdatedStatusIsStable | JKPullTableView/VC/JKPulleyViewController.swift:318-454 | the offset update sets for a supported state resolves back to that state (closed supported, increasing stops, no positive expanded height) |
| PulleyController.PulleyViewController.DidRecognizeScrollViewPan | JKPullTableView/VC/JKPulleyViewController.swift:362-388 | no effect unless dragging is allowed, or on a leftward change; a change moves the drawer to surface height minus translation minus closed height and remembers it; the end stops dragging and commits the resolved supported state |
| PulleyController.PulleyViewController.DidRecognizeDimmingViewTap | JKPullTableView/VC/JKPulleyViewController.swift:390-397 | an ended tap commits the closed state at offset 0; other states change nothing |
| PulleyController.PulleyViewController.ScrollViewWillEndDragging | JKPullTableView/VC/JKPulleyViewController.swift:590-596 | the drawer's scroll view remembers the target offset; other scroll views change nothing |
| PulleyController.PulleyViewController.ScrollViewDidEndDragging | JKPullTableView/VC/JKPulleyViewController.swift:580-588 | the drawer's scroll view commits the resolved supported state for the remembered offset; other scroll views change nothing |
| PulleyController.PulleyViewController.DrawerScrollViewDidScroll | JKPullTableView/VC/JKPulleyViewController.swift:609-617 | the drawer may be dragged exactly when the inner content is at or above its top; the inner scroll view scrolls exactly when the drawer may not be dragged |
| PulleyController.PulleyViewController.ViewWillLayoutSubviews | JKPullTableView/VC/JKPulleyViewController.swift:230-284 | every frame is laid out, then the current status is re-committed without animation; the drawer's top ends at its stop above the bottom of the view |
| PulleyController.PulleyViewController.RouteTouchRule | JKPullTableView/VC/JKPulleyViewController.swift:553-569 | touches inside the drawer container stay with the scroll view; the others go to the overlay exactly when expanded, else to the content |
| PulleyController.LayoutIsIdempotent | JKPullTableView/VC/JKPulleyViewController.swift:230-284 | a second layout pass with the same inputs leaves the same state, and the delegate hears the same calls again |

## Findings

| source | as written | input that shows it | evidently intended | confidence | as-written member | corrected member |
|---|---|---|---|---|---|---|
| JKPullTableView/VC/JKPulleyViewController.swift:481-486 | `String(format: "0.2f", …)` has no `%`, so the string is always "0.2f". It does not parse as a Double, so the delegate always receives the fallback 0 | a drawer dragged half way (progress 0.5) reports 0 | `"%.2f"`: the progress rounded to hundredths (0.5) | high; not executed | PulleyGeometry.ReportedProgressAsWritten | PulleyGeometry.RoundToHundredths |

The controller reports the corrected, rounded progress.

## Left out

- The view hierarchy is left out: adding subviews, colours, navigation bar visibility, and the data sources' `mainView()` views. Only the numbers the controller reads and writes are modelled.
- `CGFloat` and `Float` arithmetic is modelled as exact real arithmetic. The `ulpOfOne` tolerances (in the progress clamp and in matching the winning stop to a state) become exact comparisons. `RoundToHundredths` rounds the exact value, where `%.2f` rounds the binary double.
- Animations are modelled by the state they end in. The duration, the spring parameters and the animated `setContentOffset` are left out.
- The iOS-version branches are left out. The safe-area insets are inputs; the content-inset adjustment behaviour and the content inset under iOS 11 are left out.
- UIKit's clamping or adjustment of the content offset when the scroll surface's frame or content size changes is left out. The offset changes only when the controller assigns it.
- Scrolling physics are left out: deceleration, bounces, the velocity-chosen target offset. The target offset is an input of `ScrollViewWillEndDragging`.
- Gesture simultaneity (`shouldRecognizeSimultaneouslyWith`) is left out. Each handler is called with the gesture state and translation it would see.
- Weak references are left out. An attached delegate is a flag; the content data source is a flag; the drawer data source is its three heights.
- The forced unwraps become `requires` clauses, and a nil value is not modelled: of `currentStatus` in the drag handlers and in choosing the view that receives a touch, of `drawerStops.min()` (at least one state must be supported), and of the data sources and of `currentStatus` in a layout pass.
- PulleyGeometry.RoundToHundredths: rounds ties half away from zero, a choice of this model. `%.2f` under the default rounding mode rounds an exact binary tie to even, so 0.125 prints as 0.12 where the model gives 0.13.
- PulleyGeometry.ReportedDragProgress: is the corrected reported value, the drag progress rounded to hundredths. As written, the source always sends 0; see Findings.
- PulleyController.PulleyViewController.UpdateDrawerDraggingProgress: reports the corrected progress, rounded to hundredths. As written, the source always sends 0; see Findings.
- That UIKit runs `scrollViewDidScroll` on every assignment of the content offset, including one that does not change it, is an assumption about UIKit. UIKit is not part of this model.
- `view.hitTest(_:with:)` of the receiving view is not modelled. `PulleyScrollView.HitTest` returns which view is asked, and at which point.
- The demo screens (`ViewController.swift`, `JKTopViewController.swift`, `JKBottomViewController.swift`) are not part of this model.
