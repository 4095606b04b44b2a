/**
  The snap decision taken when a drag ends: the supported states'
  stops are searched for the one nearest the drawer's position, and the
  winning stop is mapped back to a state.
 */
module PulleyResolver {
  import opened PulleyStatus
  import opened PulleyGeometry

  predicate HasStop(supported: Status) {
    Closed in supported || PartiallyExpand in supported || Expand in supported
  }

  /** x is the stop of one of the supported resting states. */
  predicate IsStopOf(x: real, supported: Status, closed: real, partial: real, scrollHeight: real) {
    || (Closed in supported && x == closed)
    || (PartiallyExpand in supported && x == partial)
    || (Expand in supported && x == scrollHeight)
  }

  /** 1 when the state is supported, else 0. */
  function CountIf(f: Flag, supported: Status): nat {
    if f in supported then 1 else 0
  }

  /**
    The candidate stops: one per supported state, listed closed, partially
    expanded, expanded.
   */
  function DrawerStops(supported: Status, closed: real, partial: real, scrollHeight: real): (stops: seq<real>)
    ensures |stops| == CountIf(Closed, supported) + CountIf(PartiallyExpand, supported) + CountIf(Expand, supported)
    ensures |stops| > 0 <==> HasStop(supported)
    ensures Closed in supported ==> stops[0] == closed
    ensures PartiallyExpand in supported ==> stops[CountIf(Closed, supported)] == partial
    ensures Expand in supported ==> stops[|stops| - 1] == scrollHeight
    ensures forall x :: x in stops <==> IsStopOf(x, supported, closed, partial, scrollHeight)
  {
    (if Closed in supported then [closed] else [])
      + (if PartiallyExpand in supported then [partial] else [])
      + (if Expand in supported then [scrollHeight] else [])
  }

  /** The smallest stop (Array.min()). */
  function Lowest(stops: seq<real>): (low: real)
    requires |stops| > 0
    ensures low in stops
    ensures forall k :: 0 <= k < |stops| ==> low <= stops[k]
  {
    if |stops| == 1 then stops[0]
    else
      var rest := Lowest(stops[1..]);
      if stops[0] <= rest then stops[0] else rest
  }

  function Distance(a: real, b: real): real {
    Abs(a - b)
  }

  /**
    The scan over the stops: a stop replaces the best one so far only when
    it is strictly nearer the target.
   */
  function Closest(stops: seq<real>, target: real, best: real): real
    decreases |stops|
  {
    if stops == [] then best
    else Closest(stops[1..], target, if Distance(stops[0], target) < Distance(best, target) then stops[0] else best)
  }

  /** The scan's winner is one of the stops or the initial best, and nothing is nearer. */
  lemma {:induction false} ClosestIsNearest(stops: seq<real>, target: real, best: real)
    ensures var w := Closest(stops, target, best);
      (w == best || w in stops)
      && Distance(w, target) <= Distance(best, target)
      && (forall k :: 0 <= k < |stops| ==> Distance(w, target) <= Distance(stops[k], target))
      && (forall x :: x in stops ==> Distance(w, target) <= Distance(x, target))
  {
    if stops != [] {
      var next := if Distance(stops[0], target) < Distance(best, target) then stops[0] else best;
      ClosestIsNearest(stops[1..], target, next);
      var w := Closest(stops, target, best);
      forall k | 0 <= k < |stops|
        ensures Distance(w, target) <= Distance(stops[k], target)
      {
        if k > 0 {
          assert stops[k] == stops[1..][k - 1];
        }
      }
    }
  }

  /**
    Ties keep the earlier candidate: the initial best survives unless some
    stop is strictly nearer, and otherwise the winner is a stop strictly
    nearer than the initial best and than every stop listed before it.
   */
  lemma {:induction false} ClosestPrefersEarlier(stops: seq<real>, target: real, best: real)
    ensures var w := Closest(stops, target, best);
      || (w == best && forall k :: 0 <= k < |stops| ==> Distance(best, target) <= Distance(stops[k], target))
      || (exists j :: 0 <= j < |stops| && w == stops[j] && Distance(w, target) < Distance(best, target)
            && forall i :: 0 <= i < j ==> Distance(w, target) < Distance(stops[i], target))
  {
    var w := Closest(stops, target, best);
    if stops == [] {
      return;
    }
    var next := if Distance(stops[0], target) < Distance(best, target) then stops[0] else best;
    var rest := stops[1..];
    ClosestPrefersEarlier(rest, target, next);
    ClosestIsNearest(stops, target, best);
    if w == next && forall k :: 0 <= k < |rest| ==> Distance(next, target) <= Distance(rest[k], target) {
      if next == best {
        forall k | 0 <= k < |stops|
          ensures Distance(best, target) <= Distance(stops[k], target)
        {
          if k > 0 {
            assert stops[k] == rest[k - 1];
          }
        }
      } else {
        assert w == stops[0];
      }
    } else {
      var j :| 0 <= j < |rest| && w == rest[j] && Distance(w, target) < Distance(next, target)
        && forall i :: 0 <= i < j ==> Distance(w, target) < Distance(rest[i], target);
      assert w == stops[j + 1];
      forall i | 0 <= i < j + 1
        ensures Distance(w, target) < Distance(stops[i], target)
      {
        if i > 0 {
          assert stops[i] == rest[i - 1];
        }
      }
    }
  }

  /** The stop the drawer snaps to: the nearest stop to lowest + offset.y. */
  function WinningStop(lastOffsetY: real, supported: Status, closed: real, partial: real, scrollHeight: real): real
    requires HasStop(supported)
  {
    var stops := DrawerStops(supported, closed, partial, scrollHeight);
    var lowest := Lowest(stops);
    Closest(stops, lowest + lastOffsetY, lowest)
  }

  /** The position, measured from the bottom, that a drag offset stands for. */
  function SnapTarget(lastOffsetY: real, supported: Status, closed: real, partial: real, scrollHeight: real): real
    requires HasStop(supported)
  {
    Lowest(DrawerStops(supported, closed, partial, scrollHeight)) + lastOffsetY
  }

  /**
    Map the winning stop back to a state: expanded when it is the scroll
    height, closed when it is the closed height, else partially expanded,
    else the current status, each only when supported.
   */
  function StateOfStop(w: real, current: Status, supported: Status, closed: real, scrollHeight: real): Status {
    if Abs(w - scrollHeight) == 0.0 && Expand in supported then {Expand}
    else if Abs(w - closed) == 0.0 && Closed in supported then {Closed}
    else if PartiallyExpand in supported then {PartiallyExpand}
    else current
  }

  /** newStatusFrom, as a function of its inputs. */
  function Resolve(current: Status, lastOffsetY: real, supported: Status, closed: real, partial: real, scrollHeight: real): Status
    requires HasStop(supported)
  {
    StateOfStop(WinningStop(lastOffsetY, supported, closed, partial, scrollHeight), current, supported, closed, scrollHeight)
  }

  /** The winning stop is a supported state's stop nearest the target. */
  lemma WinningStopIsNearest(lastOffsetY: real, supported: Status, closed: real, partial: real, scrollHeight: real)
    requires HasStop(supported)
    ensures var w := WinningStop(lastOffsetY, supported, closed, partial, scrollHeight);
      var t := SnapTarget(lastOffsetY, supported, closed, partial, scrollHeight);
      IsStopOf(w, supported, closed, partial, scrollHeight)
      && forall x :: IsStopOf(x, supported, closed, partial, scrollHeight) ==> Distance(w, t) <= Distance(x, t)
  {
    var stops := DrawerStops(supported, closed, partial, scrollHeight);
    var lowest := Lowest(stops);
    var t := lowest + lastOffsetY;
    ClosestIsNearest(stops, t, lowest);
    var w := Closest(stops, t, lowest);
    assert w in stops;
    forall x | IsStopOf(x, supported, closed, partial, scrollHeight)
      ensures Distance(w, t) <= Distance(x, t)
    {
      assert x in stops;
    }
  }

  /**
    The resolved status is always exactly one supported resting state: the
    fallback to the current status is never taken while some state is
    supported.
   */
  lemma ResolveIsSupportedState(current: Status, lastOffsetY: real, supported: Status, closed: real, partial: real, scrollHeight: real)
    requires HasStop(supported)
    ensures var r := Resolve(current, lastOffsetY, supported, closed, partial, scrollHeight);
      (r == {Closed} || r == {PartiallyExpand} || r == {Expand}) && r <= supported
  {
    WinningStopIsNearest(lastOffsetY, supported, closed, partial, scrollHeight);
  }

  /** Resolve is the state of whatever stop the scan over the supported stops ends on. */
  lemma ResolveOfScannedStop(current: Status, lastOffsetY: real, supported: Status, closed: real, partial: real, scrollHeight: real, w: real)
    requires HasStop(supported)
    requires var stops := DrawerStops(supported, closed, partial, scrollHeight);
      w == Closest(stops, Lowest(stops) + lastOffsetY, Lowest(stops))
    ensures Resolve(current, lastOffsetY, supported, closed, partial, scrollHeight) == StateOfStop(w, current, supported, closed, scrollHeight)
    ensures var r := StateOfStop(w, current, supported, closed, scrollHeight);
      (r == {Closed} || r == {PartiallyExpand} || r == {Expand}) && r <= supported
  {
    ResolveIsSupportedState(current, lastOffsetY, supported, closed, partial, scrollHeight);
  }

  /** The resolved state's own stop is the winning one, hence nearest the target. */
  lemma ResolveSnapsToNearestStop(current: Status, lastOffsetY: real, supported: Status, closed: real, partial: real, scrollHeight: real, f: Flag)
    requires HasStop(supported)
    requires Resolve(current, lastOffsetY, supported, closed, partial, scrollHeight) == {f}
    ensures f in supported
    ensures var t := SnapTarget(lastOffsetY, supported, closed, partial, scrollHeight);
      forall g :: g in supported * DrawerStates ==>
        Distance(StopOfState(f, closed, partial, scrollHeight), t) <= Distance(StopOfState(g, closed, partial, scrollHeight), t)
  {
    ResolveIsSupportedState(current, lastOffsetY, supported, closed, partial, scrollHeight);
    WinningStopIsNearest(lastOffsetY, supported, closed, partial, scrollHeight);
    var w := WinningStop(lastOffsetY, supported, closed, partial, scrollHeight);
    assert f in {f};
    assert StopOfState(f, closed, partial, scrollHeight) == w;
    forall g | g in supported * DrawerStates
      ensures IsStopOf(StopOfState(g, closed, partial, scrollHeight), supported, closed, partial, scrollHeight)
    {
    }
  }

  /**
    A drawer resting at a supported state's stop snaps back to that state,
    when the closed state is supported, the stops are strictly increasing
    and the expanded stop is the scroll height.
   */
  lemma ResolveAtRestIsIdentity(current: Status, f: Flag, supported: Status, closed: real, partial: real, scrollHeight: real)
    requires Closed in supported && f in supported * DrawerStates
    requires closed < partial < scrollHeight
    ensures Resolve(current, StopOfState(f, closed, partial, scrollHeight) - closed, supported, closed, partial, scrollHeight) == {f}
  {
    var stops := DrawerStops(supported, closed, partial, scrollHeight);
    var stop := StopOfState(f, closed, partial, scrollHeight);
    assert closed in stops;
    var lowest := Lowest(stops);
    assert lowest == closed by {
      var k :| 0 <= k < |stops| && stops[k] == closed;
      assert IsStopOf(lowest, supported, closed, partial, scrollHeight);
    }
    WinningStopIsNearest(stop - closed, supported, closed, partial, scrollHeight);
    var w := WinningStop(stop - closed, supported, closed, partial, scrollHeight);
    assert IsStopOf(stop, supported, closed, partial, scrollHeight);
    assert Distance(w, stop) <= Distance(stop, stop);
    assert w == stop;
  }

  /**
    Ties with the lowest stop go to the lowest stop, because the scan starts
    from it: when no supported stop is strictly nearer the target than the
    lowest one, the drawer resolves to the lowest stop's state.
   */
  lemma ResolveKeepsLowestOnTie(current: Status, lastOffsetY: real, supported: Status, closed: real, partial: real, scrollHeight: real)
    requires HasStop(supported)
    requires var lowest := Lowest(DrawerStops(supported, closed, partial, scrollHeight));
      forall x :: IsStopOf(x, supported, closed, partial, scrollHeight) ==> Distance(lowest, lowest + lastOffsetY) <= Distance(x, lowest + lastOffsetY)
    ensures var lowest := Lowest(DrawerStops(supported, closed, partial, scrollHeight));
      WinningStop(lastOffsetY, supported, closed, partial, scrollHeight) == lowest
      && Resolve(current, lastOffsetY, supported, closed, partial, scrollHeight) == StateOfStop(lowest, current, supported, closed, scrollHeight)
  {
    var stops := DrawerStops(supported, closed, partial, scrollHeight);
    var lowest := Lowest(stops);
    var t := lowest + lastOffsetY;
    forall k | 0 <= k < |stops|
      ensures Distance(lowest, t) <= Distance(stops[k], t)
    {
      assert IsStopOf(stops[k], supported, closed, partial, scrollHeight);
    }
    ClosestPrefersEarlier(stops, t, lowest);
  }

  /**
    With all three states supported and increasing stops, a drawer released
    exactly half way between the partially expanded and expanded stops
    partially expands: the stop listed first wins the tie.
   */
  lemma TieBetweenPartialAndExpandKeepsPartial(current: Status, supported: Status, closed: real, partial: real, scrollHeight: real)
    requires Closed in supported && PartiallyExpand in supported && Expand in supported
    requires closed < partial < scrollHeight
    ensures Resolve(current, (partial + scrollHeight) / 2.0 - closed, supported, closed, partial, scrollHeight) == {PartiallyExpand}
  {
    var y := (partial + scrollHeight) / 2.0 - closed;
    var stops := DrawerStops(supported, closed, partial, scrollHeight);
    assert stops == [closed, partial, scrollHeight];
    var lowest := Lowest(stops);
    assert lowest == closed by {
      assert stops[1..] == [partial, scrollHeight];
      assert stops[1..][1..] == [scrollHeight];
    }
    var t := (partial + scrollHeight) / 2.0;
    assert lowest + y == t;
    ClosestPrefersEarlier(stops, t, lowest);
    var w := Closest(stops, t, lowest);
    assert Distance(partial, t) == Distance(scrollHeight, t);
    assert Distance(partial, t) < Distance(closed, t);
    assert w == partial;
  }

  /**
    When the closed state is not supported, the resolver still measures the
    offset from the lowest supported stop while update places the drawer at
    stop - closed height. A drawer resting at the partially expanded stop,
    released without moving, snaps to expanded whenever the scroll height is
    nearer 2 * partial - closed than the partial stop is.
   */
  lemma ClosedUnsupportedRestIsMisread(current: Status, closed: real, partial: real, expand: real, scrollHeight: real)
    requires 0.0 < closed < partial < scrollHeight
    requires Abs(scrollHeight - (2.0 * partial - closed)) < partial - closed
    ensures StopFor({PartiallyExpand}, closed, partial, expand, scrollHeight) == partial
    ensures Resolve(current, StopFor({PartiallyExpand}, closed, partial, expand, scrollHeight) - closed,
                    {PartiallyExpand, Expand}, closed, partial, scrollHeight) == {Expand}
  {
    var supported := {PartiallyExpand, Expand};
    var stops := DrawerStops(supported, closed, partial, scrollHeight);
    assert stops == [partial, scrollHeight];
    assert Lowest(stops) == partial by {
      assert stops[1..] == [scrollHeight];
    }
    WinningStopIsNearest(partial - closed, supported, closed, partial, scrollHeight);
    var w := WinningStop(partial - closed, supported, closed, partial, scrollHeight);
    assert IsStopOf(scrollHeight, supported, closed, partial, scrollHeight);
    assert w == scrollHeight;
  }

  /** Supported {closed, expanded}, closed 170, scroll height 800, offset 500: expanded wins. */
  lemma ClosedOrExpandScenario(current: Status)
    ensures Resolve(current, 500.0, {Closed, Expand}, 170.0, 264.0, 800.0) == {Expand}
  {
    var stops := DrawerStops({Closed, Expand}, 170.0, 264.0, 800.0);
    assert stops == [170.0, 800.0];
    assert Lowest(stops) == 170.0;
  }

  /** All three supported and the offset at partial - closed: partially expanded wins. */
  lemma PartialScenario(current: Status, closed: real, partial: real, scrollHeight: real)
    requires closed < partial < scrollHeight
    ensures Resolve(current, partial - closed, {Closed, PartiallyExpand, Expand}, closed, partial, scrollHeight) == {PartiallyExpand}
  {
    ResolveAtRestIsIdentity(current, PartiallyExpand, {Closed, PartiallyExpand, Expand}, closed, partial, scrollHeight);
  }

  /** Halfway between closed and partial the tie keeps the lowest stop, so the drawer closes. */
  lemma TieGoesToLowestScenario(current: Status)
    ensures Resolve(current, 100.0, {Closed, PartiallyExpand}, 100.0, 300.0, 700.0) == {Closed}
  {
    var stops := DrawerStops({Closed, PartiallyExpand}, 100.0, 300.0, 700.0);
    assert stops == [100.0, 300.0];
    assert Lowest(stops) == 100.0 by {
      assert stops[1..] == [300.0];
    }
    assert Closest(stops, 200.0, 100.0) == 100.0 by {
      assert Closest(stops, 200.0, 100.0) == Closest([300.0], 200.0, 100.0) by {
        assert stops[1..] == [300.0];
      }
      assert Closest([300.0], 200.0, 100.0) == Closest([], 200.0, 100.0) by {
        assert [300.0][1..] == [];
      }
    }
  }

  /**
    The resolver measures the expanded stop as the scroll height even when a
    positive expanded height is configured. A drawer that update moved to a
    configured expanded height nearer the partially expanded stop than the
    scroll height, released where it rests, snaps to the partially expanded
    state.
   */
  lemma ConfiguredExpandHeightIsMisread(current: Status, closed: real, partial: real, expand: real, scrollHeight: real)
    requires 0.0 < closed < partial < expand < scrollHeight
    requires expand - partial < scrollHeight - expand
    ensures StopFor({Expand}, closed, partial, expand, scrollHeight) == expand
    ensures Resolve(current, StopFor({Expand}, closed, partial, expand, scrollHeight) - closed,
                    {Closed, PartiallyExpand, Expand}, closed, partial, scrollHeight) == {PartiallyExpand}
  {
    var supported := {Closed, PartiallyExpand, Expand};
    var stops := DrawerStops(supported, closed, partial, scrollHeight);
    var lowest := Lowest(stops);
    assert lowest == closed by {
      assert closed in stops;
      var k :| 0 <= k < |stops| && stops[k] == closed;
      assert IsStopOf(lowest, supported, closed, partial, scrollHeight);
    }
    WinningStopIsNearest(expand - closed, supported, closed, partial, scrollHeight);
    var w := WinningStop(expand - closed, supported, closed, partial, scrollHeight);
    assert IsStopOf(partial, supported, closed, partial, scrollHeight);
    assert Distance(w, expand) <= Distance(partial, expand);
    assert w == partial;
  }
}
