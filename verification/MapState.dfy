/**
 * The component's own state and the events that change it, as values: the
 * hovered label, the selection, the tooltip anchor, and the props of the
 * latest render (whose closures the event handlers run in). Calls of the
 * global `onClick` are recorded in `onClickCalls`. A render that throws
 * unmounts the component: `crashed` is then set and no event changes the
 * state any more.
 */
module MapState {
  import opened Wrappers
  import opened Config
  import opened Resolvers
  import opened Anchor
  import opened Paths

  datatype State = State(
    props: Props,
    hovered: Option<string>,
    selected: string,
    anchor: Rect,
    onClickCalls: seq<string>,
    crashed: bool)

  /**
   * What the environment can do to the component: click a region, move the
   * pointer over a region, move the pointer out of the drawing, or render it
   * again with (possibly new) props.
   */
  datatype Event =
    | Click(key: string)
    | MouseMove(key: string, clientX: real, clientY: real)
    | MouseOut
    | Render(props: Props)

  /**
   * How the click handler ends: it returns the per-region handler itself,
   * returns what `onClick` returned, or throws a `TypeError` because
   * `onClick` was omitted.
   */
  datatype ClickOutcome = HandlerReturned(handler: Handler) | OnClickCalled(value: string) | OnClickMissing

  /** The state right after mounting with props `p`; the first render throws when a value is `null`. */
  function Initial(p: Props): (s: State)
    ensures s.props == p && s.selected == p.defaultSelected && s.hovered == None
    ensures IsPointAt(s.anchor, -50.0, -50.0) && s.onClickCalls == []
    ensures s.crashed <==> !AllDrawable(p.statesData)
  {
    State(p, None, p.defaultSelected, DefaultAnchor(), [], BuildPaths(p, p.defaultSelected).Failure?)
  }

  /**
   * The value of the click handler for `key`. A per-region `clickHandler`
   * is handed back without being called; only in its absence is `onClick`
   * called, with the key, and calling an omitted `onClick` throws.
   */
  function ClickResult(p: Props, key: string): (r: ClickOutcome)
    ensures r.HandlerReturned? <==> HasClickHandler(p, key)
    ensures r.HandlerReturned? ==> r.handler == p.customize[key].clickHandler.value
    ensures r.OnClickCalled? <==> !HasClickHandler(p, key) && p.onClick.Some?
    ensures r.OnClickCalled? ==> r.value == p.onClick.value(key)
    ensures r.OnClickMissing? <==> !HasClickHandler(p, key) && p.onClick.None?
  {
    if HasClickHandler(p, key) then HandlerReturned(p.customize[key].clickHandler.value)
    else if p.onClick.Some? then OnClickCalled(p.onClick.value(key))
    else OnClickMissing
  }

  /** The keys `onClick` is called with when `key` is clicked under props `p`. */
  function OnClickArgs(p: Props, key: string): (r: seq<string>)
    ensures r == [] <==> HasClickHandler(p, key) || p.onClick.None?
    ensures r != [] ==> r == [key]
  {
    if HasClickHandler(p, key) || p.onClick.None? then [] else [key]
  }

  /**
   * The effect of one event, taken as one atomic transition. A click sets
   * the selection before anything can throw, so it stands even when
   * `onClick` is missing.
   */
  function Step(s: State, e: Event): (t: State)
    ensures s.crashed ==> t == s
    ensures !s.crashed && e.Click? ==>
              t.selected == e.key && t.onClickCalls == s.onClickCalls + OnClickArgs(s.props, e.key) &&
              t.props == s.props && t.hovered == s.hovered && t.anchor == s.anchor && !t.crashed
    ensures !s.crashed && e.MouseMove? ==>
              IsPointAt(t.anchor, e.clientX, e.clientY - 20.0) && t.hovered == Some(HoverLabel(s.props, e.key)) &&
              t.props == s.props && t.selected == s.selected && t.onClickCalls == s.onClickCalls && !t.crashed
    ensures !s.crashed && e.MouseOut? ==>
              IsPointAt(t.anchor, -50.0, -50.0) && t.hovered == None &&
              t.props == s.props && t.selected == s.selected && t.onClickCalls == s.onClickCalls && !t.crashed
    ensures !s.crashed && e.Render? ==>
              t.props == e.props && (t.crashed <==> !AllDrawable(e.props.statesData)) &&
              t.hovered == s.hovered && t.onClickCalls == s.onClickCalls
    ensures !s.crashed && e.Render? && !t.crashed ==>
              IsPointAt(t.anchor, -50.0, -50.0) &&
              t.selected == (if e.props.defaultSelected != s.props.defaultSelected then e.props.defaultSelected else s.selected)
    ensures !s.crashed && e.Render? && t.crashed ==> t.selected == s.selected
  {
    if s.crashed then s else
    match e
    case Click(key) =>
      s.(selected := key, onClickCalls := s.onClickCalls + OnClickArgs(s.props, key))
    case MouseMove(key, x, y) =>
      s.(anchor := PointerAnchor(x, y), hovered := Some(HoverLabel(s.props, key)))
    case MouseOut =>
      s.(anchor := DefaultAnchor(), hovered := None)
    case Render(p) =>
      if BuildPaths(p, s.selected).Failure? then
        // Drawing a `null` value throws during rendering.
        s.(props := p, crashed := true)
      else
        // A render builds a fresh anchor object; the selection effect fires
        // only when `defaultSelected` differs from the previous render's.
        var selected := if p.defaultSelected != s.props.defaultSelected then p.defaultSelected else s.selected;
        s.(props := p, anchor := DefaultAnchor(), selected := selected)
  }

  /** The state after the events `es`, in order. */
  function Run(s: State, es: seq<Event>): State
    decreases |es|
  {
    if es == [] then s else Run(Step(s, es[0]), es[1..])
  }

  /** Running a trace and then one more event is one step after the trace. */
  lemma {:induction false} RunSnoc(s: State, es: seq<Event>, e: Event)
    ensures Run(s, es + [e]) == Step(Run(s, es), e)
    decreases |es|
  {
    if es == [] {
      assert [] + [e] == [e];
      assert [e][1..] == [];
    } else {
      assert (es + [e])[0] == es[0];
      assert (es + [e])[1..] == es[1..] + [e];
      RunSnoc(Step(s, es[0]), es[1..], e);
    }
  }

  /**
   * A state is consistent when, unless it has crashed, its dataset can be
   * drawn: every state reachable from mounting is.
   */
  predicate Consistent(s: State) {
    !s.crashed ==> AllDrawable(s.props.statesData)
  }

  /** Mounting gives a consistent state. */
  lemma InitialConsistent(p: Props)
    ensures Consistent(Initial(p))
  {
  }

  /** Every event keeps a state consistent, so every trace from mounting does. */
  lemma {:induction false} RunConsistent(s: State, es: seq<Event>)
    requires Consistent(s)
    ensures Consistent(Run(s, es))
    decreases |es|
  {
    if es != [] {
      assert Consistent(Step(s, es[0]));
      RunConsistent(Step(s, es[0]), es[1..]);
    }
  }

  /** Once the component has crashed, no trace changes its state. */
  lemma {:induction false} CrashIsFinal(s: State, es: seq<Event>)
    requires s.crashed
    ensures Run(s, es) == s
    decreases |es|
  {
    if es != [] {
      assert Step(s, es[0]) == s;
      CrashIsFinal(s, es[1..]);
    }
  }

  /**
   * A render whose dataset holds a `null` value unmounts the component: the
   * events after it have no effect.
   */
  lemma RenderWithNullValueCrashes(s: State, p: Props, es: seq<Event>)
    requires !s.crashed && !AllDrawable(p.statesData)
    ensures Step(s, Render(p)).crashed
    ensures Run(s, [Render(p)] + es) == Step(s, Render(p))
  {
    var t := Step(s, Render(p));
    assert ([Render(p)] + es)[0] == Render(p);
    assert ([Render(p)] + es)[1..] == es;
    CrashIsFinal(t, es);
  }

  /** A two-event trace is two steps. */
  lemma RunPair(s: State, e1: Event, e2: Event)
    ensures Run(s, [e1, e2]) == Step(Step(s, e1), e2)
  {
    var s1 := Step(s, e1);
    assert [e1, e2][1..] == [e2];
    assert Run(s, [e1, e2]) == Run(s1, [e2]);
    assert [e2][1..] == [];
    assert Run(s1, [e2]) == Run(Step(s1, e2), []);
  }

  // Reference definitions, read from the end of a trace: the last event
  // that sets a field decides it.

  predicate NoRender(es: seq<Event>) {
    forall i :: 0 <= i < |es| ==> !es[i].Render?
  }

  /** The label shown after `es`: set by the last pointer event, or still `h`. */
  function LastHovered(p: Props, h: Option<string>, es: seq<Event>): Option<string>
    decreases |es|
  {
    if es == [] then h
    else match es[|es| - 1]
      case MouseMove(key, _, _) => Some(HoverLabel(p, key))
      case MouseOut => None
      case _ => LastHovered(p, h, es[..|es| - 1])
  }

  /** The selection after `es`: the last clicked key, or still `sel`. */
  function LastSelected(sel: string, es: seq<Event>): string
    decreases |es|
  {
    if es == [] then sel
    else match es[|es| - 1]
      case Click(key) => key
      case _ => LastSelected(sel, es[..|es| - 1])
  }

  /** The anchor after `es`: placed by the last pointer event, or still `a`. */
  function LastAnchor(a: Rect, es: seq<Event>): Rect
    decreases |es|
  {
    if es == [] then a
    else match es[|es| - 1]
      case MouseMove(_, x, y) => PointerAnchor(x, y)
      case MouseOut => DefaultAnchor()
      case _ => LastAnchor(a, es[..|es| - 1])
  }

  /** The keys of the clicks in `es` on regions without a `clickHandler`, in order. */
  function OnClickLog(p: Props, es: seq<Event>): seq<string>
    decreases |es|
  {
    if es == [] then []
    else
      var before := OnClickLog(p, es[..|es| - 1]);
      match es[|es| - 1]
      case Click(key) => before + OnClickArgs(p, key)
      case _ => before
  }

  /**
   * Between two renders, every part of the state is what the last event
   * that sets it made it: hover and anchor follow the last pointer event,
   * the selection the last click, and `onClick` has been called once for
   * each click on a region without a `clickHandler` (when `onClick` is
   * supplied). A crashed component stays as it is.
   */
  lemma {:induction false} RunBetweenRenders(s: State, es: seq<Event>)
    requires NoRender(es)
    ensures s.crashed ==> Run(s, es) == s
    ensures Run(s, es).crashed == s.crashed && Run(s, es).props == s.props
    ensures !s.crashed ==> Run(s, es).hovered == LastHovered(s.props, s.hovered, es)
    ensures !s.crashed ==> Run(s, es).selected == LastSelected(s.selected, es)
    ensures !s.crashed ==> Run(s, es).anchor == LastAnchor(s.anchor, es)
    ensures !s.crashed ==> Run(s, es).onClickCalls == s.onClickCalls + OnClickLog(s.props, es)
    decreases |es|
  {
    if es != [] {
      var init, e := es[..|es| - 1], es[|es| - 1];
      assert es == init + [e];
      assert NoRender(init) by {
        forall i | 0 <= i < |init| ensures !init[i].Render? { assert init[i] == es[i]; }
      }
      RunBetweenRenders(s, init);
      RunSnoc(s, init, e);
    }
  }

  /**
   * An event that cannot move the selection while the props' default is
   * `d`: a pointer event, or a render that keeps `defaultSelected` at `d`
   * (such as the re-render a label change causes).
   */
  predicate SelectionNeutral(d: string, e: Event) {
    e.MouseMove? || e.MouseOut? || (e.Render? && e.props.defaultSelected == d)
  }

  /** Every render in `es` re-renders with the props `p`. */
  ghost predicate RendersOnlyWith(p: Props, es: seq<Event>) {
    forall i :: 0 <= i < |es| && es[i].Render? ==> es[i].props == p
  }

  /**
   * Hovering, leaving and re-rendering with the same `defaultSelected` never
   * change the selection. When every render repeats the current props, no
   * region's fill changes either.
   */
  lemma {:induction false} HoverIndependentOfSelection(s: State, es: seq<Event>, key: string)
    requires forall i :: 0 <= i < |es| ==> SelectionNeutral(s.props.defaultSelected, es[i])
    ensures Run(s, es).selected == s.selected
    ensures Run(s, es).props.defaultSelected == s.props.defaultSelected
    ensures RendersOnlyWith(s.props, es) ==> Run(s, es).props == s.props
    ensures RendersOnlyWith(s.props, es) ==>
              Fill(Run(s, es).props, Run(s, es).selected, key) == Fill(s.props, s.selected, key)
    decreases |es|
  {
    if es != [] {
      var init, e := es[..|es| - 1], es[|es| - 1];
      assert es == init + [e];
      assert forall i :: 0 <= i < |init| ==> init[i] == es[i];
      assert RendersOnlyWith(s.props, es) ==> RendersOnlyWith(s.props, init);
      HoverIndependentOfSelection(s, init, key);
      RunSnoc(s, init, e);
    }
  }

  /** Selecting a region and then changing `defaultSelected` selects the new default. */
  lemma ClickThenNewDefault(s: State, key: string, p: Props)
    requires !s.crashed && AllDrawable(p.statesData)
    requires p.defaultSelected != s.props.defaultSelected
    ensures Run(s, [Click(key), Render(p)]).selected == p.defaultSelected
  {
    RunPair(s, Click(key), Render(p));
  }

  /** Re-rendering with the same `defaultSelected` keeps a clicked selection. */
  lemma ClickThenSameDefault(s: State, key: string, p: Props)
    requires !s.crashed
    requires p.defaultSelected == s.props.defaultSelected
    ensures Run(s, [Click(key), Render(p)]).selected == key
  {
    RunPair(s, Click(key), Render(p));
  }

  /**
   * Moving from region `a` to region `b`: the browser delivers a move over
   * `a`, the `mouseout` that bubbles up from `a`, and a move over `b`, and
   * each of the three label changes re-renders the component with the same
   * props. Just after the move over `b` the anchor is at the pointer; the
   * re-render that follows replaces it by a fresh off-screen anchor. At the
   * end `b`'s label is shown and the selection is kept.
   */
  lemma HoverAThenB(s: State, a: string, b: string, x1: real, y1: real, x2: real, y2: real)
    requires !s.crashed && Consistent(s)
    ensures IsPointAt(Run(s, [MouseMove(a, x1, y1), Render(s.props), MouseOut, Render(s.props),
                              MouseMove(b, x2, y2)]).anchor, x2, y2 - 20.0)
    ensures Run(s, [MouseMove(a, x1, y1), Render(s.props), MouseOut, Render(s.props),
                    MouseMove(b, x2, y2), Render(s.props)]).hovered == Some(HoverLabel(s.props, b))
    ensures IsPointAt(Run(s, [MouseMove(a, x1, y1), Render(s.props), MouseOut, Render(s.props),
                              MouseMove(b, x2, y2), Render(s.props)]).anchor, -50.0, -50.0)
    ensures Run(s, [MouseMove(a, x1, y1), Render(s.props), MouseOut, Render(s.props),
                    MouseMove(b, x2, y2), Render(s.props)]).selected == s.selected
  {
    var m1, r, m2 := MouseMove(a, x1, y1), Render(s.props), MouseMove(b, x2, y2);
    RunPair(s, m1, r);
    assert [m1, r, MouseOut] == [m1, r] + [MouseOut];
    RunSnoc(s, [m1, r], MouseOut);
    assert [m1, r, MouseOut, r] == [m1, r, MouseOut] + [r];
    RunSnoc(s, [m1, r, MouseOut], r);
    assert [m1, r, MouseOut, r, m2] == [m1, r, MouseOut, r] + [m2];
    RunSnoc(s, [m1, r, MouseOut, r], m2);
    assert [m1, r, MouseOut, r, m2, r] == [m1, r, MouseOut, r, m2] + [r];
    RunSnoc(s, [m1, r, MouseOut, r, m2], r);
  }

  /** After the pointer leaves the mounted drawing, no label is shown and the anchor is off-screen. */
  lemma MouseOutClears(s: State, es: seq<Event>)
    ensures !Run(s, es).crashed ==> Run(s, es + [MouseOut]).hovered == None
    ensures !Run(s, es).crashed ==> IsPointAt(Run(s, es + [MouseOut]).anchor, -50.0, -50.0)
  {
    RunSnoc(s, es, MouseOut);
  }
}
