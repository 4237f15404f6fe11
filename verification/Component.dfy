/**
 * The component instance: its state fields and the handlers that update
 * them in place. Each handler is one atomic transition, proved to agree
 * with `MapState.Step`.
 */
module Component {
  import opened Wrappers
  import opened Config
  import opened Resolvers
  import opened Anchor
  import opened Paths
  import opened MapState

  class CountryStateMap {
    /** The props of the latest render, read by the handlers. */
    var props: Props
    /** `currentHovered`: the tooltip label, `None` for `null`. */
    var hovered: Option<string>
    /** `currentSelection`. */
    var selected: string
    /** What `virtualElement.getBoundingClientRect` currently returns. */
    var anchor: Rect
    /** The keys the global `onClick` has been called with, oldest first. */
    var onClickCalls: seq<string>
    /** A render threw, so the component is unmounted and gets no more events. */
    var crashed: bool

    /** The instance as a value. */
    ghost function View(): State
      reads this
    {
      State(props, hovered, selected, anchor, onClickCalls, crashed)
    }

    /**
     * Mounting: nothing hovered, the default selected, the anchor off-screen;
     * the first render throws when the dataset holds a `null` value.
     */
    constructor (p: Props)
      ensures View() == Initial(p)
      ensures crashed <==> !AllDrawable(p.statesData)
    {
      props := p;
      hovered := None;
      selected := p.defaultSelected;
      anchor := DefaultAnchor();
      onClickCalls := [];
      crashed := BuildPaths(p, p.defaultSelected).Failure?;
    }

    /**
     * `stateClickHandler`: selects `key` unconditionally, then returns the
     * region's `clickHandler` uncalled, or else calls `onClick(key)`, which
     * throws when `onClick` was omitted.
     */
    method StateClickHandler(key: string) returns (r: ClickOutcome)
      requires !crashed
      modifies this
      ensures View() == Step(old(View()), Click(key))
      ensures selected == key && !crashed
      ensures hovered == old(hovered) && anchor == old(anchor) && props == old(props)
      ensures onClickCalls == old(onClickCalls) + OnClickArgs(props, key)
      ensures r == ClickResult(props, key)
    {
      selected := key;
      if HasClickHandler(props, key) {
        r := HandlerReturned(props.customize[key].clickHandler.value);
      } else if props.onClick.Some? {
        onClickCalls := onClickCalls + [key];
        r := OnClickCalled(props.onClick.value(key));
      } else {
        r := OnClickMissing;
      }
    }

    /** The `onMouseMove` handler of region `key`: moves the anchor above the pointer and shows the label. */
    method MouseMoveHandler(key: string, clientX: real, clientY: real)
      requires !crashed
      modifies this
      ensures View() == Step(old(View()), MouseMove(key, clientX, clientY))
      ensures IsPointAt(anchor, clientX, clientY - 20.0)
      ensures hovered == Some(HoverLabel(props, key))
      ensures selected == old(selected) && props == old(props) && onClickCalls == old(onClickCalls) && !crashed
    {
      anchor := PointerAnchor(clientX, clientY);
      hovered := Some(HoverLabel(props, key));
    }

    /** `handleHoverExit`: moves the anchor off-screen and clears the label. */
    method HandleHoverExit()
      requires !crashed
      modifies this
      ensures View() == Step(old(View()), MouseOut)
      ensures IsPointAt(anchor, -50.0, -50.0) && hovered == None
      ensures selected == old(selected) && props == old(props) && onClickCalls == old(onClickCalls) && !crashed
    {
      anchor := DefaultAnchor();
      hovered := None;
    }

    /**
     * A render with props `p`. It throws, unmounting the component, when the
     * dataset holds a `null` value. Otherwise it builds a fresh anchor, and
     * resets the selection to `p.defaultSelected` exactly when that changed
     * since the last render.
     */
    method Rerender(p: Props)
      requires !crashed
      modifies this
      ensures View() == Step(old(View()), Render(p))
      ensures props == p && (crashed <==> !AllDrawable(p.statesData))
      ensures !crashed ==> IsPointAt(anchor, -50.0, -50.0)
      ensures !crashed && p.defaultSelected != old(props.defaultSelected) ==> selected == p.defaultSelected
      ensures crashed || p.defaultSelected == old(props.defaultSelected) ==> selected == old(selected)
      ensures hovered == old(hovered) && onClickCalls == old(onClickCalls)
    {
      if BuildPaths(p, selected).Failure? {
        crashed := true;
      } else {
        anchor := DefaultAnchor();
        if p.defaultSelected != props.defaultSelected {
          selected := p.defaultSelected;
        }
      }
      props := p;
    }
  }
}
