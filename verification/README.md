# CountryStateMap in Dafny

A model of the decision logic and the state of `CountryStateMap`. This is a React component that draws a country's regions (states or provinces) as SVG paths, colours them, shows a tooltip label for the region under the pointer, and tracks which region is selected. The model covers:

- the fill resolver (`Resolvers.Fill`). Its priority order is: the selection highlight, then a per-region `fillHandler`, then a truthy static `fill`, then `defaultFill`. JavaScript truthiness is spelled out: an empty or `null` `selectedFill` or `fill` counts as absent.
- the hover-label resolver (`Resolvers.HoverLabel`);
- the synthetic anchor rectangle the tooltip is positioned against (`Anchor`);
- the path list, one entry per `statesData` key with its resolved fill (`Paths`);
- the component state (hovered label, selection, anchor, the props of the latest render) and the four events that change it. These are modelled twice:
  - as values: `MapState.Step`, `MapState.Run`, and lemmas over event traces;
  - as a class whose handler methods update fields in place: `Component.CountryStateMap`. Each method is proved to agree with `Step`.

Modelling choices:
- Caller callbacks (`fillHandler`, `hoverHandler`, `clickHandler`, `onClick`) are opaque functions `string -> string`. The global `onClick` is only ever called with a key. The model records those calls in `onClickCalls`, so it can state when `onClick` runs.
- The component never calls a per-region `clickHandler`. `stateClickHandler` returns it (`index.js:60`), and the JSX wrapper throws the return value away (`index.js:109-111`). The global `onClick` is called only when there is no such handler (`index.js:62`). The model keeps this asymmetry as it is.
- `onClick` is `Option<Handler>`: `propTypes` marks it required, but that is only a development-time warning. When it is omitted, the fallback click path throws a `TypeError` (`ClickOutcome.OnClickMissing`). The selection was already set at `index.js:58`, so it stands.
- `customize` is a map from key to `Customization`. A `null` table and a falsy entry both behave like a missing key, because of the `customize && customize[state]` guards. So a missing key stands for all three.
- `statesData` is the sequence of `(key, value)` pairs in `Object.keys` order. A value that is `null` or `undefined` makes the destructuring at `index.js:98` throw. `PathsOf` then fails with that key. A value without `dimensions` draws a path with no geometry.
- A render that throws unmounts the component. The state then has `crashed` set, and no later event changes it (`CrashIsFinal`). This holds for the first render (`Initial`) and for any later render (`Step` on `Render`). The handler methods of the class require a mounted component, because an unmounted one receives no events.
- Every render builds a new `virtualElement` (`index.js:76-79`). So a render puts the anchor back at (-50, -50) (`Step` on `Render`). The `defaultSelected` effect (`index.js:126-128`) runs only when `defaultSelected` differs from the previous render's value. So a render with an unchanged default keeps a selection made by clicking.
- Pointer coordinates are `real`, because `clientX` and `clientY` are JavaScript numbers.
- Events are any sequence the environment produces. `mouseout` bubbles, so in a browser, moving from one region to another delivers `MouseOut` and then `MouseMove`. The model places no constraint on event order.

## Model

| member | source | states |
|---|---|---|
| Config.DefaultProps | index.js:157-165 | The default props: an empty table and dataset, `defaultFill` "grey", `selectedFill` "skyblue", `defaultSelected` "". No key has any handler or static fill. |
| Resolvers.Fill | index.js:37-48 | A truthy `selectedFill` on the selected key wins. Otherwise a `fillHandler` applied to the key. Otherwise a truthy static `fill`. Otherwise `defaultFill`. Each case is stated with the exact conditions that lead to it. |
| Resolvers.UncustomizedFill | index.js:44-47 | A key absent from `customize` gets `selectedFill` if it is selected and `selectedFill` is truthy, and `defaultFill` otherwise. |
| Resolvers.SelectedFillIgnoresCustomize | index.js:38-40 | When the highlight applies, the fill is `selectedFill` whatever the customization table holds. |
| Resolvers.FalsySelectedFillFallsThrough | index.js:38-47 | With an absent or empty `selectedFill`, every key (the selected one included) gets the fill it would get with no highlight at all: the `fillHandler`, static `fill` and `defaultFill` rules decide. |
| Resolvers.DefaultPropsFill | index.js:157-165 | With the default props and the default selection `""`, the key `""` fills "skyblue" and every other key fills "grey". |
| Resolvers.HoverLabel | index.js:50-55 | The label is `hoverHandler(key)` when the key has one, and exactly the key otherwise. |
| Anchor.BoundingRect | index.js:65-74 | The rectangle for (x, y) has width and height 0, top = bottom = y and left = right = x. |
| Anchor.PointDeterminesRect | index.js:66-73 | Those six facts fix the rectangle completely. |
| Anchor.DefaultAnchor | index.js:65-79 | The default anchor is the point (-50, -50). |
| Anchor.PointerAnchor | index.js:112-116 | A move at (cx, cy) gives the point (cx, cy - 20), strictly above the pointer. |
| Paths.PathsOf | index.js:96-122 | Mapping succeeds exactly when no value is `null`/`undefined`, and then yields one path per entry in order: the same key, its `dimensions` and `Fill` of the key. Otherwise it fails with the key of the first such value. |
| Paths.BuildPaths | index.js:94-99 | `buildPaths` over the whole dataset succeeds exactly when no value is `null`/`undefined`. It then gives one entry per key, in order, each with that key's resolved fill. Otherwise it fails with the first key that throws. |
| Paths.BuildPathsKeys | index.js:96-99 | The set of drawn keys equals the set of keys of `statesData`. |
| Paths.BuildPathsDistinctKeys | index.js:97-107 | When the dataset's keys are distinct, as an object's keys are, the drawn paths have pairwise distinct keys. |
| MapState.Initial | index.js:33-35 | After mounting: nothing hovered, selection = `defaultSelected`, anchor at (-50, -50), `onClick` not yet called. Crashed exactly when the dataset holds a `null`/`undefined` value, so the first render throws. |
| MapState.ClickResult | index.js:57-63 | The click handler returns the region's `clickHandler`, uncalled, exactly when one is configured. It returns `onClick(key)` exactly when there is none and `onClick` is supplied. It throws exactly when there is none and `onClick` is omitted. |
| MapState.OnClickArgs | index.js:59-62 | `onClick` is called, once and with the key, exactly when the key has no `clickHandler` and `onClick` is supplied. |
| MapState.Step | index.js:57-128 | One event as one transition. A crashed state stays as it is. A click sets the selection to the key and appends `OnClickArgs` to the `onClick` log. A move puts the anchor at (cx, cy - 20) and shows `HoverLabel`. A mouse-out puts the anchor at (-50, -50) and clears the label. In each of these three cases every other field is unchanged. A render installs the new props and crashes exactly when the dataset cannot be drawn. Otherwise it puts a fresh anchor at (-50, -50) and resets the selection only when `defaultSelected` changed. `Run` applies `Step` to the events of a trace in order. |
| MapState.InitialConsistent | index.js:33-35 | Mounting gives a consistent state: unless it crashed, its dataset can be drawn. |
| MapState.RunConsistent | index.js:57-128 | Every trace keeps a state consistent, so the requires `Consistent(s)` of `HoverAThenB` excludes no state reachable from mounting. |
| MapState.RunSnoc | index.js:57-128 | `Run` is a left fold of `Step`: running a trace and then one more event is one `Step` after the trace. (That each handler is one atomic step is a modelling choice, built into `Step`.) |
| MapState.RunBetweenRenders | index.js:57-119 | Between renders, the props and the crashed flag do not change, and a crashed state does not change at all. Otherwise each field is set by the last event that writes it. The label and anchor come from the last pointer event. The selection comes from the last click. `onClick` has been called once per click on a region without `clickHandler` (if `onClick` is supplied), in order. |
| MapState.HoverIndependentOfSelection | index.js:88-119 | Any run of mouse moves, mouse-outs and re-renders that keep `defaultSelected` (such as the re-render each label change causes) leaves the selection and `defaultSelected` unchanged. When every re-render repeats the current props, the props and every region's fill are unchanged too. |
| MapState.ClickThenNewDefault | index.js:126-128 | On a mounted component, clicking a region and then rendering a drawable dataset with a different `defaultSelected` selects the new default. |
| MapState.ClickThenSameDefault | index.js:126-128 | On a mounted component, rendering with an unchanged `defaultSelected` keeps the clicked selection. This holds even when the render crashes. |
| MapState.CrashIsFinal | index.js:96-98 | Once a render has thrown, no trace of events changes the state. |
| MapState.RenderWithNullValueCrashes | index.js:96-98 | A render whose dataset holds a `null`/`undefined` value crashes the component, and the events after it have no effect. |
| MapState.HoverAThenB | index.js:76-119 | Moving from region a to region b gives the events move over a, mouse-out, move over b. Each is followed by the re-render its label change causes. Just after the move over b, the anchor is at b's pointer position lifted by 20. After the final re-render it is back at (-50, -50), because each render builds a fresh anchor. At the end b's resolved label is shown and the selection is kept. |
| MapState.MouseOutClears | index.js:88-92 | After a mouse-out on a mounted component, the label is `null` and the anchor is at (-50, -50), whatever came before. |
| Component.CountryStateMap.constructor | index.js:33-35 | The mounted instance is `Initial(p)`. It is crashed exactly when the first render throws. |
| Component.CountryStateMap.StateClickHandler | index.js:57-63 | Sets the selection to the key on every path, including the one that throws. Leaves hover, anchor and props unchanged. Logs an `onClick` call only when there is no `clickHandler` and `onClick` is supplied. Returns `ClickResult`. |
| Component.CountryStateMap.MouseMoveHandler | index.js:112-119 | Anchor at (cx, cy - 20), label = `HoverLabel(key)`. Selection, props and the `onClick` log are unchanged. |
| Component.CountryStateMap.HandleHoverExit | index.js:88-92 | Anchor at (-50, -50), label cleared. Selection, props and the `onClick` log are unchanged. |
| Component.CountryStateMap.Rerender | index.js:126-128 | New props. Crashed exactly when the new dataset holds a `null` value. Otherwise the anchor is back at (-50, -50), and the selection becomes the new `defaultSelected` exactly when that changed and is kept otherwise. Hover and the `onClick` log are unchanged. |

## Left out

- The styled tooltip CSS (`index.js:6-21`), the JSX/SVG output, `viewBox`, `width` and `height`: presentation only.
- Popper (`createPopper` and `update()`): a third-party positioning engine. Only the anchor rectangle it is given is modelled.
- DOM access (`document.getElementById`) and the `contextElement` of the virtual element: the model has no DOM.
- React scheduling: batching of `useState` updates, and when effects and re-renders run. Each handler and each render is one atomic transition. When a render happens is an input (`Render` events).
- What the caller's callbacks do: they are modelled as deterministic functions of the key, and their side effects are not. A `fillHandler` or `hoverHandler` that returns something new on each call (a random colour, say) is not captured. The fill clause of `HoverIndependentOfSelection` relies on this determinism.
- `propTypes` checks (`index.js:146-155`): development-time warnings only.
- A `null` `defaultFill` or `defaultSelected`: both are modelled as strings, the values `defaultProps` supplies when they are omitted. A `null` or absent `statesData` is modelled as an empty dataset, which also draws nothing.
- Pointer coordinates are exact reals. JavaScript's double rounding is not modelled (for example, `y - 20` equals `y` for very large `y`), and neither are NaN and Infinity. So `PointerAnchor`'s `bottom < clientY` holds for the model's numbers only.
- `statesData` as a sequence can repeat a key, which an object's `Object.keys` never does. The model does not exclude repeats. `BuildPathsDistinctKeys` states what holds when the keys are distinct (`Config.DistinctKeys`).
- What React does after a component crashes (error boundaries, remounting) is not modelled. The crashed state only absorbs later events.
- MapState.RunBetweenRenders: covers traces without `Render` events only, because a render can change the props that later events read. Single renders are covered by `ClickThenNewDefault`, `ClickThenSameDefault` and `Rerender`.
