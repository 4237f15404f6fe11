/**
 * The configuration a caller hands to the country map component: its
 * props, with the per-region customization table and the region dataset.
 * All of it is read-only to the component.
 */
module Config {
  import opened Wrappers

  /**
   * A caller-supplied callback that receives a region key. What the
   * callback does is the caller's business, so it is an opaque function.
   */
  type Handler = string -> string

  /** The per-region overrides held by one entry of `customize`. */
  datatype Customization = Customization(
    fill: Option<string>,
    fillHandler: Option<Handler>,
    hoverHandler: Option<Handler>,
    clickHandler: Option<Handler>)

  /**
   * The value stored under a key of `statesData`: either `null`/`undefined`
   * (which the component cannot destructure), or an object whose
   * `dimensions` path string may itself be missing.
   */
  datatype StateValue = Missing | Shape(dimensions: Option<string>)

  /**
   * The props the component reads. `statesData` lists the dataset's keys in
   * the order `Object.keys` enumerates them; `onClick` is `None` when the
   * caller omits it. `width` and `height` only size the drawing and are not
   * modelled.
   */
  datatype Props = Props(
    customize: map<string, Customization>,
    defaultFill: string,
    onClick: Option<Handler>,
    selectedFill: Option<string>,
    defaultSelected: string,
    statesData: seq<(string, StateValue)>)

  /** No key occurs twice, as for the keys of a JavaScript object. */
  predicate DistinctKeys(data: seq<(string, StateValue)>) {
    forall i, j :: 0 <= i < j < |data| ==> data[i].0 != data[j].0
  }

  /** JavaScript truthiness of an optional string: present and non-empty. */
  predicate Truthy(s: Option<string>) {
    s.Some? && s.value != ""
  }

  /** The key has a `fillHandler` in the customization table. */
  predicate HasFillHandler(p: Props, key: string) {
    key in p.customize && p.customize[key].fillHandler.Some?
  }

  /** The key has a truthy static `fill` in the customization table. */
  predicate HasStaticFill(p: Props, key: string) {
    key in p.customize && Truthy(p.customize[key].fill)
  }

  /** The key has a `hoverHandler` in the customization table. */
  predicate HasHoverHandler(p: Props, key: string) {
    key in p.customize && p.customize[key].hoverHandler.Some?
  }

  /** The key has a `clickHandler` in the customization table. */
  predicate HasClickHandler(p: Props, key: string) {
    key in p.customize && p.customize[key].clickHandler.Some?
  }

  /** The props a caller gets by passing only the required `onClick`. */
  function DefaultProps(onClick: Handler): (p: Props)
    ensures p.customize == map[] && p.statesData == []
    ensures p.defaultFill == "grey" && p.selectedFill == Some("skyblue")
    ensures p.defaultSelected == "" && p.onClick == Some(onClick)
    ensures forall k :: !HasFillHandler(p, k) && !HasStaticFill(p, k)
    ensures forall k :: !HasHoverHandler(p, k) && !HasClickHandler(p, k)
  {
    Props(map[], "grey", Some(onClick), Some("skyblue"), "", [])
  }
}
