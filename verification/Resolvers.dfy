/**
 * The two pure decisions of the component: which colour a region is filled
 * with, and which label its tooltip shows.
 */
module Resolvers {
  import opened Wrappers
  import opened Config

  /** The selection highlight applies: it is truthy and the key is the selection. */
  predicate SelectedHit(p: Props, selection: string, key: string) {
    Truthy(p.selectedFill) && key == selection
  }

  /**
   * The fill of region `key` while `selection` is the current selection:
   * the highlight first, then a `fillHandler`, then a truthy static `fill`,
   * then `defaultFill`.
   */
  function Fill(p: Props, selection: string, key: string): (r: string)
    ensures SelectedHit(p, selection, key) ==> r == p.selectedFill.value
    ensures !SelectedHit(p, selection, key) && HasFillHandler(p, key) ==>
              r == p.customize[key].fillHandler.value(key)
    ensures !SelectedHit(p, selection, key) && !HasFillHandler(p, key) && HasStaticFill(p, key) ==>
              r == p.customize[key].fill.value
    ensures !SelectedHit(p, selection, key) && !HasFillHandler(p, key) && !HasStaticFill(p, key) ==>
              r == p.defaultFill
  {
    if SelectedHit(p, selection, key) then
      p.selectedFill.value
    else if HasFillHandler(p, key) then
      p.customize[key].fillHandler.value(key)
    else if HasStaticFill(p, key) then
      p.customize[key].fill.value
    else
      p.defaultFill
  }

  /** A key the table does not mention is drawn in the highlight or in `defaultFill`. */
  lemma UncustomizedFill(p: Props, selection: string, key: string)
    requires key !in p.customize
    ensures Fill(p, selection, key) ==
              if SelectedHit(p, selection, key) then p.selectedFill.value else p.defaultFill
  {
  }

  /** The highlight of the selected key does not depend on the customization table. */
  lemma SelectedFillIgnoresCustomize(p: Props, table: map<string, Customization>, selection: string, key: string)
    requires SelectedHit(p, selection, key)
    ensures Fill(p.(customize := table), selection, key) == Fill(p, selection, key) == p.selectedFill.value
  {
  }

  /**
   * A falsy `selectedFill` (absent or empty) disables the highlight: every
   * key, the selected one included, is filled as if there were none.
   */
  lemma FalsySelectedFillFallsThrough(p: Props, selection: string, key: string)
    requires !Truthy(p.selectedFill)
    ensures Fill(p, selection, key) == Fill(p.(selectedFill := None), selection, key)
  {
  }

  /**
   * With the default props nothing is customized and the selection is `""`:
   * the key `""` is highlighted in "skyblue" and every other key is "grey".
   */
  lemma DefaultPropsFill(onClick: Handler, key: string)
    ensures Fill(DefaultProps(onClick), "", key) == if key == "" then "skyblue" else "grey"
  {
  }

  /**
   * The tooltip label of region `key`: what its `hoverHandler` returns, or
   * else the key itself.
   */
  function HoverLabel(p: Props, key: string): (r: string)
    ensures HasHoverHandler(p, key) ==> r == p.customize[key].hoverHandler.value(key)
    ensures !HasHoverHandler(p, key) ==> r == key
  {
    if HasHoverHandler(p, key) then p.customize[key].hoverHandler.value(key) else key
  }
}
