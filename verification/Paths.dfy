/**
 * The list of region shapes the map draws: one per key of `statesData`,
 * in `Object.keys` order, each carrying its resolved fill.
 */
module Paths {
  import opened Wrappers
  import opened Config
  import opened Resolvers

  /** One drawn region: its key, its path geometry (`d`) and its fill colour. */
  datatype Path = Path(key: string, d: Option<string>, fill: string)

  /** The index of the first entry whose value is `null`/`undefined`, if any. */
  predicate FirstMissingAt(data: seq<(string, StateValue)>, i: int) {
    0 <= i < |data| && data[i].1.Missing? && forall j :: 0 <= j < i ==> !data[j].1.Missing?
  }

  /** No value of the dataset is `null`/`undefined`, so drawing it cannot throw. */
  predicate AllDrawable(data: seq<(string, StateValue)>) {
    forall i :: 0 <= i < |data| ==> !data[i].1.Missing?
  }

  /**
   * Maps the entries of `data` to paths. Destructuring `dimensions` out of a
   * `null`/`undefined` value throws, which ends the whole mapping; the
   * failure carries the key that threw.
   */
  function PathsOf(p: Props, selection: string, data: seq<(string, StateValue)>): (r: Result<seq<Path>, string>)
    ensures r.Success? <==> AllDrawable(data)
    ensures r.Failure? ==> exists i :: FirstMissingAt(data, i) && r.error == data[i].0
    ensures r.Success? ==> |r.value| == |data|
    ensures r.Success? ==> forall i :: 0 <= i < |data| ==>
              r.value[i] == Path(data[i].0, data[i].1.dimensions, Fill(p, selection, data[i].0))
  {
    if data == [] then
      Success([])
    else if data[0].1.Missing? then
      assert FirstMissingAt(data, 0);
      Failure(data[0].0)
    else
      var rest := PathsOf(p, selection, data[1..]);
      if rest.Failure? then
        assert forall i :: FirstMissingAt(data[1..], i) ==> FirstMissingAt(data, i + 1);
        rest
      else
        Success([Path(data[0].0, data[0].1.dimensions, Fill(p, selection, data[0].0))] + rest.value)
  }

  /** The paths of the whole dataset, as one render draws them. */
  function BuildPaths(p: Props, selection: string): (r: Result<seq<Path>, string>)
    ensures r.Success? <==> AllDrawable(p.statesData)
    ensures r.Success? ==> |r.value| == |p.statesData|
    ensures r.Success? ==> forall i :: 0 <= i < |r.value| ==> r.value[i].key == p.statesData[i].0
    ensures r.Success? ==> forall i :: 0 <= i < |r.value| ==> r.value[i].fill == Fill(p, selection, r.value[i].key)
    ensures r.Failure? ==> exists i :: FirstMissingAt(p.statesData, i) && r.error == p.statesData[i].0
  {
    PathsOf(p, selection, p.statesData)
  }

  /** The drawn keys are exactly the keys of the dataset. */
  lemma BuildPathsKeys(p: Props, selection: string)
    requires BuildPaths(p, selection).Success?
    ensures (set q | q in BuildPaths(p, selection).value :: q.key) == (set e | e in p.statesData :: e.0)
  {
  }

  /** Keys that are distinct in the dataset are drawn as distinct paths. */
  lemma BuildPathsDistinctKeys(p: Props, selection: string)
    requires DistinctKeys(p.statesData) && BuildPaths(p, selection).Success?
    ensures forall i, j :: 0 <= i < j < |BuildPaths(p, selection).value| ==>
              BuildPaths(p, selection).value[i].key != BuildPaths(p, selection).value[j].key
  {
  }
}
