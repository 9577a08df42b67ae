/**
 * The accumulator of `Array.prototype.map` (`array_map.rs`): the mapping
 * frame hands it each mapped element in turn and finally asks for the result.
 */
module ArrayMap {
  import opened Wrappers
  import opened Values

  /** `MapState`: the mapped elements collected so far. */
  class MapState {
    var mapResults: seq<Val>

    /** `MapState::default()`: nothing collected yet. */
    constructor()
      ensures mapResults == []
    {
      mapResults := [];
    }

    /** `process`: keep the mapped element; map never stops early, so the answer is always `None`. */
    method Process(i: nat, element: Val, mapped: Val) returns (r: Option<Val>)
      modifies this
      ensures r == None
      ensures mapResults == old(mapResults) + [mapped]
    {
      mapResults := mapResults + [mapped];
      r := None;
    }

    /** `finish`: hand over the collected elements as an array, leaving the state empty (the swap). */
    method Finish() returns (v: Val)
      modifies this
      ensures v == Array(old(mapResults))
      ensures mapResults == []
    {
      var results := [];
      results, mapResults := mapResults, results;
      v := Array(results);
    }
  }

  /**
   * Driving a fresh state through `process` and `finish`, as the mapping
   * frame does: the result is exactly the mapped elements, in order.
   */
  method MapAll(mapped: seq<Val>) returns (v: Val)
    ensures v == Array(mapped)
  {
    var state := new MapState();
    for k := 0 to |mapped|
      invariant state.mapResults == mapped[..k]
    {
      var r := state.Process(k, Void, mapped[k]);
      assert mapped[..k + 1] == mapped[..k] + [mapped[k]];
    }
    assert mapped[..|mapped|] == mapped;
    v := state.Finish();
  }
}
