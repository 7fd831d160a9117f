/**
 * The value record (grid_value.py): a keyword mapping validated against the same four required
 * attributes as the early cell record, and never changed after construction.
 */
module GridValues {
  import opened Common

  /** Keys every value must carry. */
  const Required: set<string> := {"depth", "value", "wind", "waves"}

  datatype GridValue = GridValue(dict: map<string, Value>)
  {
    ghost predicate Valid()
    {
      Required <= dict.Keys
    }
  }

  /** `GridValue(**kwds)`: fails with a ValueError naming a missing required key, else keeps the keywords. */
  method Create(kwds: map<string, Value>) returns (r: Result<GridValue>)
    ensures r.Ok? <==> Required <= kwds.Keys
    ensures r.Ok? ==> r.value.dict == kwds && r.value.Valid()
    ensures r.Err? ==> r.error.MissingKey? && r.error.key in Required && r.error.key !in kwds
  {
    var missing := FindMissing(Required, kwds);
    if missing.Some? {
      return Err(MissingKey(missing.value));
    }
    return Ok(GridValue(kwds));
  }

  /** The module-level `GridValue(depth=3, value=5)`: it raises, naming wind or waves. */
  method ModuleExample() returns (r: Result<GridValue>)
    ensures r.Err? && r.error.MissingKey? && r.error.key in {"wind", "waves"}
  {
    r := Create(map["depth" := VInt(3), "value" := VInt(5)]);
    assert "wind" !in map["depth" := VInt(3), "value" := VInt(5)];
  }
}
