/**
 * The early cell record (grid_cells.py): an open key/value mapping that must carry the four
 * attributes depth, value, wind and waves.
 */
module LegacyCells {
  import opened Common

  /** Keys every cell must carry. */
  const Required: set<string> := {"depth", "value", "wind", "waves"}

  class GridCells {
    var dict: map<string, Value>
    /** The `name` attribute mirrored at construction; None when the keywords had no "name". */
    const name: Option<Value>

    ghost predicate Valid()
      reads this
    {
      Required <= dict.Keys
    }

    constructor (kwds: map<string, Value>)
      requires Required <= kwds.Keys
      ensures dict == kwds && Valid()
      ensures name == if "name" in kwds then Some(kwds["name"]) else None
    {
      dict := kwds;
      name := if "name" in kwds then Some(kwds["name"]) else None;
    }

    /** `GridCells(**kwds)`: fails with a ValueError naming a missing required key. */
    static method Create(kwds: map<string, Value>) returns (r: Result<GridCells>)
      ensures r.Err? <==> !(Required <= kwds.Keys)
      ensures r.Err? ==> r.error.MissingKey? && r.error.key in Required && r.error.key !in kwds
      ensures r.Ok? ==> fresh(r.value) && r.value.dict == kwds && r.value.Valid()
      ensures r.Ok? ==> r.value.name == if "name" in kwds then Some(kwds["name"]) else None
    {
      var missing := FindMissing(Required, kwds);
      if missing.Some? {
        return Err(MissingKey(missing.value));
      }
      var c := new GridCells(kwds);
      return Ok(c);
    }

    /** `get`: the stored value, or KeyError. */
    function Get(key: string): (r: Result<Value>)
      reads this
      ensures r.Ok? <==> key in dict
      ensures r.Ok? ==> r.value == dict[key]
      ensures r.Err? ==> r.error == KeyError(key)
    {
      if key in dict then Ok(dict[key]) else Err(KeyError(key))
    }

    /** `set`: overwrite or add one key; every other key keeps its value. */
    method Set(key: string, value: Value)
      modifies this
      ensures dict == old(dict)[key := value]
      ensures Get(key) == Ok(value) && Contains(key)
      ensures forall k :: k != key ==> Get(k) == old(Get(k))
      ensures old(Valid()) ==> Valid()
    {
      dict := dict[key := value];
    }

    /** `item in cell`: exactly when `get` does not raise. */
    function Contains(item: string): (r: bool)
      reads this
      ensures r <==> Get(item).Ok?
    {
      item in dict
    }

    /** `save`: the stored mapping, extra keys included. */
    function Save(): (r: map<string, Value>)
      reads this
      ensures r.Keys == dict.Keys && forall k :: k in r ==> Get(k) == Ok(r[k])
    {
      dict
    }
  }

  /** The keywords `default()` passes: every required attribute -1, and default = True. */
  function DefaultKwds(): (m: map<string, Value>)
    ensures Required <= m.Keys && "name" !in m
  {
    map["depth" := VInt(-1), "value" := VInt(-1), "wind" := VInt(-1), "waves" := VInt(-1), "default" := VBool(true)]
  }

  /** `default()`: always succeeds, every required attribute reads -1, and the cell is marked default. */
  method Default() returns (c: GridCells)
    ensures fresh(c) && c.Valid() && c.name == None
    ensures forall k :: k in Required ==> c.Get(k) == Ok(VInt(-1))
    ensures c.Get("default") == Ok(VBool(true))
    ensures c.dict.Keys == Required + {"default"}
  {
    var r := GridCells.Create(DefaultKwds());
    c := r.value;
  }
}
