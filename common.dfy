/** Values, errors and helpers shared by the grid-world modules. */
module Common {

  /** A value held in a cell's attribute mapping (the values the grid files store). */
  datatype Value = VBool(b: bool) | VInt(i: int) | VStr(s: string) | VNone

  /** Python truthiness of a stored value, as used by `if cell.get("navigable")`. */
  predicate Truthy(v: Value)
  {
    match v
    case VBool(b) => b
    case VInt(i) => i != 0
    case VStr(s) => s != ""
    case VNone => false
  }

  /** The exceptions the core raises. */
  datatype Error =
    | MissingKey(key: string)  // ValueError from a validating constructor
    | KeyError(key: string)    // lookup of an absent attribute
    | TypeError                // __bool__ returning something other than a bool
    | AttributeError           // `.get` called on the None of an out-of-bounds lookup

  datatype Option<T> = None | Some(value: T)

  datatype Result<T> = Ok(value: T) | Err(error: Error)

  /** A grid position (x, y) and a move (dx, dy). */
  type Pos = (int, int)
  type Delta = (int, int)

  /** The eight moves of the 3x3 neighbourhood: both components in -1..1, not both zero. */
  predicate IsDelta(dx: int, dy: int)
  {
    -1 <= dx <= 1 && -1 <= dy <= 1 && !(dx == 0 && dy == 0)
  }

  const Deltas8: set<Delta> := {(-1, -1), (-1, 0), (-1, 1), (0, -1), (0, 1), (1, -1), (1, 0), (1, 1)}

  /** Within the nested `for dx in [-1, 0, 1]: for dy in [-1, 0, 1]` scan, offset (a, b) comes before (dx, dy). */
  predicate Before(a: int, b: int, dx: int, dy: int)
  {
    a < dx || (a == dx && b < dy)
  }

  /** No element of the list occurs twice. */
  predicate Distinct<T(==)>(s: seq<T>)
  {
    forall i, j :: 0 <= i < j < |s| ==> s[i] != s[j]
  }

  /** A prefix one longer is the prefix extended by the next element. */
  lemma PrefixSnoc<T>(s: seq<T>, k: nat)
    requires k < |s|
    ensures s[..k + 1] == s[..k] + [s[k]]
  {
  }

  lemma {:induction false} SubsetCard<T>(a: set<T>, b: set<T>)
    requires a <= b
    ensures |a| <= |b|
  {
    if a != {} {
      var e :| e in a;
      SubsetCard(a - {e}, b - {e});
    }
  }

  /**
   * The validation loop of the cell and value constructors: look for a required key that the
   * keywords lack. Which missing key is reported depends on the set's iteration order.
   */
  method FindMissing(required: set<string>, kwds: map<string, Value>) returns (missing: Option<string>)
    ensures missing.None? <==> required <= kwds.Keys
    ensures missing.Some? ==> missing.value in required && missing.value !in kwds
  {
    var rest := required;
    while rest != {}
      invariant rest <= required
      invariant forall k :: k in required && k !in rest ==> k in kwds
      decreases rest
    {
      var key :| key in rest;
      if key !in kwds {
        return Some(key);
      }
      rest := rest - {key};
    }
    return None;
  }
}
