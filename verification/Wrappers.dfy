/** Optional values and results, for the source's nil values and error returns. */
module Wrappers {

  datatype Option<+T> = None | Some(value: T) {
    function GetOr(default: T): T {
      match this
      case Some(v) => v
      case None => default
    }
  }

  /** COALESCE(a, b): the first of two optional values that is set. */
  function Coalesce<T>(a: Option<T>, b: Option<T>): Option<T> {
    if a.Some? then a else b
  }

  datatype Result<+T, +E> = Ok(value: T) | Err(error: E)

  /** A row lookup or write can miss, be refused by a constraint, or not get through at all. */
  datatype Error = NotFound | Refused | Unavailable

  /** The members of s, in ascending order. */
  ghost predicate Ascending(ids: seq<nat>, s: set<nat>) {
    && (forall a, b | 0 <= a < b < |ids| :: ids[a] < ids[b])
    && (forall i :: i in ids <==> i in s)
  }

  /** One place further along, after an optional zero. */
  function Later(ids: seq<nat>, first: bool): seq<nat> {
    (if first then [0] else []) + seq(|ids|, j requires 0 <= j < |ids| => ids[j] + 1)
  }

  lemma LaterAscends(ids: seq<nat>, rest: set<nat>, first: bool, s: set<nat>)
    requires Ascending(ids, rest)
    requires forall i: nat :: i in s <==> if i == 0 then first else i - 1 in rest
    ensures Ascending(Later(ids, first), s)
  {
    var later, shift := Later(ids, first), if first then 1 else 0;
    assert forall a | shift <= a < |later| :: later[a] == ids[a - shift] + 1;
    forall i: nat ensures i in later <==> i in s {
      if i > 0 && i - 1 in ids {
        var a :| 0 <= a < |ids| && ids[a] == i - 1;
        assert later[a + shift] == i;
      }
      if i == 0 && first { assert later[0] == 0; }
    }
  }
}
