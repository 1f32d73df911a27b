/**
 * Database tables as sequences of rows in primary-key order.  A query
 * `Model.objects.filter(...).first()` is `First(rows, p)`; `get(...)` on a
 * unique key is the same query, since the constraint leaves at most one row.
 */
module Tables {
  import opened Wrappers

  /** The first row, in table order, that satisfies `p`; `None` when no row does. */
  function First<T>(rows: seq<T>, p: T -> bool): (r: Option<T>)
    ensures r.None? <==> forall i :: 0 <= i < |rows| ==> !p(rows[i])
    ensures r.Some? ==> exists i :: 0 <= i < |rows| && rows[i] == r.value && p(rows[i])
                                    && forall j :: 0 <= j < i ==> !p(rows[j])
  {
    if |rows| == 0 then None
    else if p(rows[0]) then Some(rows[0])
    else
      var r := First(rows[1..], p);
      assert forall j :: 1 <= j < |rows| ==> rows[j] == rows[1..][j - 1];
      r
  }

  /** A uniqueness constraint: no two rows share a key. */
  ghost predicate UniqueKey<T, K>(rows: seq<T>, key: T -> K)
  {
    forall i, j :: 0 <= i < |rows| && 0 <= j < |rows| && key(rows[i]) == key(rows[j]) ==> i == j
  }
}
