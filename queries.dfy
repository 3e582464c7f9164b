/** The query shape the controllers use to look a row up: the first row
    matching a filter (`.filter(...).first()`, `Model.find(id)`). */
module Queries {
  import opened Models

  /** Position of the first row satisfying `p`, or `None` if there is none. */
  function First<T>(rows: seq<T>, p: T -> bool): (r: Option<nat>)
    ensures r.Some? ==> r.value < |rows| && p(rows[r.value])
    ensures r.Some? ==> forall j :: 0 <= j < r.value ==> !p(rows[j])
    ensures r.None? ==> forall j :: 0 <= j < |rows| ==> !p(rows[j])
  {
    if |rows| == 0 then None
    else if p(rows[0]) then Some(0)
    else match First(rows[1..], p)
      case None => None
      case Some(i) => Some(i + 1)
  }

  /** `First` depends only on which rows satisfy the filter: two tables of the
      same length that agree on that give the same answer. */
  lemma FirstAgrees<T>(a: seq<T>, p: T -> bool, b: seq<T>, q: T -> bool)
    requires |a| == |b|
    requires forall j :: 0 <= j < |a| ==> p(a[j]) == q(b[j])
    ensures First(a, p) == First(b, q)
  {
  }
}
