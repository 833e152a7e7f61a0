/**
 The ORM's single-row lookup (`QuerySet.get`) over a table stored as a
 sequence whose row ids are the indices. A lookup either finds nothing
 (`DoesNotExist`), exactly one row, or several rows (`MultipleObjectsReturned`).
 */
module Lookup {

  datatype Lookup = Missing | Found(index: nat) | Multiple

  /** The ids of the rows satisfying `p`, in increasing order (a filter query). */
  function Indices<T>(rows: seq<T>, p: T -> bool): (r: seq<nat>)
    ensures forall k :: 0 <= k < |r| ==> r[k] < |rows| && p(rows[r[k]])
    ensures forall i :: 0 <= i < |rows| && p(rows[i]) ==> i in r
    ensures forall k, m :: 0 <= k < m < |r| ==> r[k] < r[m]
    decreases |rows|
  {
    if |rows| == 0 then []
    else
      var n := |rows| - 1;
      var init := Indices(rows[..n], p);
      assert forall i :: 0 <= i < n ==> rows[..n][i] == rows[i];
      if p(rows[n]) then init + [n] else init
  }

  /** `QuerySet.get`: the unique row satisfying `p`, or why there is none. */
  function Get<T>(rows: seq<T>, p: T -> bool): (r: Lookup)
    ensures r.Missing? <==> forall i :: 0 <= i < |rows| ==> !p(rows[i])
    ensures r.Found? ==> r.index < |rows| && p(rows[r.index])
    ensures r.Found? ==> forall j :: 0 <= j < |rows| && p(rows[j]) ==> j == r.index
    ensures r.Multiple? <==> exists i, j :: 0 <= i < j < |rows| && p(rows[i]) && p(rows[j])
  {
    var m := Indices(rows, p);
    if |m| == 0 then Missing
    else if |m| == 1 then Found(m[0])
    else
      assert m[0] < m[1];
      Multiple
  }

  /** Two filters that agree on every row select the same rows. */
  lemma {:induction false} IndicesAgree<T>(rows: seq<T>, p: T -> bool, q: T -> bool)
    requires forall i :: 0 <= i < |rows| ==> p(rows[i]) == q(rows[i])
    ensures Indices(rows, p) == Indices(rows, q)
    decreases |rows|
  {
    if |rows| > 0 {
      var n := |rows| - 1;
      assert forall i :: 0 <= i < n ==> rows[..n][i] == rows[i];
      IndicesAgree(rows[..n], p, q);
    }
  }

  /** Two filters that agree on every row give the same lookup. */
  lemma GetAgree<T>(rows: seq<T>, p: T -> bool, q: T -> bool)
    requires forall i :: 0 <= i < |rows| ==> p(rows[i]) == q(rows[i])
    ensures Get(rows, p) == Get(rows, q)
  {
    IndicesAgree(rows, p, q);
  }

  /**
   Appending a row to a table extends a filter over it by that row's id
   exactly when the row matches, for any filter `q` that agrees with `p`
   on the old rows.
   */
  lemma IndicesAppend<T>(rows: seq<T>, x: T, p: T -> bool, q: T -> bool)
    requires forall i :: 0 <= i < |rows| ==> p(rows[i]) == q(rows[i])
    ensures Indices(rows + [x], q) == Indices(rows, p) + (if q(x) then [|rows|] else [])
  {
    var rows' := rows + [x];
    assert rows'[..|rows|] == rows;
    IndicesAgree(rows, p, q);
  }
}
