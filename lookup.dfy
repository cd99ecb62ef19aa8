/**
 * The two queries the booking service runs against its lookup tables
 * (guests, rooms, facilities), each table being its rows in storage order.
 */
module Lookup {
  import opened Results

  /**
   * `findBy({ id: In(ids) })`: the rows whose key occurs in `ids`, in table order.
   * Ids that match no row contribute nothing. Order and multiplicity are the
   * lemmas `SelectInAppend` and `SelectInCounts`.
   */
  function SelectIn<T(==, !new)>(rows: seq<T>, key: T -> nat, ids: seq<nat>): (r: seq<T>)
    ensures |r| <= |rows|
    ensures forall x :: x in r <==> x in rows && key(x) in ids
  {
    if rows == [] then []
    else (if key(rows[0]) in ids then [rows[0]] else []) + SelectIn(rows[1..], key, ids)
  }

  /**
   * Selection repeats nothing: each selected row occurs in the result exactly as
   * often as in the table, and rows whose key is not requested not at all.
   */
  lemma {:induction false} SelectInCounts<T(!new)>(rows: seq<T>, key: T -> nat, ids: seq<nat>)
    ensures multiset(SelectIn(rows, key, ids)) <= multiset(rows)
    ensures forall x :: multiset(SelectIn(rows, key, ids))[x] == if key(x) in ids then multiset(rows)[x] else 0
  {
    if rows != [] {
      assert rows == [rows[0]] + rows[1..];
      SelectInCounts(rows[1..], key, ids);
    }
  }

  /** Selection keeps table order: selecting from `a + b` selects from `a`, then from `b`. */
  lemma {:induction false} SelectInAppend<T(!new)>(a: seq<T>, b: seq<T>, key: T -> nat, ids: seq<nat>)
    ensures SelectIn(a + b, key, ids) == SelectIn(a, key, ids) + SelectIn(b, key, ids)
  {
    if a == [] {
      assert a + b == b;
    } else {
      assert (a + b)[1..] == a[1..] + b;
      SelectInAppend(a[1..], b, key, ids);
    }
  }

  /** `findOne({ where: { id } })`: the first row whose key is `id`, if there is one. */
  function FindFirst<T>(rows: seq<T>, key: T -> nat, id: nat): (r: Option<T>)
    ensures r.Some? <==> exists i :: 0 <= i < |rows| && key(rows[i]) == id
    ensures r.Some? ==> exists i :: 0 <= i < |rows| && rows[i] == r.value && key(rows[i]) == id
                                     && forall j :: 0 <= j < i ==> key(rows[j]) != id
  {
    if rows == [] then None
    else if key(rows[0]) == id then Some(rows[0])
    else FindFirst(rows[1..], key, id)
  }
}
