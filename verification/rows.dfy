/**
 * The `business_cards` table as the route handlers see it through the hosted
 * store's query builder: rows of named columns, `.eq` filters, `.single()`
 * lookups and `.update(patch)` merges.
 *
 * The table is a sequence; a row's position is its physical identity inside
 * the store and is distinct from its `id` column, which an update may rewrite.
 */
module Rows {
  import opened Optional

  /** A scalar JSON column value: null, boolean, integer or string. */
  datatype Value = Null | Bool(b: bool) | Num(n: int) | Str(s: string)

  type Column = string

  /** One row: column name to value. An absent column reads as `undefined`. */
  type Row = map<Column, Value>

  type Table = seq<Row>

  /** A chain of `.eq(column, value)` calls: every named column must hold the value. */
  type Filter = map<Column, Value>

  predicate Matches(row: Row, f: Filter) {
    forall c :: c in f ==> c in row && row[c] == f[c]
  }

  /** Row `k` is the one and only row of `t` that passes `f`. */
  predicate UniqueMatch(t: Table, f: Filter, k: int) {
    && 0 <= k < |t|
    && Matches(t[k], f)
    && forall i :: 0 <= i < |t| && Matches(t[i], f) ==> i == k
  }

  /** `.update(patch)` on one row: the patch's columns win, every other column is kept. */
  function Merge(row: Row, patch: Row): (r: Row)
    ensures r.Keys == row.Keys + patch.Keys
    ensures forall c :: c in patch ==> r[c] == patch[c]
    ensures forall c :: c in row && c !in patch ==> r[c] == row[c]
  {
    row + patch
  }

  /** Positions of the rows that pass `f`, in store order. */
  function MatchIndices(t: Table, f: Filter): (ix: seq<nat>)
    ensures forall j :: 0 <= j < |ix| ==> ix[j] < |t| && Matches(t[ix[j]], f)
    ensures forall i :: 0 <= i < |t| && Matches(t[i], f) ==> i in ix
    ensures forall j, j' :: 0 <= j < j' < |ix| ==> ix[j] < ix[j']
  {
    if t == [] then []
    else
      var prev := MatchIndices(t[..|t| - 1], f);
      if Matches(t[|t| - 1], f) then prev + [|t| - 1] else prev
  }

  /** A row that matches alone is the only position `MatchIndices` reports. */
  lemma SingleIndexOfUniqueMatch(t: Table, f: Filter)
    ensures forall k :: UniqueMatch(t, f, k) ==> MatchIndices(t, f) == [k]
  {
    var ix := MatchIndices(t, f);
    forall k | UniqueMatch(t, f, k) ensures ix == [k] {
      assert k in ix;
      IncreasingSpread(ix);
      assert ix[0] == k && ix[|ix| - 1] == k;
    }
  }

  /** The last of a strictly increasing run of naturals is at least its length past the first. */
  lemma {:induction false} IncreasingSpread(ix: seq<nat>)
    requires forall j, j' :: 0 <= j < j' < |ix| ==> ix[j] < ix[j']
    ensures |ix| > 0 ==> ix[|ix| - 1] >= ix[0] + |ix| - 1
  {
    if |ix| > 1 {
      IncreasingSpread(ix[..|ix| - 1]);
      assert ix[|ix| - 2] < ix[|ix| - 1];
    }
  }

  /**
   * `.single()`: the position of the row passing `f` when there is exactly
   * one such row; no rows or several rows are both an error.
   */
  function SelectSingle(t: Table, f: Filter): (r: Option<nat>)
    ensures forall k :: r == Some(k) <==> UniqueMatch(t, f, k)
    ensures r.None? <==> forall k :: !UniqueMatch(t, f, k)
  {
    var ix := MatchIndices(t, f);
    SingleIndexOfUniqueMatch(t, f);
    if |ix| == 1 then Some(ix[0]) else None
  }

  /** `.update(patch).eq(...)`: every row passing `f` is merged with `patch`. */
  function UpdateWhere(t: Table, f: Filter, patch: Row): (t': Table)
    ensures |t'| == |t|
    ensures forall i :: 0 <= i < |t| && Matches(t[i], f) ==> t'[i] == Merge(t[i], patch)
    ensures forall i :: 0 <= i < |t| && !Matches(t[i], f) ==> t'[i] == t[i]
  {
    if t == [] then []
    else
      var last := t[|t| - 1];
      UpdateWhere(t[..|t| - 1], f, patch) + [if Matches(last, f) then Merge(last, patch) else last]
  }

  /** Merging the same patch a second time changes nothing. */
  lemma MergeIdempotent(row: Row, patch: Row)
    ensures Merge(Merge(row, patch), patch) == Merge(row, patch)
  {
  }
}
