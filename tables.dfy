/**
 * Queries over auto-increment tables. A table whose rows are never deleted
 * is a sequence: the row with id `i` is element `i - 1`, and creation order is
 * id order, so `ORDER BY created_at DESC` lists ids from the largest down.
 */
module Tables {

  /** The ids among 1..n that `keep` selects, newest (largest) first. */
  function IdsNewestFirst(n: nat, keep: nat -> bool): (ids: seq<nat>)
    ensures forall id :: id in ids <==> 1 <= id <= n && keep(id)
    ensures forall i, j :: 0 <= i < j < |ids| ==> ids[i] > ids[j]
    decreases n
  {
    if n == 0 then []
    else
      var older := IdsNewestFirst(n - 1, keep);
      assert forall j :: 0 <= j < |older| ==> older[j] in older;
      assert forall j :: 0 <= j < |older| ==> older[j] < n;
      (if keep(n) then [n] else []) + older
  }

  /** When every row qualifies, every id is listed once. */
  lemma {:induction false} IdsNewestFirstKeepsAll(n: nat, keep: nat -> bool)
    requires forall id :: 1 <= id <= n ==> keep(id)
    ensures |IdsNewestFirst(n, keep)| == n
  {
    if n > 0 {
      IdsNewestFirstKeepsAll(n - 1, keep);
    }
  }

  /** When no row qualifies, nothing is listed. */
  lemma {:induction false} IdsNewestFirstKeepsNone(n: nat, keep: nat -> bool)
    requires forall id :: 1 <= id <= n ==> !keep(id)
    ensures IdsNewestFirst(n, keep) == []
  {
    if n > 0 {
      IdsNewestFirstKeepsNone(n - 1, keep);
    }
  }
}
