/**
 * The show/hide state of table rows in the browser. Each row's
 * `style.display` is either '' (shown) or 'none' (hidden); it is kept as a
 * boolean array parallel to the rows, which the filter loops overwrite.
 */
module Display {

  /** The rows whose hidden flag is false, in table order. */
  function Shown<T>(rows: seq<T>, hidden: seq<bool>): (r: seq<T>)
    requires |rows| == |hidden|
    ensures |r| <= |rows|
    ensures forall x :: x in r ==> x in rows
    decreases |rows|
  {
    if rows == [] then []
    else
      var n := |rows| - 1;
      Shown(rows[..n], hidden[..n]) + (if hidden[n] then [] else [rows[n]])
  }

  /** The rows that satisfy `keep`, in order. */
  function Select<T(!new)>(rows: seq<T>, keep: T -> bool): (r: seq<T>)
    ensures |r| <= |rows|
    ensures forall x :: x in r <==> x in rows && keep(x)
    decreases |rows|
  {
    if rows == [] then []
    else
      var n := |rows| - 1;
      Select(rows[..n], keep) + (if keep(rows[n]) then [rows[n]] else [])
  }

  /** The number of flags that are false: the rows without `display: none`. */
  function CountShown(hidden: seq<bool>): nat
    decreases |hidden|
  {
    if hidden == [] then 0
    else CountShown(hidden[..|hidden| - 1]) + (if hidden[|hidden| - 1] then 0 else 1)
  }

  /** Counting the shown flags counts the shown rows. */
  lemma {:induction false} ShownCount<T>(rows: seq<T>, hidden: seq<bool>)
    requires |rows| == |hidden|
    ensures |Shown(rows, hidden)| == CountShown(hidden)
    decreases |rows|
  {
    if rows != [] {
      ShownCount(rows[..|rows| - 1], hidden[..|hidden| - 1]);
    }
  }

  /** When each row is hidden exactly when it fails `keep`, the shown rows are the selected ones. */
  lemma {:induction false} ShownIsSelect<T(!new)>(rows: seq<T>, hidden: seq<bool>, keep: T -> bool)
    requires |rows| == |hidden|
    requires forall i :: 0 <= i < |rows| ==> hidden[i] == !keep(rows[i])
    ensures Shown(rows, hidden) == Select(rows, keep)
    decreases |rows|
  {
    if rows != [] {
      var n := |rows| - 1;
      assert forall i :: 0 <= i < n ==> hidden[..n][i] == !keep(rows[..n][i]);
      ShownIsSelect(rows[..n], hidden[..n], keep);
    }
  }

  /**
   * The `forEach` that sets `row.style.display` on every row: afterwards a
   * row is hidden exactly when it fails `show`.
   */
  method ApplyFilter<T>(rows: seq<T>, hidden: array<bool>, show: T -> bool)
    requires hidden.Length == |rows|
    modifies hidden
    ensures forall i :: 0 <= i < |rows| ==> hidden[i] == !show(rows[i])
  {
    for i := 0 to |rows|
      invariant forall k :: 0 <= k < i ==> hidden[k] == !show(rows[k])
    {
      hidden[i] := !show(rows[i]);
    }
  }

  /** `querySelectorAll('tbody tr:not([style*="display: none"])').length`. */
  method CountVisible(hidden: array<bool>) returns (n: nat)
    ensures n == CountShown(hidden[..])
  {
    n := 0;
    for i := 0 to hidden.Length
      invariant n == CountShown(hidden[..i])
    {
      assert hidden[..i + 1][..i] == hidden[..i];
      if !hidden[i] {
        n := n + 1;
      }
    }
    assert hidden[..hidden.Length] == hidden[..];
  }
}
