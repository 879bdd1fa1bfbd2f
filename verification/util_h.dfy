/** The older generator header h/util.h. It matches include/util.hpp except for
    the columnar builder, whose recursion runs from `From` up to `To` and
    appends the lower column after the higher ones, so the columns come out in
    descending order. */
module UtilH {
  import opened Arith
  import Util

  /** `generate_columns<Current>` of h/util.h: `generate_columns<Current + 1>`
      followed by `unique_sequence<Current, N>`, ending at `generate_columns<To>`. */
  function ColumnsDown(current: nat, top: nat, n: nat): (r: seq<nat>)
    requires current <= top && n >= 1
    decreases top - current
    ensures |r| == (top - current + 1) * n
    ensures forall i :: 0 <= i < |r| ==> r[i] == top - i / n
  {
    if current == top then
      var r := Util.UniqueSequence(top, n);
      assert forall i :: 0 <= i < |r| ==> i / n == 0 by {
        forall i | 0 <= i < |r| { DivModUnique(i, n, 0, i); }
      }
      r
    else
      var prev := ColumnsDown(current + 1, top, n);
      var r := prev + Util.UniqueSequence(current, n);
      assert forall i :: |prev| <= i < |r| ==> r[i] == top - i / n by {
        forall i | |prev| <= i < |r| {
          DivModUnique(i, n, top - current, i - |prev|);
        }
      }
      r
  }

  /** `columnar_sequence<From, To, N>` of h/util.h: `To` repeated `N` times,
      then `To - 1`, and so on down to `From`. */
  function ColumnarSequence(from: nat, top: nat, n: nat): (r: seq<nat>)
    requires from <= top && n >= 1
    ensures |r| == (top - from + 1) * n
    ensures forall i :: 0 <= i < |r| ==> r[i] == top - i / n
  {
    ColumnsDown(from, top, n)
  }

  /** The h/util.h builder lists the same blocks as the include/util.hpp one in
      reverse order: block `k` of one is block `top - from - k` of the other. */
  lemma ColumnarReversesBlocks(from: nat, top: nat, n: nat, k: nat, c: nat)
    requires from < top && n >= 1 && k <= top - from && c < n
    ensures ColumnarSequence(from, top, n)[k * n + c]
         == Util.ColumnarSequence(from, top, n)[(top - from - k) * n + c]
  {
    var m := top - from;
    var j := m - k;
    BlockIndex(k, m, n, c);
    BlockIndex(j, m, n, c);
    var down, up := ColumnarSequence(from, top, n), Util.ColumnarSequence(from, top, n);
    assert down[k * n + c] == top - k;
    assert up[j * n + c] == from + j;
  }

  /** Cell `c` of block `k` lies inside a sequence of `m + 1` blocks and reads
      as block `k`. */
  lemma BlockIndex(k: nat, m: nat, n: nat, c: nat)
    requires k <= m && c < n
    ensures k * n + c < (m + 1) * n
    ensures (k * n + c) / n == k
  {
    MulLeq(k + 1, m + 1, n);
    DivModUnique(k * n + c, n, k, c);
  }

  /** The columnar sequence the sequence test expects, `1, 1, 1, 1, 2, ..., 4`,
      is not what h/util.h builds: its first element is 4. */
  lemma ColumnarDescendingExample()
    ensures ColumnarSequence(1, 4, 4)[0] == 4
    ensures Util.ColumnarSequence(1, 4, 4)[0] == 1
  {
  }
}
