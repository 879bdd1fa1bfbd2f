/** The compile-time sequence builders of include/util.hpp, written as ordinary
    recursive functions. A C++ `index_sequence<...>` becomes a `seq<nat>` (or a
    `seq<bv64>` for the bit-mask builders), a template recursion becomes a
    recursive call, and a `static_assert` or a missing specialisation becomes a
    precondition. */
module Util {
  import opened Arith

  /** `d` divides `n`. */
  predicate Divides(d: nat, n: nat) {
    d != 0 && n % d == 0
  }

  // ---------------------------------------------------------------------
  // Integer square root: Sqrt<N, L, H, mid>
  // ---------------------------------------------------------------------

  /** One level of the binary search `Sqrt<N, L, H, mid = (L + H + 1) / 2>`:
      the root is searched in `[lo, hi]`; the specialisation `Sqrt<N, S, S, S>`
      ends it. */
  function SqrtSearch(n: nat, lo: nat, hi: nat): (s: nat)
    requires 1 <= lo <= hi
    requires lo * lo <= n < (hi + 1) * (hi + 1)
    ensures lo <= s <= hi
    ensures s * s <= n < (s + 1) * (s + 1)
    decreases hi - lo
  {
    if lo == hi then lo
    else
      var mid := (lo + hi + 1) / 2;
      if n < mid * mid then SqrtSearch(n, lo, mid - 1)
      else SqrtSearch(n, mid, hi)
  }

  /** `Sqrt<N>`: the integer square root, searched in `[1, N]`. The template
      recursion does not end for `N == 0`, hence the precondition. */
  function Sqrt(n: nat): (s: nat)
    requires n >= 1
    ensures s * s <= n < (s + 1) * (s + 1)
  {
    assert n < (n + 1) * (n + 1);
    SqrtSearch(n, 1, n)
  }

  /** The integer square root is the only `s` with `s*s <= n < (s+1)*(s+1)`. */
  lemma SqrtUnique(n: nat, s: nat)
    requires n >= 1
    requires s * s <= n < (s + 1) * (s + 1)
    ensures Sqrt(n) == s
  {
    var t := Sqrt(n);
    if t < s {
      SquareLeq(t + 1, s);
    } else if s < t {
      SquareLeq(s + 1, t);
    }
  }

  lemma SquareLeq(a: nat, b: nat)
    requires a <= b
    ensures a * a <= b * b
  {
    MulLeq(a, b, a);
    MulLeq(a, b, b);
  }

  // ---------------------------------------------------------------------
  // Primality: is_prime<N, I>
  // ---------------------------------------------------------------------

  /** `is_prime<N, I>`: `N > I && N % I != 0 && is_prime<N, I + 1>`, and the
      specialisation `is_prime<N, N>` is `N > 1`. */
  function IsPrimeFrom(n: nat, i: nat): (b: bool)
    requires 2 <= i <= n
    ensures b <==> forall d :: i <= d < n ==> !Divides(d, n)
    decreases n - i
  {
    if i == n then n > 1
    else
      assert Divides(i, n) <==> n % i == 0;
      n > i && n % i != 0 && IsPrimeFrom(n, i + 1)
  }

  /** `is_prime<N>` for `N >= 2` (below 2 the template recursion does not end). */
  function IsPrime(n: nat): (b: bool)
    requires n >= 2
    ensures b <==> forall d :: 2 <= d < n ==> !Divides(d, n)
  {
    IsPrimeFrom(n, 2)
  }

  // ---------------------------------------------------------------------
  // find_pair: the two closest factors of a sequence length
  // ---------------------------------------------------------------------

  /** The loop `for (i = sqrt; i > 1; --i) if (size % i == 0) { r = i; c = size / i; break; }`
      followed by `if (r < c) swap(r, c)`. */
  function FindPairFrom(n: nat, i: nat): (rc: (nat, nat))
    requires 1 <= n && i * i <= n
    ensures rc == (0, 0) <==> forall d :: 2 <= d <= i ==> !Divides(d, n)
    ensures rc != (0, 0) ==>
      && rc.0 * rc.1 == n && rc.0 >= rc.1 >= 2 && rc.1 <= i && Divides(rc.1, n)
      && forall d :: rc.1 < d <= i ==> !Divides(d, n)
    decreases i
  {
    if i <= 1 then (0, 0)
    else if n % i == 0 then
      var c := n / i;
      assert n == i * c;
      assert Divides(i, n);
      if i < c then (c, i)
      else
        assert i * i <= i * c;
        assert c == i by {
          if c < i { MulLeq(c + 1, i, i); }
        }
        (i, c)
    else
      assert (i - 1) * (i - 1) <= i * i by { MulLeq(i - 1, i, i - 1); MulLeq(i - 1, i, i); }
      FindPairFrom(n, i - 1)
  }

  /** `find_pair<size>()`: the pair `(r, c)` with `r * c == size` and `r >= c`
      where `c` is the largest divisor of `size` in `[2, Sqrt(size)]`; `(0, 0)`
      when there is none. */
  function FindPair(n: nat): (rc: (nat, nat))
    requires n >= 1
    ensures rc == (0, 0) <==> forall d :: 2 <= d <= Sqrt(n) ==> !Divides(d, n)
    ensures rc != (0, 0) ==>
      && rc.0 * rc.1 == n && rc.0 >= rc.1 >= 2 && rc.1 <= Sqrt(n) && Divides(rc.1, n)
      && forall d :: rc.1 < d <= Sqrt(n) ==> !Divides(d, n)
  {
    FindPairFrom(n, Sqrt(n))
  }

  /** A number that is not prime has a factor no larger than its square root,
      so `find_pair` always succeeds on the lengths `SequenceCheck` admits. */
  lemma CompositeHasSmallFactor(n: nat)
    requires n >= 2 && !IsPrime(n)
    ensures FindPair(n) != (0, 0)
  {
    var d :| 2 <= d < n && Divides(d, n);
    var s := Sqrt(n);
    if d > s {
      var e := n / d;
      ExactDivision(n, d);
      CofactorIsFactor(n, d, e, s);
      assert 2 <= e <= s && Divides(e, n);
    } else {
      assert 2 <= d <= s && Divides(d, n);
    }
  }

  /** A divisor splits its multiple exactly. */
  lemma ExactDivision(n: nat, d: nat)
    requires Divides(d, n)
    ensures n == d * (n / d)
  {
  }

  /** The cofactor of a divisor above the square root is a divisor below it. */
  lemma CofactorIsFactor(n: nat, d: nat, e: nat, s: nat)
    requires 2 <= d < n && n == d * e
    requires s * s <= n < (s + 1) * (s + 1) && d > s
    ensures 2 <= e <= s && Divides(e, n)
  {
    if e <= 1 {
      MulLeq(e, 1, d);
    } else if e > s {
      MulLeq(s + 1, d, s + 1);
      MulLeq(s + 1, e, d);
    } else {
      DivModUnique(n, e, d, 0);
    }
  }

  // ---------------------------------------------------------------------
  // range_sequence_with_two_gaps<Start, End>
  // ---------------------------------------------------------------------

  /** Membership condition of `range_sequence_with_two_gaps<Start, End>`: the last
      digit of `x` is neither that of `Start + 8` nor that of `Start + 9`. */
  predicate KeptByGaps(start: nat, x: nat) {
    x % 10 != (start + 9) % 10 && x % 10 != (start + 8) % 10
  }

  /** `range_sequence_with_two_gaps<Start, End>`: recursion on `End`, appending
      `End` when its last digit is kept; `<Start, Start>` is `[Start]`. */
  function RangeWithTwoGaps(start: nat, end: nat): (r: seq<nat>)
    requires start <= end
    ensures |r| >= 1 && r[0] == start
    decreases end - start
  {
    if end == start then [start]
    else if KeptByGaps(start, end) then RangeWithTwoGaps(start, end - 1) + [end]
    else RangeWithTwoGaps(start, end - 1)
  }

  /** `range_sequence_with_two_gaps<Start, End>` is strictly increasing, stays
      within `[Start, End]`, and holds exactly the numbers of that range whose
      last digit is kept. */
  lemma {:induction false} RangeWithTwoGapsContents(start: nat, end: nat)
    requires start <= end
    ensures var r := RangeWithTwoGaps(start, end);
      && (forall i, j :: 0 <= i < j < |r| ==> r[i] < r[j])
      && (forall i :: 0 <= i < |r| ==> start <= r[i] <= end)
      && (forall x :: x in r <==> start <= x <= end && KeptByGaps(start, x))
    decreases end - start
  {
    if end > start {
      RangeWithTwoGapsContents(start, end - 1);
    } else {
      assert KeptByGaps(start, start) by {
        var b := start / 10;
        var d := start % 10;
        assert start == 10 * b + d;
        if d == 0 { DivModUnique(start + 9, 10, b, 9); DivModUnique(start + 8, 10, b, 8); }
        else if d == 1 { DivModUnique(start + 9, 10, b + 1, 0); DivModUnique(start + 8, 10, b, 9); }
        else { DivModUnique(start + 9, 10, b + 1, d - 1); DivModUnique(start + 8, 10, b + 1, d - 2); }
      }
    }
  }

  /** Row-major index of column `col` of row `row` in rows of eight. */
  function Index8(row: int, col: int): int {
    8 * row + col
  }

  /** For a start on file A of the padded board (`Start % 10 == 1`) and an end
      `10 * q + m` past it, the kept numbers form rows of eight: the element at
      `8 * row + col` is `Start + 10 * row + col`. */
  lemma {:induction false} RangeWithTwoGapsRows(start: nat, q: nat, m: nat)
    requires start % 10 == 1 && m < 10
    ensures |RangeWithTwoGaps(start, start + 10 * q + m)| == 8 * q + (if m < 8 then m + 1 else 8)
    ensures forall row, col :: 0 <= col < 8 && 0 <= Index8(row, col) < |RangeWithTwoGaps(start, start + 10 * q + m)| ==>
      RangeWithTwoGaps(start, start + 10 * q + m)[Index8(row, col)] == start + 10 * row + col
    decreases 10 * q + m
  {
    var end := start + 10 * q + m;
    if end > start {
      var r := RangeWithTwoGaps(start, end);
      var prev := RangeWithTwoGaps(start, end - 1);
      if m == 0 {
        RangeWithTwoGapsRows(start, q - 1, 9);
      } else {
        RangeWithTwoGapsRows(start, q, m - 1);
      }
      KeptDigits(start, q, m);
      if m < 8 {
        assert KeptByGaps(start, end);
        assert r == prev + [end];
        forall row, col | 0 <= col < 8 && 0 <= Index8(row, col) < |r|
          ensures r[Index8(row, col)] == start + 10 * row + col
        {
          if Index8(row, col) == |prev| {
            assert row == q && col == m;
          }
        }
      } else {
        assert !KeptByGaps(start, end);
      }
    }
  }

  /** For a start on file A, `start + 10 * q + m` is kept exactly when its
      column `m` is below 8. */
  lemma KeptDigits(start: nat, q: nat, m: nat)
    requires start % 10 == 1 && m < 10
    ensures KeptByGaps(start, start + 10 * q + m) <==> m < 8
  {
    var end := start + 10 * q + m;
    var b := start / 10;
    assert start == 10 * b + 1;
    DivModUnique(start + 9, 10, b + 1, 0);
    DivModUnique(start + 8, 10, b, 9);
    if m < 9 {
      DivModUnique(end, 10, b + q, 1 + m);
    } else {
      DivModUnique(end, 10, b + q + 1, 0);
    }
  }

  // ---------------------------------------------------------------------
  // sequence_in_shell<Seq, Start, End, shellNum>
  // ---------------------------------------------------------------------

  /** Rows and columns of the shell (`shellRows = 2`, `shellCols = 1`). */
  const ShellRows: nat := 2
  const ShellCols: nat := 1

  /** `SequenceCheck`: the sequence exists and its length is not prime. */
  predicate SequenceCheck(s: seq<nat>) {
    |s| >= 2 && !IsPrime(|s|)
  }

  /** First index of core row `j` in a shell of row width `totalCols`. */
  function RowStart(j: nat, cols: nat): nat {
    (j + ShellRows) * (cols + 2 * ShellCols) + ShellCols
  }

  /** The lambda `is_in_range(i)`: the first row `j` whose core cells
      `[lower, upper]`, `lower = j * totalCols + shellRows * totalCols + shellCols`,
      `upper = lower + cols - 1`, contain `i`. */
  function RowOf(i: nat, rows: nat, cols: nat, j: nat): (o: (bool, nat))
    requires cols >= 1
    ensures o.0 ==> (j <= o.1 < rows && RowStart(o.1, cols) <= i < RowStart(o.1, cols) + cols)
    ensures !o.0 ==> forall k :: j <= k < rows ==>
      !(RowStart(k, cols) <= i < RowStart(k, cols) + cols)
    decreases rows - j
  {
    if j >= rows then (false, 0)
    else
      var totalCols := cols + 2 * ShellCols;
      var lower := j * totalCols + ShellRows * totalCols + ShellCols;
      var upper := lower + cols - 1;
      assert lower == RowStart(j, cols);
      if lower <= i <= upper then (true, j) else RowOf(i, rows, cols, j + 1)
  }

  /** The offset `i - (shellRows * totalCols + shellCols + j * 2 * shellCols)` that
      `get()` reads for column `k` of row `j` is `j * cols + k`. */
  lemma CoreOffset(j: nat, k: nat, cols: nat)
    ensures RowStart(j, cols) + k
      - (ShellRows * (cols + 2 * ShellCols) + ShellCols + j * 2 * ShellCols) == j * cols + k
  {
    assert (j + ShellRows) * (cols + 2) == j * cols + 2 * j + ShellRows * (cols + 2);
  }

  /** Row-major indices of a `rows x cols` grid stay below `rows * cols`. */
  lemma CoreIndexBound(j: nat, k: nat, rows: nat, cols: nat)
    requires j < rows && k < cols
    ensures j * cols + k < rows * cols
  {
    MulLeq(j + 1, rows, cols);
  }

  /** The cell `i` of `sequence_in_shell<...>::get()`. */
  function ShellCell(s: seq<nat>, shellNum: nat, rows: nat, cols: nat, i: nat): nat
    requires cols >= 1 && |s| == rows * cols
  {
    var totalCols := cols + 2 * ShellCols;
    if i < ShellRows * totalCols + ShellCols then shellNum
    else
      var (inRange, j) := RowOf(i, rows, cols, 0);
      if inRange then
        var k := i - RowStart(j, cols);
        CoreOffset(j, k, cols);
        CoreIndexBound(j, k, rows, cols);
        s[i - (ShellRows * totalCols + ShellCols + j * 2 * ShellCols)]
      else shellNum
  }

  /** Index `i` lies in the core: its row (`i / totalCols`) is one of the `rows`
      middle rows and its column (`i % totalCols`) one of the `cols` middle columns. */
  predicate InCore(i: nat, rows: nat, cols: nat)
    requires cols >= 1
  {
    var totalCols := cols + 2 * ShellCols;
    ShellRows <= i / totalCols < rows + ShellRows && ShellCols <= i % totalCols < cols + ShellCols
  }

  /** The element of the core that index `i` shows when `InCore(i, rows, cols)`. */
  function CoreIndex(i: nat, cols: nat): int
    requires cols >= 1
  {
    var totalCols := cols + 2 * ShellCols;
    (i / totalCols - ShellRows) * cols + (i % totalCols - ShellCols)
  }

  /** A core index lies in exactly one row of `is_in_range`: the one its
      quotient by the row width names. */
  lemma RowOfCore(i: nat, rows: nat, cols: nat)
    requires cols >= 1 && InCore(i, rows, cols)
    ensures RowOf(i, rows, cols, 0) == (true, i / (cols + 2 * ShellCols) - ShellRows)
    ensures i == RowStart(i / (cols + 2 * ShellCols) - ShellRows, cols) + (i % (cols + 2 * ShellCols) - ShellCols)
  {
    var totalCols := cols + 2 * ShellCols;
    var j := i / totalCols - ShellRows;
    CoreRowStart(i, cols, j);
    var o := RowOf(i, rows, cols, 0);
    assert o.0;
    RowUnique(i, cols, o.1, j);
  }

  /** Core index `i` sits in row `j = i / totalCols - 2`, column `i % totalCols - 1`. */
  lemma CoreRowStart(i: nat, cols: nat, j: int)
    requires cols >= 1 && j == i / (cols + 2 * ShellCols) - ShellRows && j >= 0
    ensures i == RowStart(j, cols) + (i % (cols + 2 * ShellCols) - ShellCols)
  {
    var totalCols := cols + 2 * ShellCols;
    var q := i / totalCols;
    assert RowStart(j, cols) == q * totalCols + ShellCols;
  }

  /** Two core rows that both contain `i` are the same row. */
  lemma RowUnique(i: nat, cols: nat, a: nat, b: nat)
    requires cols >= 1
    requires RowStart(a, cols) <= i < RowStart(a, cols) + cols
    requires RowStart(b, cols) <= i < RowStart(b, cols) + cols
    ensures a == b
  {
    var totalCols := cols + 2 * ShellCols;
    DivModUnique(i, totalCols, a + ShellRows, i - RowStart(a, cols) + ShellCols);
    DivModUnique(i, totalCols, b + ShellRows, i - RowStart(b, cols) + ShellCols);
  }

  /** An index outside the core is never claimed by `is_in_range`. */
  lemma RowOfShell(i: nat, rows: nat, cols: nat)
    requires cols >= 1 && !InCore(i, rows, cols)
    ensures !RowOf(i, rows, cols, 0).0
  {
    var o := RowOf(i, rows, cols, 0);
    if o.0 {
      var k' := i - RowStart(o.1, cols);
      DivModUnique(i, cols + 2 * ShellCols, o.1 + ShellRows, k' + ShellCols);
    }
  }

  /** The first `2 * totalCols + 1` cells all lie outside the core. */
  lemma CoreStartsAfterShell(i: nat, rows: nat, cols: nat)
    requires cols >= 1 && InCore(i, rows, cols)
    ensures i >= ShellRows * (cols + 2 * ShellCols) + ShellCols
  {
    var totalCols := cols + 2 * ShellCols;
    MulLeq(ShellRows, i / totalCols, totalCols);
  }

  /** `ShellCell` reads core element `(i / totalCols - 2) * cols + (i % totalCols - 1)`
      on the core and yields the shell value everywhere else. */
  lemma ShellCellClosedForm(s: seq<nat>, shellNum: nat, rows: nat, cols: nat, i: nat)
    requires cols >= 1 && |s| == rows * cols
    ensures InCore(i, rows, cols) ==>
      (0 <= CoreIndex(i, cols) < |s| && ShellCell(s, shellNum, rows, cols, i) == s[CoreIndex(i, cols)])
    ensures !InCore(i, rows, cols) ==> ShellCell(s, shellNum, rows, cols, i) == shellNum
  {
    var totalCols := cols + 2 * ShellCols;
    if InCore(i, rows, cols) {
      var j, k := i / totalCols - ShellRows, i % totalCols - ShellCols;
      RowOfCore(i, rows, cols);
      CoreStartsAfterShell(i, rows, cols);
      CoreOffset(j, k, cols);
      CoreIndexBound(j, k, rows, cols);
    } else {
      RowOfShell(i, rows, cols);
    }
  }

  /** `sequence_in_shell<Seq, Start, End, shellNum>::get()` applied to the
      sequence `s`: a `rows x cols` core framed by two shell rows above and
      below and one shell column left and right. */
  function SequenceInShell(s: seq<nat>, shellNum: nat): (arr: seq<nat>)
    requires SequenceCheck(s)
    ensures var (rows, cols) := FindPair(|s|);
      && rows * cols == |s| && cols >= 2
      && |arr| == (rows + 2 * ShellRows) * (cols + 2 * ShellCols)
      && (forall i :: 0 <= i < |arr| && InCore(i, rows, cols) ==>
            0 <= CoreIndex(i, cols) < |s| && arr[i] == s[CoreIndex(i, cols)])
      && (forall i :: 0 <= i < |arr| && !InCore(i, rows, cols) ==> arr[i] == shellNum)
  {
    CompositeHasSmallFactor(|s|);
    var (rows, cols) := FindPair(|s|);
    ShellTableCells(s, shellNum, rows, cols);
    ShellTable(s, shellNum, rows, cols)
  }

  /** The cells `get()` produces, in order. */
  function ShellTable(s: seq<nat>, shellNum: nat, rows: nat, cols: nat): seq<nat>
    requires cols >= 1 && |s| == rows * cols
  {
    var total := (rows + 2 * ShellRows) * (cols + 2 * ShellCols);
    seq(total, i requires 0 <= i < total => ShellCell(s, shellNum, rows, cols, i))
  }

  lemma ShellTableCells(s: seq<nat>, shellNum: nat, rows: nat, cols: nat)
    requires cols >= 1 && |s| == rows * cols
    ensures var arr := ShellTable(s, shellNum, rows, cols);
      && |arr| == (rows + 2 * ShellRows) * (cols + 2 * ShellCols)
      && (forall i :: 0 <= i < |arr| && InCore(i, rows, cols) ==>
            0 <= CoreIndex(i, cols) < |s| && arr[i] == s[CoreIndex(i, cols)])
      && (forall i :: 0 <= i < |arr| && !InCore(i, rows, cols) ==> arr[i] == shellNum)
  {
    var arr := ShellTable(s, shellNum, rows, cols);
    forall i | 0 <= i < |arr|
      ensures InCore(i, rows, cols) ==> 0 <= CoreIndex(i, cols) < |s| && arr[i] == s[CoreIndex(i, cols)]
      ensures !InCore(i, rows, cols) ==> arr[i] == shellNum
    {
      ShellCellClosedForm(s, shellNum, rows, cols, i);
    }
  }

  // ---------------------------------------------------------------------
  // sequence_with_shift / sequence_with_tilda_shift (the mask builders)
  // ---------------------------------------------------------------------

  /** `sequence_with_shift<Start, End>`: `sequence_with_shift<Start, End - 1>`
      followed by `1 << End`; the specialisation `<Start, Start>` is the number
      `Start` itself, not `1 << Start`. */
  function SequenceWithShift(start: nat, end: nat): (r: seq<bv64>)
    requires start <= end < 64
    ensures |r| == end - start + 1
    ensures r[0] == start as bv64
    ensures forall i :: 0 < i < |r| ==> r[i] == (1 as bv64) << ((start + i) as bv6)
    decreases end - start
  {
    if end == start then [start as bv64]
    else SequenceWithShift(start, end - 1) + [(1 as bv64) << (end as bv6)]
  }

  /** `sequence_with_tilda_shift<Start, End>`: it extends
      `sequence_with_shift<Start, End - 1>` (not a tilda sequence) with
      `~(1 << End)`, so only its last element is a complement. */
  function SequenceWithTildaShift(start: nat, end: nat): (r: seq<bv64>)
    requires start <= end < 64
    ensures |r| == end - start + 1
    ensures r[0] == start as bv64
    ensures forall i :: 0 < i < |r| - 1 ==> r[i] == (1 as bv64) << ((start + i) as bv6)
    ensures start < end ==> r[|r| - 1] == !((1 as bv64) << (end as bv6))
  {
    if end == start then [start as bv64]
    else SequenceWithShift(start, end - 1) + [!((1 as bv64) << (end as bv6))]
  }

  // ---------------------------------------------------------------------
  // simple / unique / concat / columnar sequences
  // ---------------------------------------------------------------------

  /** `simple_sequence<Start, End>`: `Start, Start + 1, ..., End`. */
  function SimpleSequence(start: nat, end: nat): (r: seq<nat>)
    requires start <= end
    ensures |r| == end - start + 1
    ensures forall i :: 0 <= i < |r| ==> r[i] == start + i
    decreases end - start
  {
    if end == start then [start]
    else SimpleSequence(start, end - 1) + [end]
  }

  /** `unique_sequence<Num, N>`: `N` copies of `Num` (`N == 1` is the base case). */
  function UniqueSequence(num: nat, n: nat): (r: seq<nat>)
    requires n >= 1
    ensures |r| == n
    ensures forall i :: 0 <= i < |r| ==> r[i] == num
  {
    if n == 1 then [num]
    else UniqueSequence(num, n - 1) + [num]
  }

  /** `concat<Seq, Start, End, N>`: `N` copies of the block `Seq<Start, End>`. */
  function Concat(block: seq<nat>, n: nat): (r: seq<nat>)
    requires n >= 1 && |block| >= 1
    ensures |r| == n * |block|
    ensures forall i :: 0 <= i < |r| ==> r[i] == block[i % |block|]
  {
    if n == 1 then block
    else
      var prev := Concat(block, n - 1);
      var r := prev + block;
      assert forall i :: |prev| <= i < |r| ==> r[i] == block[i % |block|] by {
        forall i | |prev| <= i < |r| {
          DivModUnique(i, |block|, n - 1, i - |prev|);
        }
      }
      r
  }

  /** `columnar_sequence<From, To, N>::generate_columns<Current>`: the columns
      `From .. Current`, each value repeated `N` times, ascending. */
  function Columns(from: nat, current: nat, n: nat): (r: seq<nat>)
    requires from <= current && n >= 1
    ensures |r| == (current - from + 1) * n
    ensures forall i :: 0 <= i < |r| ==> r[i] == from + i / n
    decreases current - from
  {
    if current == from then
      var r := UniqueSequence(from, n);
      assert forall i :: 0 <= i < |r| ==> i / n == 0 by {
        forall i | 0 <= i < |r| { DivModUnique(i, n, 0, i); }
      }
      r
    else
      var prev := Columns(from, current - 1, n);
      var r := prev + UniqueSequence(current, n);
      assert forall i :: |prev| <= i < |r| ==> r[i] == from + i / n by {
        forall i | |prev| <= i < |r| {
          DivModUnique(i, n, current - from, i - |prev|);
        }
      }
      r
  }

  /** `columnar_sequence<From, To, N>`: `From` repeated `N` times, then `From + 1`
      repeated `N` times, and so on up to `To`. */
  function ColumnarSequence(from: nat, to: nat, n: nat): (r: seq<nat>)
    requires from < to && n >= 1
    ensures |r| == (to - from + 1) * n
    ensures forall i :: 0 <= i < |r| ==> r[i] == from + i / n
  {
    Columns(from, to, n)
  }

  // ---------------------------------------------------------------------
  // The values the generator tests expect
  // ---------------------------------------------------------------------

  /** `Sqrt<987654>` is 993. */
  lemma SqrtExample()
    ensures Sqrt(987654) == 993
  {
    SqrtUnique(987654, 993);
  }

  /** 5 is prime and 6 is not. */
  lemma IsPrimeExamples()
    ensures IsPrime(5) && !IsPrime(6)
  {
    assert Divides(2, 6);
  }

  /** `find_pair` splits 10 into (5, 2), 15 into (5, 3) and 64 into (8, 8). */
  lemma FindPairExamples()
    ensures FindPair(10) == (5, 2) && FindPair(15) == (5, 3) && FindPair(64) == (8, 8)
  {
    SqrtUnique(10, 3);
    SqrtUnique(15, 3);
    SqrtUnique(64, 8);
  }

  /** The two-gap range over `[1, 50]` keeps the forty numbers `1..8, 11..18, ..., 41..48`,
      and ending at 48 or 49 gives the same sequence. */
  lemma RangeWithTwoGapsExamples()
    ensures |RangeWithTwoGaps(1, 50)| == 40
    ensures forall row, col :: 0 <= row < 5 && 0 <= col < 8 ==>
      RangeWithTwoGaps(1, 50)[Index8(row, col)] == 1 + 10 * row + col
    ensures RangeWithTwoGaps(1, 48) == RangeWithTwoGaps(1, 49)
  {
    RangeWithTwoGapsRows(1, 4, 9);
    assert !KeptByGaps(1, 49);
  }

  /** The shell of `[1, 2, 3, 4]` with shell number 5 is a 6 x 4 frame around
      the 2 x 2 core. */
  lemma SequenceInShellExample()
    ensures SequenceInShell([1, 2, 3, 4], 5) ==
      [5, 5, 5, 5,
       5, 5, 5, 5,
       5, 1, 2, 5,
       5, 3, 4, 5,
       5, 5, 5, 5,
       5, 5, 5, 5]
  {
    assert SequenceCheck([1, 2, 3, 4]) by { assert Divides(2, 4); }
    SqrtUnique(4, 2);
    assert FindPair(4) == (2, 2);
  }

  /** Four copies of 1. */
  lemma UniqueSequenceExample()
    ensures UniqueSequence(1, 4) == [1, 1, 1, 1]
  {
  }

  /** The columnar sequence `1, 1, 1, 1, 2, ..., 4, 4, 4, 4`. */
  lemma ColumnarSequenceExample()
    ensures ColumnarSequence(1, 4, 4) == [1, 1, 1, 1, 2, 2, 2, 2, 3, 3, 3, 3, 4, 4, 4, 4]
  {
  }
}
