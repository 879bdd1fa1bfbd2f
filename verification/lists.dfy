/** The piece-list edits of src/makemove.cpp on one list: `find_if` over all
    ten slots, the swap-with-last removal of `clearPiece`, the append of
    `addPiece` and the in-place rename of `movePiece`, each shown to keep the
    list in agreement with the board. */
module Lists {
  import opened Constants
  import opened Board

  /** `std::find_if` over the whole list: the first slot holding `sq`. */
  function FindSlot(list: seq<nat>, sq: nat): (i: nat)
    requires sq in list
    ensures i < |list| && list[i] == sq
    ensures forall k :: 0 <= k < i ==> list[k] != sq
  {
    if list[0] == sq then 0 else 1 + FindSlot(list[1..], sq)
  }

  /** When `sq` is live, the search stops at its live slot: the stale slots
      beyond the live prefix are never reached. */
  lemma FindSlotLive(list: seq<nat>, n: nat, sq: nat)
    requires n <= |list| && sq in list[..n]
    ensures sq in list && FindSlot(list, sq) < n
  {
    var k :| 0 <= k < n && list[k] == sq;
    assert list[k] == sq;
  }

  /** Slot bounds: every entry of the first `n` is a padded-board square. */
  predicate Bounded(list: seq<nat>, n: nat) {
    n <= |list| && forall k :: 0 <= k < n ==> list[k] < LargeNC
  }

  /** A write that neither removes nor adds a `q` keeps `q`'s list in agreement. */
  lemma AgreesAfterOtherWrite(list: seq<nat>, n: nat, board: seq<nat>, q: nat, sq: nat, v: nat)
    requires Bounded(list, n) && |board| == LargeNC && sq < LargeNC
    requires board[sq] != q && v != q
    requires ListAgrees(list, n, board, q)
    ensures ListAgrees(list, n, board[sq := v], q)
  {
    forall k | 0 <= k < n
      ensures board[sq := v][list[k]] == q
    {
      assert board[list[k]] == q;
    }
  }

  /** `clearPiece`'s edit: the slot of `sq` takes the last live entry and the
      live prefix shrinks by one. After `sq` is emptied the list agrees. */
  lemma AgreesAfterRemove(list: seq<nat>, n: nat, board: seq<nat>, p: nat, sq: nat, v: nat)
    requires Bounded(list, n) && |board| == LargeNC && sq < LargeNC && n >= 1
    requires board[sq] == p && v != p
    requires ListAgrees(list, n, board, p)
    ensures sq in list && FindSlot(list, sq) < n
    ensures var i := FindSlot(list, sq);
      && Bounded(list[i := list[n - 1]], n - 1)
      && ListAgrees(list[i := list[n - 1]], n - 1, board[sq := v], p)
  {
    FindSlotLive(list, n, sq);
    var i := FindSlot(list, sq);
    var l := list[i := list[n - 1]];
    RemovedHold(list, l, n, board, p, sq, i);
    RemovedDistinct(list, l, n, i);
    RemovedCover(list, l, n, board, p, sq, i, v);
  }

  /** After the swap, the live prefix holds only squares of `p` other than `sq`. */
  lemma RemovedHold(list: seq<nat>, l: seq<nat>, n: nat, board: seq<nat>, p: nat, sq: nat, i: nat)
    requires Bounded(list, n) && |board| == LargeNC && i < n && list[i] == sq
    requires ListAgrees(list, n, board, p) && l == list[i := list[n - 1]]
    ensures forall k :: 0 <= k < n - 1 ==> l[k] != sq && board[l[k]] == p
  {
    var m := n - 1;
    forall k | 0 <= k < m
      ensures l[k] != sq && board[l[k]] == p
    {
      var src := if k == i then m else k;
      assert l[k] == list[src] && src != i;
    }
  }

  /** The swap keeps the live entries distinct. */
  lemma RemovedDistinct(list: seq<nat>, l: seq<nat>, n: nat, i: nat)
    requires n <= |list| && i < n && l == list[i := list[n - 1]]
    requires forall k, k' :: 0 <= k < k' < n ==> list[k] != list[k']
    ensures forall k, k' :: 0 <= k < k' < n - 1 ==> l[k] != l[k']
  {
    var m := n - 1;
    forall k, k' | 0 <= k < k' < m
      ensures l[k] != l[k']
    {
      var s, s' := (if k == i then m else k), (if k' == i then m else k');
      assert l[k] == list[s] && l[k'] == list[s'] && s != s';
    }
  }

  /** Every square still holding `p` after `sq` is emptied keeps a live slot. */
  lemma RemovedCover(list: seq<nat>, l: seq<nat>, n: nat, board: seq<nat>, p: nat, sq: nat, i: nat, v: nat)
    requires Bounded(list, n) && |board| == LargeNC && sq < LargeNC && i < n && list[i] == sq
    requires v != p && ListAgrees(list, n, board, p) && l == list[i := list[n - 1]]
    ensures forall s :: 0 <= s < LargeNC && board[s] == p && s != sq ==> s in l[..n - 1]
  {
    var m := n - 1;
    forall s | 0 <= s < LargeNC && board[s] == p && s != sq
      ensures s in l[..m]
    {
      assert board[s] == p;
      var k :| 0 <= k < n && list[k] == s;
      if k == m {
        assert l[i] == s;
      } else {
        assert l[k] == s;
      }
    }
  }

  /** `addPiece`'s edit: `sq` goes into the first free slot. After `p` is
      written at `sq` the list agrees. */
  lemma AgreesAfterAppend(list: seq<nat>, n: nat, board: seq<nat>, p: nat, sq: nat)
    requires Bounded(list, n) && n < |list| && |board| == LargeNC && sq < LargeNC
    requires board[sq] != p
    requires ListAgrees(list, n, board, p)
    ensures Bounded(list[n := sq], n + 1)
    ensures ListAgrees(list[n := sq], n + 1, board[sq := p], p)
  {
    var l := list[n := sq];
    var b := board[sq := p];
    forall k | 0 <= k < n
      ensures l[k] != sq && b[l[k]] == p
    {
      assert board[list[k]] == p;
    }
    forall s | 0 <= s < LargeNC && b[s] == p
      ensures s in l[..n + 1]
    {
      if s == sq {
        assert l[n] == s;
      } else {
        var k :| 0 <= k < n && list[k] == s;
        assert l[k] == s;
      }
    }
  }

  /** `movePiece`'s edit: the slot of `from` is renamed `to`. After `from`
      is emptied and `p` written at `to` the list agrees. */
  lemma AgreesAfterRename(list: seq<nat>, n: nat, board: seq<nat>, p: nat, from: nat, to: nat)
    requires Bounded(list, n) && |board| == LargeNC && from < LargeNC && to < LargeNC
    requires board[from] == p && board[to] != p && p != EMPTY
    requires ListAgrees(list, n, board, p)
    ensures from in list && FindSlot(list, from) < n
    ensures var i := FindSlot(list, from);
      && Bounded(list[i := to], n)
      && ListAgrees(list[i := to], n, board[from := EMPTY][to := p], p)
  {
    FindSlotLive(list, n, from);
    var i := FindSlot(list, from);
    var l := list[i := to];
    var b := board[from := EMPTY][to := p];
    RenamedHold(list, l, n, board, b, p, from, to, i);
    RenamedCover(list, l, n, board, b, p, from, to, i);
  }

  /** After the rename every live slot holds `p` on the new board, and the
      slots other than `i` hold neither `from` nor `to`. */
  lemma RenamedHold(list: seq<nat>, l: seq<nat>, n: nat, board: seq<nat>, b: seq<nat>, p: nat, from: nat, to: nat, i: nat)
    requires Bounded(list, n) && |board| == LargeNC && from < LargeNC && to < LargeNC
    requires board[from] == p && board[to] != p && p != EMPTY
    requires ListAgrees(list, n, board, p) && i < n && list[i] == from
    requires l == list[i := to] && b == board[from := EMPTY][to := p]
    ensures forall k :: 0 <= k < n && k != i ==> list[k] != from && list[k] != to
    ensures forall k :: 0 <= k < n ==> b[l[k]] == p
  {
    forall k | 0 <= k < n && k != i
      ensures list[k] != from && list[k] != to && b[l[k]] == p
    {
      assert board[list[k]] == p;
    }
  }

  /** After the rename every square holding `p` keeps a live slot. */
  lemma RenamedCover(list: seq<nat>, l: seq<nat>, n: nat, board: seq<nat>, b: seq<nat>, p: nat, from: nat, to: nat, i: nat)
    requires Bounded(list, n) && |board| == LargeNC && from < LargeNC && to < LargeNC
    requires p != EMPTY && ListAgrees(list, n, board, p) && i < n && list[i] == from
    requires l == list[i := to] && b == board[from := EMPTY][to := p]
    ensures forall s :: 0 <= s < LargeNC && b[s] == p ==> s in l[..n]
  {
    forall s | 0 <= s < LargeNC && b[s] == p
      ensures s in l[..n]
    {
      if s == to {
        assert l[i] == s;
      } else {
        assert s != from && board[s] == p;
        var k :| 0 <= k < n && list[k] == s;
        assert l[k] == s;
      }
    }
  }
}
