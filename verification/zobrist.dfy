/** The XOR algebra of position keys. The engine folds a 64-bit random key
    into the position key with `posKey ^= key` whenever a piece, the side to
    move, the en passant square or the castling rights change. */
module Zobrist {
  /** Fold `k` into (or out of) `key`. */
  function Toggle(key: bv64, k: bv64): bv64 {
    key ^ k
  }

  /** One unfolding of `Toggle`, as a ground fact: unfolding nested toggles
      inside a single bit-vector goal is far more expensive for the solver. */
  lemma ToggleIs(key: bv64, k: bv64)
    ensures Toggle(key, k) == key ^ k
  {
  }

  /** Folding the same key twice restores the original. */
  lemma ToggleTwice(key: bv64, k: bv64)
    ensures Toggle(Toggle(key, k), k) == key
  {
    ToggleIs(key, k);
    ToggleIs(key ^ k, k);
    XorSelf(key, k);
  }

  lemma ToggleZero(key: bv64)
    ensures Toggle(key, 0) == key
  {
    ToggleIs(key, 0);
  }

  /** The order in which two keys are folded in does not matter. */
  lemma ToggleSwap(key: bv64, a: bv64, b: bv64)
    ensures Toggle(Toggle(key, a), b) == Toggle(Toggle(key, b), a)
  {
    ToggleIs(key, a);
    ToggleIs(key, b);
    ToggleIs(key ^ a, b);
    ToggleIs(key ^ b, a);
    XorSwap(key, a, b);
  }

  /** A key folded in under three others can be folded in last instead. */
  lemma ToggleLast(key: bv64, w: bv64, s: bv64, e: bv64, c: bv64)
    ensures Toggle(Toggle(Toggle(Toggle(key, w), s), e), c)
         == Toggle(Toggle(Toggle(Toggle(key, s), e), c), w)
  {
    ToggleSwap(key, w, s);
    ToggleSwap(Toggle(key, s), w, e);
    ToggleSwap(Toggle(Toggle(key, s), e), w, c);
  }

  lemma XorSelf(key: bv64, k: bv64)
    ensures (key ^ k) ^ k == key
  {
  }

  lemma XorSwap(key: bv64, a: bv64, b: bv64)
    ensures (key ^ a) ^ b == (key ^ b) ^ a
  {
  }
}
