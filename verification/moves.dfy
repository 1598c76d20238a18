/**
 * Moves and move histories of the Iterated Prisoner's Dilemma.
 * A move is the integer 0 (defect) or 1 (cooperate); a history is the list of
 * one player's moves against one opponent, round 0 first.
 */
module Moves {

  type Move = m: int | 0 <= m <= 1

  const Defect: Move := 0
  const Cooperate: Move := 1

  /**
   * The sum of a history. On moves this is also the number of cooperations,
   * so it stands both for `sum(h)` and for `h.count(1)`.
   */
  function Ones(h: seq<Move>): (r: nat)
    ensures r <= |h|
  {
    if h == [] then 0 else Ones(h[..|h| - 1]) + h[|h| - 1]
  }

  /** `all(move == 1 for move in h)` */
  predicate AllCooperate(h: seq<Move>) {
    forall i :: 0 <= i < |h| ==> h[i] == Cooperate
  }

  /** `all(move == 0 for move in h)` */
  predicate AllDefect(h: seq<Move>) {
    forall i :: 0 <= i < |h| ==> h[i] == Defect
  }

  /** Extending a prefix by one element adds that element to the sum. */
  lemma OnesPrefixStep(h: seq<Move>, k: nat)
    requires k < |h|
    ensures Ones(h[..k + 1]) == Ones(h[..k]) + h[k]
  {
    assert h[..k + 1][..k] == h[..k];
  }

  /** A history sums to its length exactly when every move in it is a cooperation. */
  lemma {:induction false} OnesAllCooperate(h: seq<Move>)
    ensures Ones(h) == |h| <==> AllCooperate(h)
  {
    if h != [] {
      var init := h[..|h| - 1];
      OnesAllCooperate(init);
      if Ones(h) == |h| {
        assert Ones(init) == |init| && h[|h| - 1] == Cooperate;
        assert forall i :: 0 <= i < |init| ==> h[i] == init[i];
      }
      if AllCooperate(h) {
        assert AllCooperate(init) by {
          forall i | 0 <= i < |init| ensures init[i] == Cooperate {
            assert init[i] == h[i];
          }
        }
      }
    }
  }

  /** A history sums to zero exactly when every move in it is a defection. */
  lemma {:induction false} OnesAllDefect(h: seq<Move>)
    ensures Ones(h) == 0 <==> AllDefect(h)
  {
    if h != [] {
      var init := h[..|h| - 1];
      OnesAllDefect(init);
      if Ones(h) == 0 {
        assert forall i :: 0 <= i < |init| ==> h[i] == init[i];
      }
      if AllDefect(h) {
        assert AllDefect(init) by {
          forall i | 0 <= i < |init| ensures init[i] == Defect {
            assert init[i] == h[i];
          }
        }
      }
    }
  }
}
