/**
 * `core_strategy` of roenco_maxim_hydra_round_2.py: the same rule chain as
 * ctrl_alt_defect.py, with the last round fixed at 199 moves played (a cap of
 * 200 rounds per opponent) and a deterministic forgiveness rule: after a
 * defection, cooperate when the number of rounds played is a multiple of 5.
 * Its nested detectors are copies of those of ctrl_alt_defect.py, so the
 * detector methods of CtrlAltDefect are called here.
 */
module HydraCore {
  import opened Wrappers
  import opened Moves
  import opened CtrlAltDefect

  /** The number of moves after which the one remaining round is the last. */
  const LastRoundIndex: nat := 199

  /** The forgiveness rule of `core_strategy` for a history of n moves. */
  predicate ForgivesAt(n: nat) {
    n % 5 == 0
  }

  /**
   * The program's own steps. It computes the strategy of ctrl_alt_defect.py
   * with a known length of 200 rounds and the draw replaced by ForgivesAt.
   */
  method CoreStrategy(my: seq<Move>, opp: seq<Move>) returns (move: Move)
    requires |my| <= |opp|
    ensures move == Decide(my, opp, Some(LastRoundIndex + 1), ForgivesAt(|my|))
  {
    if |my| == 0 {
      return Cooperate;
    }
    if |my| == LastRoundIndex {
      return Defect;
    }
    assert RuleMove(my, opp, Some(LastRoundIndex + 1)) == DetectorMove(my, opp);
    var tft := IsTitForTat(my, opp);
    if tft {
      return Cooperate;
    }
    if RandomDetected(opp) {
      return Defect;
    }
    var exploited := DetectExploitationPattern(my, opp);
    if exploited {
      return Defect;
    }
    var pattern := DetectPattern(opp);
    if pattern.Some? {
      var predicted := pattern.value[|my| % |pattern.value|];
      return if predicted == Cooperate then Cooperate else Defect;
    }
    assert DetectorMove(my, opp) == RecentMove(my, opp);
    if |my| >= 2 {
      if AllDefect(my[|my| - 2..]) && AllDefect(opp[|opp| - 2..]) {
        return Cooperate;
      }
    }
    var window := if 10 <= |opp| then 10 else |opp|;
    var recentSum := Ones(opp[|opp| - window..]);
    assert window == RecentWindow(opp) && recentSum == RecentOnes(opp);
    if 10 * recentSum > 7 * window {
      return Cooperate;
    }
    if 10 * recentSum < 3 * window {
      return Defect;
    }
    if opp[|opp| - 1] == Cooperate {
      return Cooperate;
    }
    return if |my| % 5 == 0 then Cooperate else Defect;
  }

  /** The first move is a cooperation, and the move after 199 rounds is a defection. */
  lemma CoreOpensAndCloses(my: seq<Move>, opp: seq<Move>)
    requires |my| <= |opp|
    ensures my == [] ==> Decide(my, opp, Some(200), ForgivesAt(|my|)) == Cooperate
    ensures |my| == 199 ==> Decide(my, opp, Some(200), ForgivesAt(|my|)) == Defect
  {
  }

  /**
   * When rules 1 to 8 pass and the opponent's last move was a defection,
   * `core_strategy` cooperates exactly in the rounds whose index is a multiple of 5.
   */
  lemma CoreForgivesEveryFifthRound(my: seq<Move>, opp: seq<Move>)
    requires |my| <= |opp|
    requires RuleMove(my, opp, Some(200)).None?
    requires opp[|opp| - 1] == Defect
    ensures Decide(my, opp, Some(200), ForgivesAt(|my|)) == Cooperate <==> |my| % 5 == 0
  {
  }
}
