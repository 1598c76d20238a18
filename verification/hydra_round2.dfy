/**
 * `strategy_round_2` of roenco_maxim_hydra_round_2.py: the move against the
 * current opponent from `core_strategy`, and the next opponent chosen from
 * the reputations of all opponents.
 */
module HydraRound2 {
  import opened Wrappers
  import opened Moves
  import opened Dicts
  import CtrlAltDefect
  import HydraCore
  import opened Reputations
  import opened ReputationProperties
  import opened Selection

  /** The move and the next opponent for one call. */
  method StrategyRound2(opponentId: int, myHistory: Dict<seq<Move>>, oppHistory: Dict<seq<Move>>)
    returns (move: Move, nextOpponent: int)
    requires oppHistory.Valid() && HistoriesPairable(myHistory, oppHistory)
    requires |MovesAgainst(myHistory, opponentId)| <= |Get(oppHistory, opponentId, [])|
    ensures var my := MovesAgainst(myHistory, opponentId);
      move == CtrlAltDefect.Decide(my, Get(oppHistory, opponentId, []), Some(RoundCap), HydraCore.ForgivesAt(|my|))
    ensures nextOpponent == NextOpponent(opponentId, ReputationsOf(myHistory, oppHistory), myHistory)
    ensures nextOpponent == opponentId
         || (nextOpponent in oppHistory.values && HasRoundsLeft(myHistory, nextOpponent))
  {
    var myMoves := MovesAgainst(myHistory, opponentId);
    var oppMoves := Get(oppHistory, opponentId, []);
    move := HydraCore.CoreStrategy(myMoves, oppMoves);
    var reputations := BuildOpponentReputations(myHistory, oppHistory);
    ReputationsShape(myHistory, oppHistory);
    nextOpponent := SelectNextOpponent(opponentId, reputations, myHistory);
  }
}
