/**
 * What `strategy_round_2` promises about the choice of the next opponent
 * during a cold start, stated over the two history dictionaries.
 */
module HydraRound2Properties {
  import opened Moves
  import opened Dicts
  import opened Reputations
  import opened ReputationProperties
  import opened Selection

  /**
   * During a cold start the next opponent is, among the opponents with
   * rounds left, the first one in key order against which I have the fewest moves.
   */
  lemma ColdStartPicksFewestMoves(current: int, myHistory: Dict<seq<Move>>, oppHistory: Dict<seq<Move>>)
    requires oppHistory.Valid() && HistoriesPairable(myHistory, oppHistory)
    requires Available(oppHistory.keys, myHistory) != []
    requires ExploredCount(oppHistory.keys, ReputationsOf(myHistory, oppHistory).values) < ColdStartOpponents
    ensures var r := NextOpponent(current, ReputationsOf(myHistory, oppHistory), myHistory);
      && r in oppHistory.values && HasRoundsLeft(myHistory, r)
      && IsFirstFewestMoves(Available(oppHistory.keys, myHistory), myHistory, r)
  {
    var reps := ReputationsOf(myHistory, oppHistory);
    assert reps.keys == oppHistory.keys;
    ReputationsShape(myHistory, oppHistory);
    FewestMovesAtColdStart(current, reps, myHistory);
  }
}
