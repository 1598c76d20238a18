/**
 * `select_next_opponent` of roenco_maxim_hydra_round_2.py: the opponents
 * still under the cap of 200 rounds, a cold-start rule that explores the
 * least-played of them, and otherwise the best selection score. Both
 * tie-breaks take the first candidate in the order of the reputation keys.
 */
module Selection {
  import opened Moves
  import opened Dicts
  import opened Reputations

  /** The number of rounds that may be played against one opponent. */
  const RoundCap: nat := 200

  /** Below this many opponents with at least one round played, the policy explores. */
  const ColdStartOpponents: nat := 5

  /** The opponent has a history entry holding fewer than RoundCap of my moves. */
  predicate HasRoundsLeft(myHistory: Dict<seq<Move>>, id: int) {
    id in myHistory.values && |myHistory.values[id]| < RoundCap
  }

  /** x occurs in keys before an occurrence of y. */
  predicate Precedes(keys: seq<int>, x: int, y: int) {
    keys != [] && ((keys[0] == x && y in keys[1..]) || Precedes(keys[1..], x, y))
  }

  /**
   * `[opp_id for opp_id in reputations if opp_id in my_history and
   * len(my_history[opp_id]) < 200]`: the keys with rounds left, in key order.
   */
  function Available(keys: seq<int>, myHistory: Dict<seq<Move>>): (r: seq<int>)
    ensures forall id :: id in r <==> id in keys && HasRoundsLeft(myHistory, id)
    ensures forall i :: 0 <= i < |r| ==> r[i] in keys && HasRoundsLeft(myHistory, r[i])
    ensures forall i, j :: 0 <= i < j < |r| ==> Precedes(keys, r[i], r[j])
  {
    if keys == [] then []
    else
      var rest := Available(keys[1..], myHistory);
      if HasRoundsLeft(myHistory, keys[0]) then
        assert forall j :: 0 < j < |[keys[0]] + rest| ==> ([keys[0]] + rest)[j] == rest[j - 1];
        [keys[0]] + rest
      else rest
  }

  /** The number of listed opponents against which at least one round was played. */
  function ExploredCount(keys: seq<int>, values: map<int, Profile>): (n: nat)
    requires forall i :: 0 <= i < |keys| ==> keys[i] in values
    ensures n <= |keys|
  {
    if keys == [] then 0
    else (if values[keys[0]].roundsPlayed > 0 then 1 else 0) + ExploredCount(keys[1..], values)
  }

  /**
   * The selection score of one opponent: its score potential, an exploration
   * bonus that fades over its first 20 rounds, half its stability, a bonus by
   * pattern class, and 0.2 more for the current opponent when its score
   * potential exceeds 2.5.
   */
  function SelectionScore(rep: Profile, isCurrent: bool): real {
    var rounds := rep.roundsPlayed as real;
    var exploration := if 1.0 - rounds / 20.0 > 0.0 then 1.0 - rounds / 20.0 else 0.0;
    var patternBonus :=
      match rep.pattern
      case AlwaysCooperate => 2.0 - rounds / 100.0
      case TitForTat => 1.0 + rounds / 200.0
      case AlwaysDefect => -1.0
      case _ => 0.0;
    var total := rep.scorePotential + exploration + rep.stability * 0.5 + patternBonus;
    if isCurrent && rep.scorePotential > 2.5 then total + 0.2 else total
  }

  /** The rounds played against each listed opponent. */
  function RoundsOf(ids: seq<int>, values: map<int, Profile>): seq<nat>
    requires forall i :: 0 <= i < |ids| ==> ids[i] in values
  {
    seq(|ids|, i requires 0 <= i < |ids| => values[ids[i]].roundsPlayed as nat)
  }

  /** The selection score of each listed opponent. */
  function ScoresOf(ids: seq<int>, values: map<int, Profile>, current: int): seq<real>
    requires forall i :: 0 <= i < |ids| ==> ids[i] in values
  {
    seq(|ids|, i requires 0 <= i < |ids| => SelectionScore(values[ids[i]], ids[i] == current))
  }

  /** k is the first position of a least element of s. */
  ghost predicate IsFirstMinimum(s: seq<nat>, k: int) {
    && 0 <= k < |s|
    && (forall j :: 0 <= j < |s| ==> s[k] <= s[j])
    && (forall j :: 0 <= j < k ==> s[k] < s[j])
  }

  /** k is the first position of a greatest element of s. */
  ghost predicate IsFirstMaximum(s: seq<real>, k: int) {
    && 0 <= k < |s|
    && (forall j :: 0 <= j < |s| ==> s[j] <= s[k])
    && (forall j :: 0 <= j < k ==> s[j] < s[k])
  }

  /** `min(...)` followed by the first candidate attaining it. */
  function FirstMinIndex(s: seq<nat>): (k: nat)
    requires s != []
    ensures IsFirstMinimum(s, k)
  {
    if |s| == 1 then 0
    else
      var k := FirstMinIndex(s[..|s| - 1]);
      assert forall j :: 0 <= j < |s| - 1 ==> s[..|s| - 1][j] == s[j];
      if s[|s| - 1] < s[k] then |s| - 1 else k
  }

  /** `max(...)` over the scores in order: a later score replaces the best only when strictly greater. */
  function FirstMaxIndex(s: seq<real>): (k: nat)
    requires s != []
    ensures IsFirstMaximum(s, k)
  {
    if |s| == 1 then 0
    else
      var k := FirstMaxIndex(s[..|s| - 1]);
      assert forall j :: 0 <= j < |s| - 1 ==> s[..|s| - 1][j] == s[j];
      if s[|s| - 1] > s[k] then |s| - 1 else k
  }

  /**
   * The opponent the policy selects: the current one when none has rounds
   * left; during a cold start the first least-played available opponent;
   * otherwise the first available opponent with the greatest selection score.
   */
  function NextOpponent(current: int, reps: Dict<Profile>, myHistory: Dict<seq<Move>>): (r: int)
    requires reps.Valid()
    ensures var avail := Available(reps.keys, myHistory);
      && (avail == [] ==> r == current)
      && (avail != [] ==> r in avail && r in reps.values && HasRoundsLeft(myHistory, r))
      && (avail != [] && ExploredCount(reps.keys, reps.values) < ColdStartOpponents ==>
            exists k :: IsFirstMinimum(RoundsOf(avail, reps.values), k) && r == avail[k])
      && (avail != [] && ExploredCount(reps.keys, reps.values) >= ColdStartOpponents ==>
            exists k :: IsFirstMaximum(ScoresOf(avail, reps.values, current), k) && r == avail[k])
  {
    var avail := Available(reps.keys, myHistory);
    if avail == [] then current
    else if ExploredCount(reps.keys, reps.values) < ColdStartOpponents then
      avail[FirstMinIndex(RoundsOf(avail, reps.values))]
    else
      avail[FirstMaxIndex(ScoresOf(avail, reps.values, current))]
  }

  /** `select_next_opponent`: the scoring loop, then the two selection rules. */
  method SelectNextOpponent(current: int, reps: Dict<Profile>, myHistory: Dict<seq<Move>>)
    returns (next: int)
    requires reps.Valid()
    ensures next == NextOpponent(current, reps, myHistory)
  {
    var available := Available(reps.keys, myHistory);
    if available == [] {
      return current;
    }
    var scores: seq<real> := [];
    var i := 0;
    while i < |available|
      invariant 0 <= i <= |available|
      invariant |scores| == i
      invariant forall j :: 0 <= j < i ==>
        scores[j] == SelectionScore(reps.values[available[j]], available[j] == current)
    {
      var id := available[i];
      var rep := reps.values[id];
      var roundsPlayed := rep.roundsPlayed as real;
      var score := rep.scorePotential;
      var explorationBonus := if 1.0 - roundsPlayed / 20.0 > 0.0 then 1.0 - roundsPlayed / 20.0 else 0.0;
      var stabilityBonus := rep.stability * 0.5;
      var patternBonus;
      if rep.pattern == AlwaysCooperate {
        patternBonus := 2.0 - roundsPlayed / 100.0;
      } else if rep.pattern == TitForTat {
        patternBonus := 1.0 + roundsPlayed / 200.0;
      } else if rep.pattern == AlwaysDefect {
        patternBonus := -1.0;
      } else {
        patternBonus := 0.0;
      }
      var finalScore := score + explorationBonus + stabilityBonus + patternBonus;
      if id == current && rep.scorePotential > 2.5 {
        finalScore := finalScore + 0.2;
      }
      scores := scores + [finalScore];
      i := i + 1;
    }
    if ExploredCount(reps.keys, reps.values) < ColdStartOpponents {
      var k := FirstMinIndex(RoundsOf(available, reps.values));
      return available[k];
    }
    assert scores == ScoresOf(available, reps.values, current);
    var k := FirstMaxIndex(scores);
    return available[k];
  }

  /**
   * r is the first of the listed opponents against which I have made the
   * fewest moves.
   */
  ghost predicate IsFirstFewestMoves(ids: seq<int>, myHistory: Dict<seq<Move>>, r: int) {
    && (forall i :: 0 <= i < |ids| ==> ids[i] in myHistory.values)
    && exists k :: 0 <= k < |ids| && ids[k] == r
         && (forall j :: 0 <= j < |ids| ==> |myHistory.values[ids[k]]| <= |myHistory.values[ids[j]]|)
         && (forall j :: 0 <= j < k ==> |myHistory.values[ids[j]]| > |myHistory.values[ids[k]]|)
  }

  /** A first least element of the move counts marks the first opponent with the fewest moves. */
  lemma FirstMinimumIsFewestMoves(ids: seq<int>, rounds: seq<nat>, myHistory: Dict<seq<Move>>, k: int)
    requires |rounds| == |ids|
    requires forall i :: 0 <= i < |ids| ==> ids[i] in myHistory.values && rounds[i] == |myHistory.values[ids[i]]|
    requires IsFirstMinimum(rounds, k)
    ensures IsFirstFewestMoves(ids, myHistory, ids[k])
  {
    assert forall j :: 0 <= j < |ids| ==> |myHistory.values[ids[k]]| <= |myHistory.values[ids[j]]|;
    assert forall j :: 0 <= j < k ==> |myHistory.values[ids[j]]| > |myHistory.values[ids[k]]|;
  }

  /**
   * When every listed profile counts as played the moves of my history
   * against that opponent, a cold start selects the first available opponent
   * against which I have made the fewest moves.
   */
  lemma FewestMovesAtColdStart(current: int, reps: Dict<Profile>, myHistory: Dict<seq<Move>>)
    requires reps.Valid()
    requires forall id :: id in reps.values ==> reps.values[id].roundsPlayed == |MovesAgainst(myHistory, id)|
    requires Available(reps.keys, myHistory) != []
    requires ExploredCount(reps.keys, reps.values) < ColdStartOpponents
    ensures var r := NextOpponent(current, reps, myHistory);
      && r in reps.values && HasRoundsLeft(myHistory, r)
      && IsFirstFewestMoves(Available(reps.keys, myHistory), myHistory, r)
  {
    var avail := Available(reps.keys, myHistory);
    var rounds := RoundsOf(avail, reps.values);
    var k := FirstMinIndex(rounds);
    assert NextOpponent(current, reps, myHistory) == avail[k];
    FirstMinimumIsFewestMoves(avail, rounds, myHistory, k);
  }
}
