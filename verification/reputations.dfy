/**
 * `build_opponent_reputations` of roenco_maxim_hydra_round_2.py: for every
 * opponent, a profile derived from the two histories of that pairing. The
 * scalars are exact rationals (`real`).
 */
module Reputations {
  import opened Wrappers
  import opened Moves
  import opened Dicts
  import CtrlAltDefect

  datatype PatternClass =
    | Unknown
    | AlwaysCooperate
    | AlwaysDefect
    | TitForTat
    | MostlyCooperate
    | MostlyDefect
    | Mixed

  /**
   * One opponent's profile. `avgScore` is None in the profile of an opponent
   * without history, whose dictionary has no 'avg_score' entry.
   */
  datatype Profile = Profile(
    scorePotential: real,
    cooperativeness: real,
    exploitability: real,
    stability: real,
    roundsPlayed: nat,
    pattern: PatternClass,
    avgScore: Option<real>)

  /** The optimistic prior for an opponent that has not moved yet. */
  const DefaultProfile := Profile(3.0, 1.0, 0.5, 0.5, 0, Unknown, None)

  /**
   * What the two histories of one pairing must satisfy for the program's
   * indexing: my moves are paired with the opponent's (line 156), and when I
   * have more than one move the opponent has at most one move more (line 169).
   */
  predicate Pairable(my: seq<Move>, opp: seq<Move>) {
    |my| <= |opp| && (|my| > 1 ==> |opp| <= |my| + 1)
  }

  // ---------------------------------------------------------------------
  // Payoffs

  /** My points for one round under the matrix 3/3, 5/0, 1/1. */
  function Payoff(mine: Move, theirs: Move): (p: nat)
    ensures p <= 5
  {
    if mine == Cooperate && theirs == Cooperate then 3
    else if mine == Defect && theirs == Cooperate then 5
    else if mine == Defect && theirs == Defect then 1
    else 0
  }

  /** My points over rounds 0 .. k-1; at most 5 per round. */
  function TotalPayoff(my: seq<Move>, opp: seq<Move>, k: nat): (r: nat)
    requires k <= |my| && k <= |opp|
    ensures r <= 5 * k
  {
    if k == 0 then 0 else TotalPayoff(my, opp, k - 1) + Payoff(my[k - 1], opp[k - 1])
  }

  /** `my_score / len(my_moves) if my_moves else 0` */
  function AverageScore(my: seq<Move>, opp: seq<Move>): real
    requires |my| <= |opp|
  {
    if |my| > 0 then TotalPayoff(my, opp, |my|) as real / |my| as real else 0.0
  }

  // ---------------------------------------------------------------------
  // The derived metrics

  /** `sum(opp_moves) / len(opp_moves)` */
  function CooperationRate(opp: seq<Move>): real
    requires opp != []
  {
    Ones(opp) as real / |opp| as real
  }

  /**
   * The tit-for-tat flag of the profile: more than one move of mine, and the
   * opponent echoed my previous move in at least 90 % of my rounds after the
   * first, counting over the opponent's rounds. Unlike the strategy's
   * detector it does not look at the opponent's first move.
   */
  predicate TitForTatFlag(my: seq<Move>, opp: seq<Move>)
    requires Pairable(my, opp)
  {
    |my| > 1 && 10 * CtrlAltDefect.TftMatches(my, opp, |opp|) >= 9 * (|my| - 1)
  }

  /** The number of adjacent rounds in which the move changed. */
  function Changes(h: seq<Move>): (r: nat)
    ensures r <= if |h| == 0 then 0 else |h| - 1
  {
    if |h| < 2 then 0
    else Changes(h[..|h| - 1]) + (if h[|h| - 2] != h[|h| - 1] then 1 else 0)
  }

  /** `1 - changes / (len - 1)`, or 0.5 for fewer than three moves. */
  function Stability(opp: seq<Move>): real {
    if |opp| < 3 then 0.5
    else 1.0 - Changes(opp) as real / (|opp| - 1) as real
  }

  /** The pattern classes in the program's order of priority. */
  function Classify(my: seq<Move>, opp: seq<Move>): PatternClass
    requires Pairable(my, opp) && opp != []
  {
    if AllCooperate(opp) then AlwaysCooperate
    else if AllDefect(opp) then AlwaysDefect
    else if TitForTatFlag(my, opp) then TitForTat
    else if CooperationRate(opp) > 0.8 then MostlyCooperate
    else if CooperationRate(opp) < 0.2 then MostlyDefect
    else Mixed
  }

  /** The fixed exploitability of each class; the prior's for Unknown. */
  function Exploitability(p: PatternClass): real {
    match p
    case Unknown => 0.5
    case AlwaysCooperate => 1.0
    case AlwaysDefect => 0.0
    case TitForTat => 0.3
    case MostlyCooperate => 0.8
    case MostlyDefect => 0.1
    case Mixed => 0.5
  }

  /**
   * The points per round expected against the class: fixed for the three
   * pure classes, otherwise the realised average raised by half the
   * exploitability and capped at 5.
   */
  function ScorePotential(p: PatternClass, avg: real): real {
    match p
    case AlwaysCooperate => 5.0
    case AlwaysDefect => 1.0
    case TitForTat => 3.0
    case _ =>
      var raised := avg * (1.0 + Exploitability(p) * 0.5);
      if 5.0 <= raised then 5.0 else raised
  }

  /** The profile the program builds for one opponent (lines 135-230). */
  function ProfileOf(my: seq<Move>, opp: seq<Move>): Profile
    requires Pairable(my, opp)
  {
    if opp == [] then DefaultProfile
    else
      var pattern := Classify(my, opp);
      var avg := AverageScore(my, opp);
      Profile(ScorePotential(pattern, avg), CooperationRate(opp), Exploitability(pattern),
              Stability(opp), |my|, pattern, Some(avg))
  }

  /** `my_history.get(opp_id, [])` */
  function MovesAgainst(myHistory: Dict<seq<Move>>, id: int): seq<Move> {
    Get(myHistory, id, [])
  }

  /** Every opponent's pair of histories can be indexed as the program does. */
  ghost predicate HistoriesPairable(myHistory: Dict<seq<Move>>, oppHistory: Dict<seq<Move>>) {
    forall id :: id in oppHistory.values ==> Pairable(MovesAgainst(myHistory, id), oppHistory.values[id])
  }

  /**
   * The reputation dictionary: the keys of the opponents' histories, in their
   * order, each mapped to its profile.
   */
  function ReputationsOf(myHistory: Dict<seq<Move>>, oppHistory: Dict<seq<Move>>): (r: Dict<Profile>)
    requires oppHistory.Valid() && HistoriesPairable(myHistory, oppHistory)
    ensures r.Valid() && r.keys == oppHistory.keys
    ensures forall id :: id in r.values <==> id in oppHistory.values
  {
    Dict(oppHistory.keys,
         map id | id in oppHistory.values :: ProfileOf(MovesAgainst(myHistory, id), oppHistory.values[id]))
  }

  // ---------------------------------------------------------------------
  // The program's loops

  /** One iteration of the outer loop: the profile of one opponent, with the score loop. */
  method ComputeProfile(my: seq<Move>, opp: seq<Move>) returns (p: Profile)
    requires Pairable(my, opp)
    ensures p == ProfileOf(my, opp)
  {
    if opp == [] {
      return DefaultProfile;
    }
    var coopRate := Ones(opp) as real / |opp| as real;
    var myScore := 0;
    var i := 0;
    while i < |my|
      invariant 0 <= i <= |my|
      invariant myScore == TotalPayoff(my, opp, i)
    {
      if my[i] == 1 && opp[i] == 1 {
        myScore := myScore + 3;
      } else if my[i] == 0 && opp[i] == 1 {
        myScore := myScore + 5;
      } else if my[i] == 0 && opp[i] == 0 {
        myScore := myScore + 1;
      }
      i := i + 1;
    }
    var avgScore := if |my| > 0 then myScore as real / |my| as real else 0.0;
    var isTft := false;
    if |my| > 1 {
      var tftMatches := CtrlAltDefect.TftMatches(my, opp, |opp|);
      isTft := 10 * tftMatches >= 9 * (|my| - 1);
    }
    var stability := if |opp| < 3 then 0.5 else 1.0 - Changes(opp) as real / (|opp| - 1) as real;
    var pattern, exploitability;
    if AllCooperate(opp) {
      pattern, exploitability := AlwaysCooperate, 1.0;
    } else if AllDefect(opp) {
      pattern, exploitability := AlwaysDefect, 0.0;
    } else if isTft {
      pattern, exploitability := TitForTat, 0.3;
    } else if coopRate > 0.8 {
      pattern, exploitability := MostlyCooperate, 0.8;
    } else if coopRate < 0.2 {
      pattern, exploitability := MostlyDefect, 0.1;
    } else {
      pattern, exploitability := Mixed, 0.5;
    }
    var scorePotential;
    if pattern == AlwaysCooperate {
      scorePotential := 5.0;
    } else if pattern == AlwaysDefect {
      scorePotential := 1.0;
    } else if pattern == TitForTat {
      scorePotential := 3.0;
    } else {
      scorePotential := avgScore;
      var raised := scorePotential * (1.0 + exploitability * 0.5);
      scorePotential := if 5.0 <= raised then 5.0 else raised;
    }
    return Profile(scorePotential, coopRate, exploitability, stability, |my|, pattern, Some(avgScore));
  }

  /** `build_opponent_reputations`: fills the dictionary in the order of the opponents' keys. */
  method BuildOpponentReputations(myHistory: Dict<seq<Move>>, oppHistory: Dict<seq<Move>>)
    returns (reputations: Dict<Profile>)
    requires oppHistory.Valid() && HistoriesPairable(myHistory, oppHistory)
    ensures reputations == ReputationsOf(myHistory, oppHistory)
  {
    var keys: seq<int> := [];
    var values: map<int, Profile> := map[];
    var i := 0;
    while i < |oppHistory.keys|
      invariant 0 <= i <= |oppHistory.keys|
      invariant keys == oppHistory.keys[..i]
      invariant forall id :: id in values <==> id in keys
      invariant forall id :: id in values ==>
        id in oppHistory.values && values[id] == ProfileOf(MovesAgainst(myHistory, id), oppHistory.values[id])
    {
      var id := oppHistory.keys[i];
      var myMoves := MovesAgainst(myHistory, id);
      var oppMoves := Get(oppHistory, id, []);
      var profile := ComputeProfile(myMoves, oppMoves);
      values := values[id := profile];
      keys := keys + [id];
      assert oppHistory.keys[..i + 1] == oppHistory.keys[..i] + [id];
      i := i + 1;
    }
    assert keys == oppHistory.keys;
    assert values == ReputationsOf(myHistory, oppHistory).values by {
      assert forall id :: id in values <==> id in oppHistory.values;
    }
    reputations := Dict(keys, values);
  }
}
