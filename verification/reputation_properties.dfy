/**
 * What the profiles of the reputation model promise: every scalar in its
 * range, the pattern classes consistent with the cooperation rate, the fixed
 * profile of an unconditional cooperator, and the shape of the dictionary.
 */
module ReputationProperties {
  import opened Moves
  import opened Dicts
  import opened Ratios
  import opened Reputations
  import CtrlAltDefect

  /** The realised average of 0, 1, 3 or 5 points per round lies in [0, 5]. */
  lemma AverageScoreBounds(my: seq<Move>, opp: seq<Move>)
    requires |my| <= |opp|
    ensures 0.0 <= AverageScore(my, opp) <= 5.0
  {
    if |my| > 0 {
      var total := TotalPayoff(my, opp, |my|);
      DivAtLeast(total as real, |my| as real, 0.0);
      DivAtMost(total as real, |my| as real, 5.0);
      assert (5 * |my|) as real == 5.0 * |my| as real;
    }
  }

  /** The cooperation rate lies in [0, 1]; it is 1 exactly for a pure cooperator and 0 exactly for a pure defector. */
  lemma CooperationRateBounds(opp: seq<Move>)
    requires opp != []
    ensures 0.0 <= CooperationRate(opp) <= 1.0
    ensures CooperationRate(opp) == 1.0 <==> AllCooperate(opp)
    ensures CooperationRate(opp) == 0.0 <==> AllDefect(opp)
  {
    var n := |opp| as real;
    FractionInUnit(Ones(opp), |opp|);
    DivAtLeast(Ones(opp) as real, n, 1.0);
    DivAtMost(Ones(opp) as real, n, 0.0);
    OnesAllCooperate(opp);
    OnesAllDefect(opp);
  }

  /** Stability lies in [0, 1]. */
  lemma StabilityBounds(opp: seq<Move>)
    ensures 0.0 <= Stability(opp) <= 1.0
  {
    if |opp| >= 3 {
      FractionInUnit(Changes(opp), |opp| - 1);
    }
  }

  /** A non-empty history has no changes exactly when every move equals the first. */
  lemma {:induction false} ChangesZeroIffConstant(h: seq<Move>)
    requires h != []
    ensures Changes(h) == 0 <==> forall i :: 0 <= i < |h| ==> h[i] == h[0]
  {
    if |h| >= 2 {
      var init := h[..|h| - 1];
      ChangesZeroIffConstant(init);
      assert forall i :: 0 <= i < |init| ==> init[i] == h[i];
    }
  }

  /** With at least three moves, stability is 1 exactly for an opponent that never changed its move. */
  lemma StableExactlyWhenConstant(opp: seq<Move>)
    requires |opp| >= 3
    ensures Stability(opp) == 1.0 <==> AllCooperate(opp) || AllDefect(opp)
  {
    ChangesZeroIffConstant(opp);
    DivAtMost(Changes(opp) as real, (|opp| - 1) as real, 0.0);
    if forall i :: 0 <= i < |opp| ==> opp[i] == opp[0] {
      if opp[0] == Cooperate {
        assert AllCooperate(opp);
      } else {
        assert AllDefect(opp);
      }
    }
    if AllCooperate(opp) || AllDefect(opp) {
      assert forall i :: 0 <= i < |opp| ==> opp[i] == opp[0];
    }
  }

  /**
   * The score potential of a realised average in [0, 5] lies in [0, 5]; for
   * the classes that use the average it is at least the average, because the
   * factor 1 + exploitability / 2 is at least 1.
   */
  lemma ScorePotentialBounds(p: PatternClass, avg: real)
    requires 0.0 <= avg <= 5.0
    ensures 0.0 <= ScorePotential(p, avg) <= 5.0
    ensures p !in {AlwaysCooperate, AlwaysDefect, TitForTat} ==> avg <= ScorePotential(p, avg)
  {
    var factor := 1.0 + Exploitability(p) * 0.5;
    assert factor >= 1.0;
    assert avg * factor - avg == avg * (factor - 1.0);
    assert avg * (factor - 1.0) >= 0.0;
  }

  /** Every field of a profile is in its range, and rounds_played is the length of my history. */
  lemma ProfileBounds(my: seq<Move>, opp: seq<Move>)
    requires Pairable(my, opp)
    ensures var p := ProfileOf(my, opp);
      && 0.0 <= p.scorePotential <= 5.0
      && 0.0 <= p.cooperativeness <= 1.0
      && 0.0 <= p.exploitability <= 1.0
      && 0.0 <= p.stability <= 1.0
      && p.exploitability == Exploitability(p.pattern)
      && p.roundsPlayed == |my|
      && (p.pattern == Unknown <==> opp == [])
      && (p.avgScore.Some? ==> 0.0 <= p.avgScore.value <= 5.0)
      && (p.pattern in {MostlyCooperate, MostlyDefect, Mixed} ==> p.avgScore.value <= p.scorePotential)
  {
    if opp != [] {
      AverageScoreBounds(my, opp);
      CooperationRateBounds(opp);
      StabilityBounds(opp);
      ScorePotentialBounds(Classify(my, opp), AverageScore(my, opp));
    }
  }

  /**
   * The integer test of the reputation's tit-for-tat flag is the program's
   * `tft_matches >= (len(my_moves) - 1) * 0.9` over exact rationals.
   */
  lemma TitForTatFlagAsRatio(my: seq<Move>, opp: seq<Move>)
    requires Pairable(my, opp)
    ensures TitForTatFlag(my, opp)
        <==> |my| > 1 && CtrlAltDefect.TftMatches(my, opp, |opp|) as real >= (|my| - 1) as real * 0.9
  {
  }

  /**
   * The pattern classes partition the histories by cooperation rate: 1 for
   * always_cooperate, 0 for always_defect, strictly between 0.8 and 1 for
   * mostly_cooperate, strictly between 0 and 0.2 for mostly_defect, and in
   * [0.2, 0.8] for mixed. A tit_for_tat opponent has mixed its moves.
   */
  lemma PatternAgreesWithRate(my: seq<Move>, opp: seq<Move>)
    requires Pairable(my, opp) && opp != []
    ensures var c, rate := Classify(my, opp), CooperationRate(opp);
      && (c == AlwaysCooperate <==> rate == 1.0)
      && (c == AlwaysDefect <==> rate == 0.0)
      && (c == TitForTat ==> TitForTatFlag(my, opp) && 0.0 < rate < 1.0)
      && (c == MostlyCooperate ==> 0.8 < rate < 1.0)
      && (c == MostlyDefect ==> 0.0 < rate < 0.2)
      && (c == Mixed ==> 0.2 <= rate <= 0.8)
      && c != Unknown
  {
    CooperationRateBounds(opp);
  }

  /**
   * An opponent that has only cooperated is always_cooperate, fully
   * exploitable, worth 5 points per round, and (from three moves on) fully stable.
   */
  lemma AllCooperatorProfile(my: seq<Move>, opp: seq<Move>)
    requires Pairable(my, opp) && opp != [] && AllCooperate(opp)
    ensures var p := ProfileOf(my, opp);
      && p.pattern == AlwaysCooperate
      && p.scorePotential == 5.0
      && p.exploitability == 1.0
      && p.cooperativeness == 1.0
      && p.roundsPlayed == |my|
      && (|opp| >= 3 ==> p.stability == 1.0)
  {
    CooperationRateBounds(opp);
    if |opp| >= 3 {
      StableExactlyWhenConstant(opp);
    }
  }

  /**
   * The reputation dictionary has the opponents' keys in their order; an
   * opponent without history gets the default profile, and every profile
   * counts as played the rounds of my history against that opponent.
   */
  lemma ReputationsShape(myHistory: Dict<seq<Move>>, oppHistory: Dict<seq<Move>>)
    requires oppHistory.Valid() && HistoriesPairable(myHistory, oppHistory)
    ensures var r := ReputationsOf(myHistory, oppHistory);
      && r.Valid()
      && r.keys == oppHistory.keys
      && (forall id :: id in r.values <==> id in oppHistory.values)
      && (forall id :: id in oppHistory.values && oppHistory.values[id] == [] ==> r.values[id] == DefaultProfile)
      && (forall id :: id in r.values ==> r.values[id].roundsPlayed == |MovesAgainst(myHistory, id)|)
  {
    var r := ReputationsOf(myHistory, oppHistory);
    forall id | id in r.values
      ensures r.values[id].roundsPlayed == |MovesAgainst(myHistory, id)|
    {
      ProfileBounds(MovesAgainst(myHistory, id), oppHistory.values[id]);
    }
  }
}
