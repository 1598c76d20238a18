/**
 * What the single-game strategy of ctrl_alt_defect.py does against
 * characteristic opponents, how its forgiveness draw can change the outcome,
 * and why the integer forms of its thresholds are the program's ratios.
 */
module StrategyProperties {
  import opened Wrappers
  import opened Moves
  import opened CtrlAltDefect
  import opened Ratios

  /** When the opponent echoed every one of my moves, every round after the first matches. */
  lemma {:induction false} TftMatchesAllEchoed(my: seq<Move>, opp: seq<Move>, k: nat)
    requires 1 <= k <= |opp| && k <= |my| + 1
    requires forall i :: 1 <= i < k ==> opp[i] == my[i - 1]
    ensures TftMatches(my, opp, k) == k - 1
  {
    if k > 1 {
      TftMatchesAllEchoed(my, opp, k - 1);
    }
  }

  /** An opponent that never defects never defects after one of my cooperations. */
  lemma {:induction false} NoDefectsAfterCoopAgainstCooperator(my: seq<Move>, opp: seq<Move>, k: nat)
    requires k <= |my| && k < |opp|
    requires AllCooperate(opp)
    ensures DefectsAfterCoop(my, opp, k) == 0
  {
    if k > 0 {
      NoDefectsAfterCoopAgainstCooperator(my, opp, k - 1);
    }
  }

  /** A constant history of length at least six repeats its first block, which is found first. */
  lemma ConstantHistoryRepeatsAtStart(h: seq<Move>, m: Move)
    requires |h| >= 6
    requires forall i :: 0 <= i < |h| ==> h[i] == m
    ensures RepeatedBlock(h) == Some(h[0..3])
    ensures forall i :: 0 <= i < 3 ==> h[0..3][i] == m
  {
    assert h[0..3] == [m, m, m] == h[3..6];
    assert RepeatsAt(h, 0);
    assert FirstRepeatFrom(h, 0) == Some(0);
  }

  /**
   * Against a pure tit-for-tat opponent (it opened with cooperation and then
   * echoed each of my moves) with at least three rounds played, the strategy
   * cooperates, except in the known last round.
   */
  lemma PureTitForTatIsCooperatedWith(my: seq<Move>, opp: seq<Move>, rounds: Option<int>, forgive: bool)
    requires |my| == |opp| >= 3
    requires opp[0] == Cooperate
    requires forall i :: 1 <= i < |opp| ==> opp[i] == my[i - 1]
    requires rounds != Some(|my| + 1)
    ensures Decide(my, opp, rounds, forgive) == Cooperate
  {
    TftMatchesAllEchoed(my, opp, |my|);
    assert TitForTatDetected(my, opp);
  }

  /** Against an opponent that has only ever cooperated, the strategy cooperates, except in the known last round. */
  lemma AllCooperatorIsCooperatedWith(my: seq<Move>, opp: seq<Move>, rounds: Option<int>, forgive: bool)
    requires |my| <= |opp|
    requires AllCooperate(opp)
    requires rounds != Some(|my| + 1)
    ensures Decide(my, opp, rounds, forgive) == Cooperate
  {
    if my != [] && !TitForTatDetected(my, opp) {
      OnesAllCooperate(opp);
      assert !RandomDetected(opp);
      NoDefectsAfterCoopAgainstCooperator(my, opp, |my| - 1);
      assert !ExploitationDetected(my, opp);
      if |opp| >= 6 {
        ConstantHistoryRepeatsAtStart(opp, Cooperate);
      } else {
        var recent := opp[|opp| - RecentWindow(opp)..];
        assert AllCooperate(recent) by {
          forall i | 0 <= i < |recent| ensures recent[i] == Cooperate {
            assert recent[i] == opp[|opp| - RecentWindow(opp) + i];
          }
        }
        OnesAllCooperate(recent);
        assert RecentOnes(opp) == RecentWindow(opp) > 0;
        if |my| >= 2 {
          assert opp[|opp| - 2..][1] == opp[|opp| - 1];
        }
      }
    }
  }

  /**
   * Against an opponent that has only ever defected, over at least six rounds,
   * the strategy defects from its second move on.
   */
  lemma AllDefectorIsDefectedAgainst(my: seq<Move>, opp: seq<Move>, rounds: Option<int>, forgive: bool)
    requires 1 <= |my| <= |opp|
    requires |opp| >= 6
    requires AllDefect(opp)
    ensures Decide(my, opp, rounds, forgive) == Defect
  {
    OnesAllDefect(opp);
    assert !TitForTatDetected(my, opp);
    assert !RandomDetected(opp);
    ConstantHistoryRepeatsAtStart(opp, Defect);
  }

  /**
   * The cycle 1, 0, 1 repeated: at round 6 the predicted move is
   * pattern[6 mod 3] = 1, so the strategy cooperates whatever my own moves were.
   */
  lemma CycleIsPredicted(my: seq<Move>, rounds: Option<int>, forgive: bool)
    requires |my| == 6
    requires rounds != Some(7)
    ensures Decide(my, [1, 0, 1, 1, 0, 1], rounds, forgive) == Cooperate
  {
    var opp: seq<Move> := [1, 0, 1, 1, 0, 1];
    assert RepeatsAt(opp, 0);
    assert FirstRepeatFrom(opp, 0) == Some(0);
    assert opp[0..3] == [1, 0, 1];
  }

  /**
   * An opponent that cooperated in exactly half of at least 20 rounds is
   * treated as random and defected against, unless it looks like tit-for-tat
   * or it is the known last round.
   */
  lemma EvenSplitIsDefectedAgainst(my: seq<Move>, opp: seq<Move>, rounds: Option<int>, forgive: bool)
    requires 1 <= |my| <= |opp|
    requires |opp| >= 20 && 2 * Ones(opp) == |opp|
    requires !TitForTatDetected(my, opp)
    ensures Decide(my, opp, rounds, forgive) == Defect
  {
  }

  /**
   * The forgiveness draw can only turn a defection into a cooperation, and it
   * changes the move exactly when rules 1 to 8 all pass and the opponent's
   * last move was a defection.
   */
  lemma ForgivenessOnlyInFallback(my: seq<Move>, opp: seq<Move>, rounds: Option<int>)
    requires |my| <= |opp|
    ensures Decide(my, opp, rounds, false) <= Decide(my, opp, rounds, true)
    ensures Decide(my, opp, rounds, false) != Decide(my, opp, rounds, true)
        <==> RuleMove(my, opp, rounds).None? && opp[|opp| - 1] == Defect
  {
  }

  /**
   * Each detector decides the move once the rules before it have passed: an
   * opponent recognised as tit-for-tat is cooperated with, a random-looking or
   * exploiting one is defected against, a repeated block predicts the move,
   * and a mutual defection is broken by cooperating.
   */
  lemma DetectorsDecide(my: seq<Move>, opp: seq<Move>, rounds: Option<int>, forgive: bool)
    requires 1 <= |my| <= |opp|
    requires rounds != Some(|my| + 1)
    ensures TitForTatDetected(my, opp) ==> Decide(my, opp, rounds, forgive) == Cooperate
    ensures !TitForTatDetected(my, opp) && RandomDetected(opp) ==> Decide(my, opp, rounds, forgive) == Defect
    ensures !TitForTatDetected(my, opp) && !RandomDetected(opp) && ExploitationDetected(my, opp)
        ==> Decide(my, opp, rounds, forgive) == Defect
    ensures !TitForTatDetected(my, opp) && !RandomDetected(opp) && !ExploitationDetected(my, opp)
        && RepeatedBlock(opp).Some?
        ==> Decide(my, opp, rounds, forgive) == RepeatedBlock(opp).value[|my| % 3]
    ensures !TitForTatDetected(my, opp) && !RandomDetected(opp) && !ExploitationDetected(my, opp)
        && RepeatedBlock(opp).None? && MutualDefection(my, opp)
        ==> Decide(my, opp, rounds, forgive) == Cooperate
  {
  }

  /**
   * Once rules 1 to 7 have passed, the opponent's recent cooperation rate over
   * the last min(10, n) moves decides: above 70 % cooperate, below 30 % defect,
   * otherwise reciprocate the last move (or draw forgiveness after a defection).
   */
  lemma RecentRateDecides(my: seq<Move>, opp: seq<Move>, rounds: Option<int>, forgive: bool)
    requires 1 <= |my| <= |opp|
    requires rounds != Some(|my| + 1)
    requires !TitForTatDetected(my, opp) && !RandomDetected(opp) && !ExploitationDetected(my, opp)
    requires RepeatedBlock(opp).None? && !MutualDefection(my, opp)
    ensures var rate := RecentOnes(opp) as real / RecentWindow(opp) as real;
      && (rate > 0.7 ==> Decide(my, opp, rounds, forgive) == Cooperate)
      && (rate < 0.3 ==> Decide(my, opp, rounds, forgive) == Defect)
      && (0.3 <= rate <= 0.7 && opp[|opp| - 1] == Cooperate ==> Decide(my, opp, rounds, forgive) == Cooperate)
      && (0.3 <= rate <= 0.7 && opp[|opp| - 1] == Defect ==> (Decide(my, opp, rounds, forgive) == Cooperate <==> forgive))
  {
    RecentThresholdsAsRatios(opp);
  }

  // ---------------------------------------------------------------------
  // The integer thresholds are the program's ratio tests

  /** `matches >= (len(my) - 1) * 0.9` */
  lemma TitForTatThresholdAsRatio(my: seq<Move>, opp: seq<Move>)
    requires |my| <= |opp|
    ensures TitForTatDetected(my, opp)
        <==> |opp| >= 3 && opp[0] == Cooperate
             && TftMatches(my, opp, |my|) as real >= (|my| - 1) as real * 0.9
  {
  }

  /** `0.4 <= opp.count(1) / len(opp) <= 0.6` */
  lemma RandomThresholdAsRatio(opp: seq<Move>)
    ensures RandomDetected(opp)
        <==> |opp| >= 20 && 0.4 <= Ones(opp) as real / |opp| as real <= 0.6
  {
    if |opp| >= 20 {
      RatioAtLeastTwoFifths(Ones(opp), |opp|);
      RatioAtMostThreeFifths(Ones(opp), |opp|);
    }
  }

  /** `coop_count > 0 and defect_after_coop / coop_count > 0.6` */
  lemma ExploitationThresholdAsRatio(my: seq<Move>, opp: seq<Move>)
    requires |my| <= |opp|
    ensures ExploitationDetected(my, opp)
        <==> |my| >= 10 && Ones(my[..|my| - 1]) > 0
             && DefectsAfterCoop(my, opp, |my| - 1) as real / Ones(my[..|my| - 1]) as real > 0.6
  {
    if |my| >= 10 && Ones(my[..|my| - 1]) > 0 {
      RatioAtMostThreeFifths(DefectsAfterCoop(my, opp, |my| - 1), Ones(my[..|my| - 1]));
    }
  }

  /** `recent_coop_rate > 0.7` and `recent_coop_rate < 0.3` over the last `min(10, len(opp))` moves. */
  lemma RecentThresholdsAsRatios(opp: seq<Move>)
    requires opp != []
    ensures 10 * RecentOnes(opp) > 7 * RecentWindow(opp)
        <==> RecentOnes(opp) as real / RecentWindow(opp) as real > 0.7
    ensures 10 * RecentOnes(opp) < 3 * RecentWindow(opp)
        <==> RecentOnes(opp) as real / RecentWindow(opp) as real < 0.3
  {
    DivAtMost(RecentOnes(opp) as real, RecentWindow(opp) as real, 0.7);
    DivAtLeast(RecentOnes(opp) as real, RecentWindow(opp) as real, 0.3);
  }
}
