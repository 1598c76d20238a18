/**
 * The single-game strategy of ctrl_alt_defect.py: a first-match-wins chain of
 * rules over my history and the opponent's history.
 *
 * The four nested detectors are given here as specification functions
 * (TftMatches, TitForTatDetected, RandomDetected, DefectsAfterCoop,
 * ExploitationDetected, FirstRepeatFrom, RepeatedBlock) and, where the program
 * runs a loop, as methods proved to compute them (IsTitForTat,
 * DetectExploitationPattern, DetectPattern). Rules 1 to 8 are RuleMove, rule 9
 * (the forgiving tit-for-tat fallback) is Fallback, Decide is the whole chain
 * and the method Strategy is the program's own sequence of steps.
 *
 * Every ratio test of the program is written as an integer
 * cross-multiplication; StrategyProperties.TitForTatThresholdAsRatio,
 * RandomThresholdAsRatio, ExploitationThresholdAsRatio and
 * RecentThresholdsAsRatios show the two forms agree.
 */
module CtrlAltDefect {
  import opened Wrappers
  import opened Moves

  // ---------------------------------------------------------------------
  // Rule 3: tit-for-tat recognition

  /** The number of rounds i in [1, k) in which the opponent played my move of round i - 1. */
  function TftMatches(my: seq<Move>, opp: seq<Move>, k: nat): (r: nat)
    requires k <= |opp| && k <= |my| + 1
    ensures r <= if k == 0 then 0 else k - 1
  {
    if k <= 1 then 0
    else TftMatches(my, opp, k - 1) + (if opp[k - 1] == my[k - 2] then 1 else 0)
  }

  /**
   * The opponent has at least three moves, opened with cooperation, and echoed
   * my previous move in at least 90 % of my rounds after the first.
   */
  predicate TitForTatDetected(my: seq<Move>, opp: seq<Move>)
    requires |my| <= |opp|
  {
    |opp| >= 3 && opp[0] == Cooperate && 10 * TftMatches(my, opp, |my|) >= 9 * (|my| - 1)
  }

  /** `is_tit_for_tat`: counts the echoed moves in a loop. */
  method IsTitForTat(my: seq<Move>, opp: seq<Move>) returns (b: bool)
    requires |my| <= |opp|
    ensures b == TitForTatDetected(my, opp)
  {
    if |opp| < 3 || opp[0] != 1 {
      return false;
    }
    var matches := 0;
    var i := 1;
    while i < |my|
      invariant 1 <= i <= if |my| == 0 then 1 else |my|
      invariant matches == TftMatches(my, opp, i)
    {
      if opp[i] == my[i - 1] {
        matches := matches + 1;
      }
      i := i + 1;
    }
    return 10 * matches >= 9 * (|my| - 1);
  }

  // ---------------------------------------------------------------------
  // Rule 4: random-opponent detection (`is_random_strategy`, no loop)

  /** At least 20 opponent moves, of which between 40 % and 60 % are cooperations. */
  predicate RandomDetected(opp: seq<Move>) {
    |opp| >= 20 && 2 * |opp| <= 5 * Ones(opp) <= 3 * |opp|
  }

  // ---------------------------------------------------------------------
  // Rule 5: exploitation detection

  /**
   * The number of rounds i in [0, k) in which I cooperated and the opponent
   * defected in round i + 1. It never exceeds the number of my cooperations
   * in those rounds.
   */
  function DefectsAfterCoop(my: seq<Move>, opp: seq<Move>, k: nat): (r: nat)
    requires k <= |my| && k < |opp|
    ensures r <= Ones(my[..k])
  {
    if k == 0 then 0
    else
      OnesPrefixStep(my, k - 1);
      DefectsAfterCoop(my, opp, k - 1) + (if my[k - 1] == Cooperate && opp[k] == Defect then 1 else 0)
  }

  /**
   * I have at least ten moves, I cooperated at least once in rounds 0 .. n-2,
   * and after more than 60 % of those cooperations the opponent defected.
   */
  predicate ExploitationDetected(my: seq<Move>, opp: seq<Move>)
    requires |my| <= |opp|
  {
    && |my| >= 10
    && var coops := Ones(my[..|my| - 1]);
       coops > 0 && 5 * DefectsAfterCoop(my, opp, |my| - 1) > 3 * coops
  }

  /**
   * `detect_exploitation_pattern`: counts my cooperations and the defections
   * that followed them in one loop. The counters keep
   * defect_after_coop <= coop_count <= i.
   */
  method DetectExploitationPattern(my: seq<Move>, opp: seq<Move>) returns (b: bool)
    requires |my| <= |opp|
    ensures b == ExploitationDetected(my, opp)
    ensures b ==> |my| >= 10
  {
    if |my| < 10 {
      return false;
    }
    var defectAfterCoop := 0;
    var coopCount := 0;
    var i := 0;
    while i < |my| - 1
      invariant 0 <= i <= |my| - 1
      invariant coopCount == Ones(my[..i])
      invariant defectAfterCoop == DefectsAfterCoop(my, opp, i)
      invariant defectAfterCoop <= coopCount <= i
    {
      OnesPrefixStep(my, i);
      if my[i] == 1 {
        coopCount := coopCount + 1;
        if opp[i + 1] == 0 {
          defectAfterCoop := defectAfterCoop + 1;
        }
      }
      i := i + 1;
    }
    return coopCount > 0 && 5 * defectAfterCoop > 3 * coopCount;
  }

  // ---------------------------------------------------------------------
  // Rule 6: repeating block of length 3

  /** The block of three moves starting at i is followed by the same three moves. */
  predicate RepeatsAt(h: seq<Move>, i: nat)
    requires i + 6 <= |h|
  {
    h[i..i + 3] == h[i + 3..i + 6]
  }

  /** The smallest start j >= i of a repeated block, if there is one. */
  function FirstRepeatFrom(h: seq<Move>, i: nat): (r: Option<nat>)
    requires i <= |h|
    ensures r.Some? ==> i <= r.value && r.value + 6 <= |h| && RepeatsAt(h, r.value)
    ensures r.Some? ==> forall j :: i <= j < r.value ==> !RepeatsAt(h, j)
    ensures r.None? <==> forall j :: i <= j && j + 6 <= |h| ==> !RepeatsAt(h, j)
    decreases |h| - i
  {
    if i + 6 > |h| then None
    else if RepeatsAt(h, i) then Some(i)
    else FirstRepeatFrom(h, i + 1)
  }

  /**
   * `detect_pattern(hist, 3)`: the first block of three moves that is
   * immediately repeated, or nothing when the history is shorter than six.
   */
  function RepeatedBlock(h: seq<Move>): (r: Option<seq<Move>>)
    ensures |h| < 6 ==> r.None?
    ensures r.None? <==> forall j :: 0 <= j && j + 6 <= |h| ==> !RepeatsAt(h, j)
    ensures r.Some? ==> |r.value| == 3
    ensures r.Some? ==> exists i: nat :: i + 6 <= |h| && RepeatsAt(h, i) && r.value == h[i..i + 3]
                                && forall j :: 0 <= j < i ==> !RepeatsAt(h, j)
  {
    if |h| < 6 then None
    else match FirstRepeatFrom(h, 0)
      case None => None
      case Some(i) => Some(h[i..i + 3])
  }

  /** `detect_pattern`: the search loop with its early return. */
  method DetectPattern(h: seq<Move>) returns (r: Option<seq<Move>>)
    ensures r == RepeatedBlock(h)
  {
    if |h| < 6 {
      return None;
    }
    var i := 0;
    while i < |h| - 6 + 1
      invariant 0 <= i <= |h| - 5
      invariant FirstRepeatFrom(h, i) == FirstRepeatFrom(h, 0)
    {
      var pattern := h[i..i + 3];
      var next := h[i + 3..i + 6];
      if pattern == next {
        return Some(pattern);
      }
      i := i + 1;
    }
    return None;
  }

  // ---------------------------------------------------------------------
  // Rules 7 and 8

  /** Both players defected in each of the last two rounds. */
  predicate MutualDefection(my: seq<Move>, opp: seq<Move>)
    requires |my| <= |opp|
  {
    |my| >= 2 && AllDefect(my[|my| - 2..]) && AllDefect(opp[|opp| - 2..])
  }

  /** `min(10, len(opp))` */
  function RecentWindow(opp: seq<Move>): (w: nat)
    ensures w <= 10 && w <= |opp|
    ensures w == 10 || w == |opp|
  {
    if 10 <= |opp| then 10 else |opp|
  }

  /** The number of cooperations among the opponent's last RecentWindow moves. */
  function RecentOnes(opp: seq<Move>): (r: nat)
    ensures r <= RecentWindow(opp)
  {
    Ones(opp[|opp| - RecentWindow(opp)..])
  }

  // ---------------------------------------------------------------------
  // The decision chain

  /**
   * Rules 1 to 8 in their order: the move of the first rule that applies, or
   * nothing when the decision falls to the forgiving fallback.
   */
  function RuleMove(my: seq<Move>, opp: seq<Move>, rounds: Option<int>): (r: Option<Move>)
    requires |my| <= |opp|
    ensures r.None? ==> my != [] && opp != []
  {
    if |my| == 0 then Some(Cooperate)
    else if rounds.Some? && |my| == rounds.value - 1 then Some(Defect)
    else DetectorMove(my, opp)
  }

  /** Rules 3 to 6, the four detectors, then the rules on recent moves. */
  function DetectorMove(my: seq<Move>, opp: seq<Move>): Option<Move>
    requires 1 <= |my| <= |opp|
  {
    if TitForTatDetected(my, opp) then Some(Cooperate)
    else if RandomDetected(opp) then Some(Defect)
    else if ExploitationDetected(my, opp) then Some(Defect)
    else if RepeatedBlock(opp).Some? then
      var pattern := RepeatedBlock(opp).value;
      Some(if pattern[|my| % |pattern|] == Cooperate then Cooperate else Defect)
    else RecentMove(my, opp)
  }

  /** Rules 7 and 8: break a mutual defection, then follow the recent cooperation rate. */
  function RecentMove(my: seq<Move>, opp: seq<Move>): Option<Move>
    requires 1 <= |my| <= |opp|
  {
    if MutualDefection(my, opp) then Some(Cooperate)
    else if 10 * RecentOnes(opp) > 7 * RecentWindow(opp) then Some(Cooperate)
    else if 10 * RecentOnes(opp) < 3 * RecentWindow(opp) then Some(Defect)
    else None
  }

  /**
   * Rule 9: reciprocate a cooperation; after a defection cooperate only when
   * the forgiveness draw says so (`random.random() < 0.2`, here the input
   * `forgive`).
   */
  function Fallback(opp: seq<Move>, forgive: bool): (r: Move)
    requires opp != []
    ensures opp[|opp| - 1] == Cooperate ==> r == Cooperate
    ensures opp[|opp| - 1] == Defect ==> (r == Cooperate <==> forgive)
  {
    if opp[|opp| - 1] == Cooperate then Cooperate
    else if forgive then Cooperate else Defect
  }

  /** `strategy(my_history, opponent_history, rounds)` with the forgiveness draw as input. */
  function Decide(my: seq<Move>, opp: seq<Move>, rounds: Option<int>, forgive: bool): (r: Move)
    requires |my| <= |opp|
    ensures my == [] ==> r == Cooperate
    ensures my != [] && rounds == Some(|my| + 1) ==> r == Defect
  {
    match RuleMove(my, opp, rounds)
    case Some(m) => m
    case None => Fallback(opp, forgive)
  }

  /** The program's own sequence of steps, calling the detector loops. */
  method Strategy(my: seq<Move>, opp: seq<Move>, rounds: Option<int>, forgive: bool) returns (move: Move)
    requires |my| <= |opp|
    ensures move == Decide(my, opp, rounds, forgive)
  {
    if |my| == 0 {
      return Cooperate;
    }
    if rounds.Some? && |my| == rounds.value - 1 {
      return Defect;
    }
    assert RuleMove(my, opp, rounds) == DetectorMove(my, opp);
    var tft := IsTitForTat(my, opp);
    if tft {
      return Cooperate;
    }
    if RandomDetected(opp) {
      return Defect;
    }
    var exploited := DetectExploitationPattern(my, opp);
    if exploited {
      return Defect;
    }
    var pattern := DetectPattern(opp);
    if pattern.Some? {
      var predicted := pattern.value[|my| % |pattern.value|];
      return if predicted == Cooperate then Cooperate else Defect;
    }
    assert DetectorMove(my, opp) == RecentMove(my, opp);
    if |my| >= 2 {
      if AllDefect(my[|my| - 2..]) && AllDefect(opp[|opp| - 2..]) {
        return Cooperate;
      }
    }
    var window := if 10 <= |opp| then 10 else |opp|;
    var recentOnes := Ones(opp[|opp| - window..]);
    assert window == RecentWindow(opp) && recentOnes == RecentOnes(opp);
    if 10 * recentOnes > 7 * window {
      return Cooperate;
    }
    if 10 * recentOnes < 3 * window {
      return Defect;
    }
    if opp[|opp| - 1] == Cooperate {
      return Cooperate;
    }
    return if forgive then Cooperate else Defect;
  }
}
