# Iterated Prisoner's Dilemma agents in Dafny

This project models two decision agents for the Iterated Prisoner's Dilemma
and proves properties of them. A move is the integer 0 (defect) or 1
(cooperate). A history is one player's list of moves against one opponent,
round 0 first.

- **ctrl_alt_defect.py, `strategy`**: a single-game strategy, written as a
  first-match-wins chain of nine rules:
  1. cooperate on the opening move;
  2. defect in the known last round;
  3. cooperate with a recognised tit-for-tat opponent;
  4. defect against a 40–60 % "random" opponent;
  5. defect against an exploiting opponent;
  6. predict a repeated block of three moves;
  7. cooperate to break a mutual defection;
  8. follow the opponent's recent cooperation rate;
  9. fall back to a forgiving tit-for-tat.
- **roenco_maxim_hydra_round_2.py, `strategy_round_2`**: a multi-opponent
  agent. It plays `core_strategy`, which is the same chain with the last
  round fixed at 199 moves and a deterministic forgiveness rule. It builds a
  reputation profile for every opponent, then picks the next opponent by a
  cold-start exploration rule or else by a selection score.

Modules, one file each:

- `Wrappers`: the `Option` datatype (the program's `None` or a value).
- `Moves`: moves, `Ones` (the program's `sum`, equal to `count(1)`), and `all(...)`.
- `Dicts`: a Python dict as its key sequence in insertion order plus a map.
- `Ratios`: facts linking `a / n` comparisons to integer cross-multiplication.
- `CtrlAltDefect`: the four detectors, the rule chain (`RuleMove`, `Fallback`, `Decide`) and the method `Strategy`.
- `StrategyProperties`: how the strategy behaves against characteristic opponents, and why its integer thresholds are the program's ratios.
- `HydraCore`: `core_strategy`, proved to be `Decide` with 200 rounds and forgiveness every fifth round.
- `Reputations`: the payoffs, the profile metrics, `ComputeProfile` and `BuildOpponentReputations`.
- `ReputationProperties`: the ranges and consistency of the profiles.
- `Selection`: `select_next_opponent`.
- `HydraRound2`: `strategy_round_2`.
- `HydraRound2Properties`: the cold-start choice, stated over the two history dictionaries.

Every `for` statement of the programs is a `method` with a `while` loop.
Each is proved equal to a specification function, and the properties are
proved about that function. The generator expressions and comprehensions
(roenco_maxim_hydra_round_2.py:169, :183, :245, :290 and :292-293) are
recursive functions instead: `TftMatches`, `Changes`, `Available`,
`ExploredCount` and `FirstMinIndex`. The methods are:

- `IsTitForTat`, `DetectExploitationPattern` and `DetectPattern`: the detector loops.
- `ComputeProfile` and `BuildOpponentReputations`: the reputation loops.
- `SelectNextOpponent`: the scoring loop.

The integer ratio tests of the strategy are cross-multiplications. For
example, `matches >= (n - 1) * 0.9` becomes `10 * matches >= 9 * (n - 1)`.
Lemmas prove that each cross-multiplication is equivalent to the program's
ratio over exact rationals. The scalars of the reputation profiles are
`real`.

Preconditions:

- The strategy requires `|my| <= |opp|`. Callers are expected to pass histories of equal length, which implies it, and it is enough for the indexing at ctrl_alt_defect.py:16 and :41.
- For each opponent, the reputation code indexes `opp_moves[i]` for every `i < len(my_moves)` (line 156). When I have more than one move, it also indexes `my_moves[i-1]` for every `i < len(opp_moves)` (line 169).
- `Pairable` requires these indexings to be in range. It also requires my history to be empty when the opponent's is, although the program builds the default profile there without indexing (lines 139-148). `HistoriesPairable` requires `Pairable` for every opponent.

The reputation's tit-for-tat flag (roenco_maxim_hydra_round_2.py:166-170)
differs from the strategy's detector (ctrl_alt_defect.py:11-19) in three ways:

- It does not check the opponent's first move or the three-move minimum.
- It counts over the opponent's rounds instead of mine.
- It only needs more than one move of mine.

`Reputations.TitForTatFlag` models the code's form.

## Model

| member | source | states |
|---|---|---|
| CtrlAltDefect.TftMatches | ctrl_alt_defect.py:14-17 | the echo count over rounds 1 .. k-1 never exceeds the number of rounds counted |
| CtrlAltDefect.IsTitForTat | ctrl_alt_defect.py:11-19 | the loop returns true exactly when the opponent has at least 3 moves, opened with 1, and echoed my previous move in at least 90 % of my rounds after the first |
| CtrlAltDefect.DefectsAfterCoop | ctrl_alt_defect.py:38-42 | the defections after my cooperations never exceed my cooperations in the same rounds |
| CtrlAltDefect.DetectExploitationPattern | ctrl_alt_defect.py:29-45 | the loop returns exactly the exploitation test (at least 10 moves, some cooperation in rounds 0..n-2, more than 60 % of them answered by a defection); the counters keep defect_after_coop <= coop_count <= i |
| CtrlAltDefect.FirstRepeatFrom | ctrl_alt_defect.py:52-56 | the result is the smallest start j >= i of a block of three moves followed by the same three, or None exactly when there is none |
| CtrlAltDefect.RepeatedBlock | ctrl_alt_defect.py:47-57 | nothing for histories shorter than 6; otherwise nothing exactly when no block repeats, and else a length-3 block hist[i:i+3] equal to hist[i+3:i+6] for the smallest such i |
| CtrlAltDefect.DetectPattern | ctrl_alt_defect.py:47-57 | the search loop with its early return computes RepeatedBlock |
| CtrlAltDefect.RecentWindow | ctrl_alt_defect.py:85 | the window is min(10, len(opp)): at most 10, at most the history, and equal to one of them |
| CtrlAltDefect.RecentOnes | ctrl_alt_defect.py:86 | the cooperations in the window never exceed its length |
| CtrlAltDefect.RuleMove | ctrl_alt_defect.py:1-94 | when none of rules 1 to 8 applies, both histories are non-empty, so the fallback can read the opponent's last move |
| CtrlAltDefect.Fallback | ctrl_alt_defect.py:96-102 | a last cooperation is reciprocated; after a defection the move is 1 exactly when the forgiveness draw succeeds |
| CtrlAltDefect.Decide | ctrl_alt_defect.py:1-8 | an empty history gives 1 whatever rounds is; with rounds given and len(my) == rounds - 1 the result is 0 before any detector |
| CtrlAltDefect.Strategy | ctrl_alt_defect.py:1-102 | the program's steps, calling the detector loops, return exactly Decide; the result is always a move (0 or 1) |
| StrategyProperties.TftMatchesAllEchoed | ctrl_alt_defect.py:14-17 | an opponent that echoed every move of mine matches in every round after the first |
| StrategyProperties.NoDefectsAfterCoopAgainstCooperator | ctrl_alt_defect.py:38-42 | an opponent that never defects never defects after one of my cooperations |
| StrategyProperties.ConstantHistoryRepeatsAtStart | ctrl_alt_defect.py:47-57 | a constant history of at least 6 moves yields its first block, which is that move three times |
| StrategyProperties.PureTitForTatIsCooperatedWith | ctrl_alt_defect.py:11-19 | a pure tit-for-tat opponent that opened with 1 is cooperated with from round 3 on, except in the known last round |
| StrategyProperties.AllCooperatorIsCooperatedWith | ctrl_alt_defect.py:1-98 | an opponent that only ever cooperated is always cooperated with, except in the known last round |
| StrategyProperties.AllDefectorIsDefectedAgainst | ctrl_alt_defect.py:47-76 | an opponent that only ever defected, over at least 6 rounds, is defected against from my second move on |
| StrategyProperties.CycleIsPredicted | ctrl_alt_defect.py:72-76 | the opponent cycle 1,0,1,1,0,1 predicts pattern[6 % 3] = 1 at round 6, so the move is 1 |
| StrategyProperties.EvenSplitIsDefectedAgainst | ctrl_alt_defect.py:21-27 | at least 20 moves split evenly are judged random and defected against unless the opponent looks like tit-for-tat |
| StrategyProperties.ForgivenessOnlyInFallback | ctrl_alt_defect.py:96-102 | the draw can only turn a 0 into a 1, and it changes the move exactly when rules 1 to 8 pass and the opponent's last move was 0 |
| StrategyProperties.DetectorsDecide | ctrl_alt_defect.py:59-82 | once the rules before it pass: tit-for-tat gives 1, random gives 0, exploitation gives 0, a repeated block gives pattern[len(my) % 3], a mutual defection gives 1 |
| StrategyProperties.RecentRateDecides | ctrl_alt_defect.py:84-102 | after rules 1 to 7: a recent rate above 0.7 gives 1, below 0.3 gives 0, otherwise a last 1 gives 1 and a last 0 gives 1 exactly when forgiven |
| StrategyProperties.TitForTatThresholdAsRatio | ctrl_alt_defect.py:19 | the integer test 10 * matches >= 9 * (n - 1) is matches >= (n - 1) * 0.9 |
| StrategyProperties.RandomThresholdAsRatio | ctrl_alt_defect.py:21-27 | the integer test 2n <= 5 * ones <= 3n is 0.4 <= ones / n <= 0.6 |
| StrategyProperties.ExploitationThresholdAsRatio | ctrl_alt_defect.py:45 | the integer test 5 * defect_after_coop > 3 * coop_count is defect_after_coop / coop_count > 0.6 |
| StrategyProperties.RecentThresholdsAsRatios | ctrl_alt_defect.py:85-94 | the integer tests on the recent window are rate > 0.7 and rate < 0.3 |
| HydraCore.CoreStrategy | roenco_maxim_hydra_round_2.py:34-122 | core_strategy is the ctrl_alt_defect chain with 200 known rounds and forgiveness exactly when len(my) % 5 == 0 |
| HydraCore.CoreOpensAndCloses | roenco_maxim_hydra_round_2.py:39-45 | core_strategy returns 1 on an empty history and 0 when exactly 199 moves have been played |
| HydraCore.CoreForgivesEveryFifthRound | roenco_maxim_hydra_round_2.py:117-122 | at the fallback after an opponent defection the move is 1 exactly when len(my) % 5 == 0 |
| Reputations.Payoff | roenco_maxim_hydra_round_2.py:156-162 | one round scores at most 5 points |
| Reputations.TotalPayoff | roenco_maxim_hydra_round_2.py:154-162 | k rounds score at most 5k points |
| Reputations.Changes | roenco_maxim_hydra_round_2.py:183 | the number of adjacent move changes is at most len - 1 |
| Reputations.ReputationsOf | roenco_maxim_hydra_round_2.py:132-232 | the reputation dict is well formed, has exactly the keys of opponents_history in their order, and gives each of them a profile |
| Reputations.ComputeProfile | roenco_maxim_hydra_round_2.py:135-230 | one loop iteration, including the score loop, builds exactly ProfileOf |
| Reputations.BuildOpponentReputations | roenco_maxim_hydra_round_2.py:125-232 | the outer loop fills exactly ReputationsOf |
| ReputationProperties.AverageScoreBounds | roenco_maxim_hydra_round_2.py:153-164 | the realised average score is in [0, 5] |
| ReputationProperties.CooperationRateBounds | roenco_maxim_hydra_round_2.py:150-176 | the cooperation rate is in [0, 1]; it is 1 exactly for always-cooperate and 0 exactly for always-defect |
| ReputationProperties.StabilityBounds | roenco_maxim_hydra_round_2.py:178-184 | stability is in [0, 1] |
| ReputationProperties.ChangesZeroIffConstant | roenco_maxim_hydra_round_2.py:183 | a history has no changes exactly when every move equals the first |
| ReputationProperties.StableExactlyWhenConstant | roenco_maxim_hydra_round_2.py:178-184 | with at least 3 moves, stability is 1 exactly for an opponent that always cooperated or always defected |
| ReputationProperties.ScorePotentialBounds | roenco_maxim_hydra_round_2.py:206-220 | score potential stays in [0, 5], and for the averaged classes it is at least the average because the factor is >= 1 |
| ReputationProperties.ProfileBounds | roenco_maxim_hydra_round_2.py:138-230 | every profile scalar is in range, exploitability is the class's fixed value, rounds_played is len(my_moves), the pattern is unknown exactly for an empty history, and the average is in [0, 5] |
| ReputationProperties.TitForTatFlagAsRatio | roenco_maxim_hydra_round_2.py:166-170 | the integer test 10 * tft_matches >= 9 * (len(my_moves) - 1) of the flag is tft_matches >= (len(my_moves) - 1) * 0.9, with more than one move of mine |
| ReputationProperties.PatternAgreesWithRate | roenco_maxim_hydra_round_2.py:186-204 | the classes are checked in priority order: always_cooperate exactly at rate 1, always_defect exactly at rate 0, mostly_cooperate in (0.8, 1), mostly_defect in (0, 0.2), mixed in [0.2, 0.8], tit_for_tat only for a mixed history with the flag set |
| ReputationProperties.AllCooperatorProfile | roenco_maxim_hydra_round_2.py:186-230 | an all-1 history gives always_cooperate with score potential 5.0, exploitability 1.0, cooperativeness 1.0, rounds_played len(my_moves) and, from 3 moves, stability 1.0 |
| ReputationProperties.ReputationsShape | roenco_maxim_hydra_round_2.py:132-148 | the reputation keys are those of opponents_history; an empty opponent history gets the default profile (3.0, 1.0, 0.5, 0.5, 0, unknown); rounds_played is the length of my history against that id |
| Selection.Available | roenco_maxim_hydra_round_2.py:244-246 | the available ids are exactly the reputation keys present in my_history with fewer than 200 moves, in key order |
| Selection.ExploredCount | roenco_maxim_hydra_round_2.py:290 | the count of opponents with rounds played is at most the number of opponents |
| Selection.FirstMinIndex | roenco_maxim_hydra_round_2.py:292-295 | the position of the first least element |
| Selection.FirstMaxIndex | roenco_maxim_hydra_round_2.py:298 | the position of the first greatest element, as Python's max keeps the first maximum |
| Selection.NextOpponent | roenco_maxim_hydra_round_2.py:244-298 | current_id when none is available; otherwise an available id: the first least-played one during a cold start (fewer than 5 explored), else the first with the greatest selection score. The contract is stated over `RoundsOf` (the rounds_played list at :292), `ScoresOf` (the score list at :252-287) and `SelectionScore` (the formula at :254-285) |
| Selection.SelectNextOpponent | roenco_maxim_hydra_round_2.py:235-298 | the scoring loop and the two selection rules compute NextOpponent |
| Selection.FewestMovesAtColdStart | roenco_maxim_hydra_round_2.py:289-295 | when every profile counts the moves of my history against its opponent, a cold start picks an available opponent with rounds left that is the first one against which I have made the fewest moves |
| HydraRound2.StrategyRound2 | roenco_maxim_hydra_round_2.py:1-31 | the move is core_strategy on the current pairing (missing ids read as empty histories), and the next opponent is NextOpponent on the built reputations: the current id or an opponent with rounds left |
| HydraRound2Properties.ColdStartPicksFewestMoves | roenco_maxim_hydra_round_2.py:289-295 | on the reputations strategy_round_2 builds, a cold start picks an opponent with rounds left that is the first available one against which I have made the fewest moves |

## Left out

- `random.random() < 0.2` (ctrl_alt_defect.py:101-102) is a call into the random number generator. It is the boolean input `forgive`; the model does not capture the 20 % probability.
- IEEE-754 rounding: every ratio is compared over exact rationals or integers, so binary floating-point boundary cases are not modelled.
- Python dict semantics beyond insertion order (hashing, mutation during iteration) are not modelled. A dict is its key sequence plus a map.
- The tournament harness, which calls these functions and grows the histories, is not part of this model.
- Moves other than 0 and 1 are excluded by the type `Move`. The programs would treat another value as a defection in some tests and not in others.
- `selection_scores` (roenco_maxim_hydra_round_2.py:252-287) is a sequence parallel to the available ids. It is not a dict keyed by id. The available ids are distinct, so its insertion order is the same.
- CtrlAltDefect.Strategy: requiring `|my| <= |opp|` excludes the inputs that raise `IndexError` at ctrl_alt_defect.py:16 and :41, and the `ZeroDivisionError` at ctrl_alt_defect.py:86 (my history non-empty, the opponent's empty). It also excludes some inputs that raise nothing, for example `my = [1, 1, 1]`, `opp = [1, 1]` with no known round count, where the program cooperates at lines 89-90.
- HydraCore.CoreStrategy: the same precondition excludes the same failures of `core_strategy`, including the `ZeroDivisionError` at roenco_maxim_hydra_round_2.py:109, and the same inputs that raise nothing.
- Reputations.Pairable: the model does not cover an opponent whose history is empty while mine against them is not. The program gives that opponent the default profile (roenco_maxim_hydra_round_2.py:139-148), with `rounds_played` 0. `HistoriesPairable` and the members that require it inherit this gap.
- `core_strategy`'s nested detectors (roenco_maxim_hydra_round_2.py:47-88) are copies of those of ctrl_alt_defect.py, so `CoreStrategy` calls the `CtrlAltDefect` methods. One difference is that line 109 uses `sum` where ctrl_alt_defect.py:86 uses `count(1)`; both are `Ones` on moves.
