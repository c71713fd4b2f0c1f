# Dream11 team builder — a Dafny model of its team-selection core

`dream11play.py` builds fantasy-cricket suggestions from a sheet of the
players in a match. Each row is turned into a player record: a role category
and a credit price, both read off the free-text role, plus mock batting and
bowling figures that also come from the role text. Each player gets a score
from a role-weighted formula, and the scores are scaled for the pitch
("batting", "bowling" or anything else). Every 11-player combination is then
tried. A combination is kept when it costs at most 100 credits and has at
least one wicketkeeper, 3-5 batters, 3-5 bowlers and 1-4 all-rounders. A
kept team's total is every score once, plus 1.5 x the best score (captain)
and 1.25 x the second best (vice-captain). The three best totals are
returned. Finally, up to five "differential" players are suggested: the best
score-per-credit players whose names appear in none of those teams.

The model is purely functional. The source mutates player dictionaries in
place; here each pass returns a new sequence of immutable records. Scores
and credits are Dafny `real`, that is exact rationals.

Modules, following the program's stages:

- `Results`: `Result` and `Option` wrappers.
- `Text`: Python's substring test `sub in s` (`Contains`), proved equal to a
  positional definition (`OccursAt`).
- `Roles`: `classify_role` and `assign_credits`.
- `Players`: sheet rows, the mock figures, `process_data`'s row mapping and
  `calculate_scores`.
- `Pitch`: `apply_pitch_effects`.
- `Seqs`: k-combinations in `itertools.combinations` order, a stable
  descending insertion sort and a top-k cut, with soundness and completeness
  lemmas.
- `Optimizer`: `optimize_team`, including the `KeyError('UNK')` it raises.
- `Differentials`: `identify_differentials`.

## Model

| member | source | states |
|---|---|---|
| Text.ContainsIffOccurs | dream11play.py:40 | Python's `sub in s`, as used by every role test, holds exactly when `sub` occurs at some position of `s` |
| Roles.ClassifyRole | dream11play.py:38-44 | the category is WK iff "Wicketkeeper" occurs; BAT iff "Batter" occurs but not "Wicketkeeper"; BOWL and AR likewise down the priority order; UNK iff no keyword occurs |
| Roles.AssignCredits | dream11play.py:46-51 | credits are always one of 9.0, 8.5, 8.0, 7.5 (so at least 7.5); "All-rounder" outranks "Batter", which outranks "Bowler", each as an if-and-only-if |
| Roles.ClassifyLabel | dream11play.py:38-44 | classifying a category's own keyword gives that category back ("UNK" gives UNK), so no keyword is shadowed by an earlier one |
| Roles.CreditsFollowRole | dream11play.py:38-51 | the two priority orders agree: an all-rounder costs 9.0, a batter 8.5 or 9.0, a bowler 8.0 or 9.0, an unknown role 7.5 |
| Players.MockStats | dream11play.py:31-33 | batting average 35 iff "Batter" occurs in the raw role text (else 15), strike rate 130 exactly alongside it (else 100), bowling average 20 iff "Bowler" occurs (else 30) |
| Players.ProcessRow | dream11play.py:23-34 | name and team are copied, the three flags are true iff the cell is "Yes"; role, credits and figures are those the role text classifies to, prices at and derives (so a BAT player has the batter figures, a BOWL player the bowler figures, AR and UNK the defaults); credits are at least 7.5 and 9.0 for an all-rounder |
| Players.ProcessData | dream11play.py:20-36 | one record per row, in row order |
| Players.CalculateScores | dream11play.py:74-90 | every field but the scores is kept; the score is 1.3 x batting component for BAT, 1.4 x bowling component for BOWL, 0.7 x both for the rest; base score equals score |
| Players.ScoreMonotone | dream11play.py:78-87 | better figures (higher batting average and strike rate, lower bowling average) never lower a score, whatever the role |
| Players.MockScores | dream11play.py:74-90 | with the mock figures a BAT scores 73.45, a BOWL 4.2, an AR or UNK 24.15, a WK one of 24.15, 28.35, 37.45, 41.65; every score is positive |
| Players.ProcessedCreditsPositive | dream11play.py:34 | every scored sheet player costs at least 7.5 credits |
| Pitch.PitchFactor | dream11play.py:58-69 | the multiplier lies in [0.7, 1.3]; a "batting" pitch gives BAT 1.2, AR 1.1, BOWL 0.8; a "bowling" pitch gives BOWL 1.3, AR 1.1, BAT 0.7; it is 1 for WK and UNK and for any pitch other than "batting" and "bowling" |
| Pitch.PitchFavoursSpecialists | dream11play.py:58-62 | a batting pitch scales batters up most, all-rounders up less and bowlers down; a bowling pitch the other way round |
| Pitch.ApplyPitchEffects | dream11play.py:56-69 | same length; only the score changes, and it is multiplied by the role's factor; a neutral or unknown pitch changes nothing; WK and UNK players never change |
| Pitch.PitchPreservesRanking | dream11play.py:64-69 | within one role the adjustment keeps the order of two scores and the sign of each |
| Seqs.Combos | dream11play.py:100 | every combination has exactly k elements, and there are none when the pool has fewer than k |
| Seqs.CombosSound | dream11play.py:100 | every combination is a subsequence of the pool |
| Seqs.CombosComplete | dream11play.py:100 | every k-element subsequence of the pool is among the combinations |
| Seqs.CombosCount | dream11play.py:100 | there are exactly n! / (k! (n - k)!) combinations of n elements, one per choice of positions, repeated elements or not |
| Seqs.CombosDistinct | dream11play.py:100 | a pool without repeated elements yields no combination twice |
| Seqs.BinomialFactorial | dream11play.py:100 | the Pascal-rule count equals n! / (k! (n - k)!) |
| Seqs.TopK | dream11play.py:130 | the result has min(k, n) elements drawn from the input, in non-increasing key order; every element left out scores no more than the last one kept; a result shorter than k holds the whole input |
| Seqs.TopKCopies | dream11play.py:130 | counted copy by copy: an element the input holds more often than the result scores no more than the last one kept |
| Optimizer.FirstMax | dream11play.py:117 | the position of the first highest score other than the skipped one: what a stable descending sort puts first |
| Optimizer.MakeTeam | dream11play.py:116-127 | captain and vice-captain are two different members, the captain top-scoring and the vice-captain best among the rest; the total is every score plus 1.5 x captain plus 1.25 x vice-captain; no other captain pair gives a higher total |
| Optimizer.BonusPairBound | dream11play.py:118-120 | any two scores earn at most the bonuses of the best and second-best scores |
| Optimizer.Evaluate | dream11play.py:102-127 | a combination raises iff it is within the credit cap and holds an unknown role; it is kept iff it has 11 players, is within the cap, has no unknown role and has balanced roles; a kept team is scored as above |
| Optimizer.Collect | dream11play.py:99-127 | the loop fails, with `KeyError('UNK')`, iff some combination raises; otherwise it keeps exactly the accepted teams, each as many times as it is accepted |
| Optimizer.CollectValidFails | dream11play.py:104-110 | the enumeration raises iff some 11-player subsequence of the pool is affordable and holds an unknown role |
| Optimizer.CollectValidTeams | dream11play.py:99-127 | a successful enumeration holds exactly the scored teams of the valid 11-player subsequences of the pool |
| Optimizer.CollectCount | dream11play.py:99-127 | a successful loop keeps one team per accepted combination |
| Optimizer.AcceptedAreValid | dream11play.py:102-114 | the combinations accepted are counted exactly by the valid ones |
| Optimizer.OptimizeTeam | dream11play.py:95-130 | at most three teams, in non-increasing total order |
| Optimizer.ShortPoolGivesNoTeams | dream11play.py:99-100 | fewer than 11 players give an empty result |
| Optimizer.FailsIffAffordableUnknown | dream11play.py:104-110 | the run raises iff some affordable 11-player combination of the adjusted players holds an unknown role |
| Optimizer.ReturnedTeamsValid | dream11play.py:99-127 | every returned team is 11 players drawn in order from the adjusted pool, within 100 credits and the role bounds, with the two best scorers as captains and the bonus total |
| Optimizer.ReturnedTeamsBest | dream11play.py:129-130 | no valid team totals more than the last one returned unless it is returned itself; fewer than three teams come back only when every valid team is among them |
| Optimizer.ReturnedCopiesBest | dream11play.py:99-130 | counted copy by copy: a team accepted more often than it is returned totals no more than the last team returned |
| Optimizer.ReturnedTeamsCount | dream11play.py:129-130 | the number of teams returned is min(3, number of valid combinations) |
| Differentials.TeamNames | dream11play.py:138-140 | the set holds exactly the names of the players of the given teams |
| Differentials.Unpicked | dream11play.py:142 | a player is kept iff its name is in no team, and then every occurrence of it is kept (its multiplicity is unchanged); the kept players are a subsequence of the input |
| Differentials.IdentifyDifferentials | dream11play.py:135-145 | at most five input players, none named in any team, in non-increasing score-per-credit order; min(5, candidates) of them; every candidate left out has a ratio no higher than the last one returned |
| Differentials.DifferentialsCopies | dream11play.py:142-145 | counted copy by copy: a candidate the unpicked list holds more often than the result has a ratio no higher than the last one returned |
| Differentials.SheetPlayersHaveValue | dream11play.py:145 | players built from a sheet, scored and pitch-adjusted all cost at least 7.5, so the ratio's division is always defined for them |

## Left out

- `upload_file` and its tkinter dialog, the Excel read, the `__main__` console prompts, printing and the CSV export are I/O. Sheet rows are the model's input, with every cell as text.
- `data_fetcher.py` is a Streamlit form that writes a CSV. It holds no logic of the core and is not part of this model.
- Floating point: scores, factors and totals are exact rationals. IEEE rounding, and the tie orders that rounding could change, are not modelled. Tie handling itself is modelled: the sorts are stable, and the captain is the first highest-scoring player.
- In-place mutation: `apply_pitch_effects` and `calculate_scores` return new sequences. In `__main__` the same list is adjusted by `optimize_team` and then passed to `identify_differentials`. That chaining is left to the caller of the model, which passes the adjusted players explicitly.
- Differentials.IdentifyDifferentials: requires nonzero credits for every candidate, where the source raises `ZeroDivisionError` for a zero-credit candidate. `SheetPlayersHaveValue` shows that credits assigned from the sheet always meet this requirement.
- Optimizer.OptimizeTeam: its own contract gives only the length bound and the order. Validity, optimality, count and the failure condition are stated by the lemmas after it.
- Optimizer.FailsIffAffordableUnknown: states the failure over the pitch-adjusted players. The adjustment leaves credits and roles untouched, so these are the same combinations as the unadjusted players'.
- Default arguments: `apply_pitch_effects` and `optimize_team` default the pitch to "neutral". In the model the pitch is always passed, and callers pass "neutral" for the default.
- The enumeration over the C(n, 11) combinations is defined, not executed. The model says nothing about its running time.
