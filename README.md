# T20 World Cup bracket simulator — a Dafny model

This project models the tournament simulator of a T20 cricket prediction
repository, together with the probability, rating, feature and data-loading code
that feeds it.

`simulate_tournament` runs `n_sims` independent trials of a World Cup bracket.
Each trial has five steps:

1. A round robin in every group: 2 points per win, plus a zero-sum net-run-rate
   (NRR) proxy.
2. A stable ranking by `(points, nrr)`.
3. The top two of each group are counted as Super 8 qualifiers.
4. Slot strings (`"A1"`, `"S1_1"`) are resolved into teams, and a second round
   robin is played per Super 8 group.
5. Two semifinals and a final are played.

Per-team counters become percentages, sorted by title percentage.

The match probabilities come from a precomputed cache of ordered pairs. Each
entry blends an Elo probability with a learned-model probability, then is
clamped. The Elo tables, live match-day features, offline training features and
the match table built from Cricsheet JSON files are modelled too.

## Layout

| file | module | what it models |
|---|---|---|
| `errors.dfy` | `Errors` | Python exception kinds, `Result` and `Option` |
| `reals.dfy` | `Reals` | small facts about real products and quotients |
| `seqs.dfy` | `Seqs` | duplicate-free sequences, dict key order, sums over a key list |
| `team_order.dfy` | `TeamOrder` | Python string order and `sorted(set(...))` |
| `ranking.dfy` | `Ranking` | the stable descending sort of `sorted(..., reverse=True)` |
| `round_robin.dfy` | `RoundRobin` | `margin_bonus`, `fixtures_round_robin`, `simulate_match_cached`, `rank_table`, `rank_by_points`, one round robin |
| `slots.dfy` | `Slots` | `resolve_group_slot`, `resolve_super8_slot`, Python `int()`, `split`, negative indexing |
| `bracket.dfy` | `Bracket` | one trial: group stage, qualifiers, Super 8 stage, knockouts |
| `simulate.dfy` | `Simulate` | the counters, the trial sequence, the result rows |
| `tournament.dfy` | `Tournament` | the imperative loops of `simulate_tournament`, each proved equal to its function |
| `prob_cache.dfy` | `ProbCache` | `ml_weight`, `clamp_prob`, the blend, `build_prob_cache` |
| `history.dfy` | `History` | match records, dates, `DateOffset(years=3)`, pandas filters, `tail`, date sort, `strip` |
| `live_features.dfy` | `LiveFeatures` | `team_form`, `head_to_head`, `build_live_features` |
| `live_elo.dfy` | `LiveElo` | `elo_as_of` with `get_rating`, the associate cap and the `_ELO_CACHE` memo |
| `elo.dfy` | `Elo` | `build_elo_table` |
| `features.dfy` | `Features` | `build_features` |
| `matches_table.dfy` | `MatchesTable` | `safe_get`, `parse_match`, `main` of `make_matches_table` |

Randomness is an explicit stream of draws, `draws: nat -> real`, plus a cursor.
Every call to `random.random()` consumes one draw. So does every call to
`random.uniform(lo, hi)`, computed as `lo + (hi - lo) * u` as CPython does.
Nothing in the model assumes `p(a, b) == 1 - p(b, a)`. The loser-side margin
uses `1 - p_a`, as line 112 of `src/simulate.py` does.

Given a configuration that has its `groups`, `super8.groups` and
`knockout.semi_finals` entries, every exception the code can raise is an `Err`
of a `Result`. A missing cache pair, a missing group name, a bad slot digit, a
rank out of range, a semifinal with fewer than two slots and a division by zero
`n_sims` are all error results, not preconditions.

## Model

| member | source | states |
|---|---|---|
| `RoundRobin.Strength` | src/simulate.py:13 | the mismatch strength is non-negative, at most 1 for a probability in [0,1], and 0 exactly for a coin flip |
| `RoundRobin.Noise` | src/simulate.py:16 | `random.uniform(-0.03, 0.03)` from a draw in [0,1) lies in [-0.03, 0.03) |
| `RoundRobin.MarginBonus` | src/simulate.py:8-17 | the margin is always at least 0.02, and lies in [0.05, 0.36] for a probability in [0,1] and a draw in [0,1) |
| `RoundRobin.FixturesCount` | src/simulate.py:26-27 | k teams give exactly k(k-1)/2 fixtures |
| `RoundRobin.FixturesSound` | src/simulate.py:26-27 | every fixture is `(teams[i], teams[j])` with i < j |
| `RoundRobin.FixturesComplete` | src/simulate.py:26-27 | every `(teams[i], teams[j])` with i < j is a fixture |
| `RoundRobin.FixturesOnce` | src/simulate.py:26-27 | for distinct teams no fixture repeats, and none appears in both orientations |
| `RoundRobin.SimulateMatchCached` | src/simulate.py:30-32 | KeyError exactly when the ordered pair is missing; otherwise a wins iff the draw is below `cache[(a, b)]` (or a plays itself), and the winner is a or b |
| `RoundRobin.CertainWin` | src/simulate.py:30-32 | with p = 1.0 and a draw in [0,1), a always wins |
| `RoundRobin.CertainLoss` | src/simulate.py:30-32 | with p = 0.0, b always wins |
| `RoundRobin.ReverseEntryUnused` | src/simulate.py:31 | the entry for (b, a) is never consulted when a plays b |
| `RoundRobin.StartRound` | src/simulate.py:98-99 | every team starts on 0 points and 0.0 nrr |
| `RoundRobin.PlayMatch` | src/simulate.py:101-114 | one fixture fails exactly on a missing pair, keeps the table's teams and consumes two draws |
| `RoundRobin.PlayMatchEffect` | src/simulate.py:101-114 | on a cached pair the winner gains 2 points and the margin `m` (from `p_a` if `a` won, `1 - p_a` otherwise), the loser loses `m`, and every other team is unchanged |
| `RoundRobin.PlayFixtures` | src/simulate.py:101-114 | the fixture loop succeeds iff every fixture is cached, and consumes two draws per fixture |
| `RoundRobin.MatchConserves` | src/simulate.py:104-114 | a match adds exactly 2 to the points total and leaves the nrr total unchanged |
| `RoundRobin.MarginMoves` | src/simulate.py:107-114 | adding m to the winner and subtracting m from the loser keeps the nrr sum |
| `RoundRobin.FixturesConserve` | src/simulate.py:101-114 | over a fixture list, points grow by 2 per fixture and the nrr sum is unchanged |
| `RoundRobin.RoundRobinConserves` | src/simulate.py:98-116 | after a round robin the points total is 2 × fixtures (k(k-1) for k distinct teams) and the nrr values sum to 0 |
| `RoundRobin.RankTable` | src/simulate.py:20-23 | the ranking is a permutation of the table's teams |
| `RoundRobin.RankTableOrdered` | src/simulate.py:20-23 | the ranking is non-increasing in (points, nrr), compared lexicographically |
| `RoundRobin.RankTableStable` | src/simulate.py:20-23 | teams tied on both points and nrr keep their group insertion order |
| `RoundRobin.RankByPoints` | src/simulate.py:35-37 | the ranking by points alone is a permutation of the teams |
| `RoundRobin.RankByPointsOrdered` | src/simulate.py:35-37 | the ranking by points alone is non-increasing in points |
| `RoundRobin.PlayGroup` | src/simulate.py:97-116 | a group succeeds iff every fixture pair is cached; the standings are a permutation of the group's distinct teams; the draw cursor advances by 2 per fixture |
| `RoundRobin.PlayOne` | src/simulate.py:101-114 | one pass of the fixture loop updates the dicts as `PlayMatch` does |
| `RoundRobin.PlayRoundRobin` | src/simulate.py:97-116 | the loop over fixtures followed by `rank_table` computes `PlayGroup` |
| `Ranking.SortDesc` | src/simulate.py:20-23 | `sorted(..., reverse=True)` returns a permutation of its input |
| `Ranking.SortDescSorted` | src/simulate.py:20-23 | the sorted list is non-increasing in the key |
| `Ranking.SortDescStable` | src/simulate.py:20-23 | equal keys keep their input order under `reverse=True` |
| `Ranking.SortDescMap` | src/simulate.py:187-197 | building rows and then sorting them by key equals sorting the teams and then building their rows |
| `TeamOrder.SortedSetAscending` | src/simulate.py:45 | `sorted({...})` is strictly ascending in Python string order |
| `TeamOrder.AscendingDistinct` | src/simulate.py:45 | a strictly ascending list has no duplicates |
| `TeamOrder.LessTotal` | src/simulate.py:45 | Python string order is total |
| `Slots.ParseOneChar` | src/simulate.py:129 | `int(c)` of one character succeeds exactly for a decimal digit, with that digit's value |
| `Slots.ParseDecimal` | src/simulate.py:162 | `int(str(n)) == n` |
| `Slots.PyIndex` | src/simulate.py:130 | Python list indexing succeeds exactly for -len ≤ i < len, gives `s[i]` for a non-negative index, and always yields an element of the list |
| `Slots.SplitUnderscore` | src/simulate.py:161 | `a, b = s.split("_")` succeeds exactly when s has one underscore, and `a + "_" + b == s` |
| `Slots.ResolveGroupSlot` | src/simulate.py:127-130 | a resolved group slot names an existing group, and the team is in that group's table |
| `Slots.ResolveSuper8Slot` | src/simulate.py:160-163 | a resolved Super 8 slot names an existing Super 8 group, and the team is in its table |
| `Slots.GroupSlotReadsTwoChars` | src/simulate.py:128-129 | only the first two characters of a group slot are read |
| `Slots.GroupSlotResolves` | src/simulate.py:127-130 | `"A1"` resolves to `group_positions["A"][0]`, and rank d to index d-1 |
| `Slots.GroupSlotZeroIsLast` | src/simulate.py:129-130 | rank `'0'` is index -1, the last team of the group |
| `Slots.Super8SlotResolves` | src/simulate.py:160-163 | `"S1_1"` resolves to `super8_positions["S1"][0]`, and rank n to index n-1 |
| `Bracket.GroupTeams` | src/simulate.py:45 | the listed teams are exactly the members of some group |
| `Bracket.GroupStage` | src/simulate.py:95-116 | every configured group gets a table, and the draw cursor never moves back |
| `Bracket.GroupStageTables` | src/simulate.py:95-116 | with distinct group names, group k's table is the ranked round robin (`PlayGroup`) of its teams at some later cursor and holds each of its teams once; no other name gets a table |
| `Bracket.GroupStageWithin` | src/simulate.py:95-116 | the group tables hold only teams listed in the groups |
| `Bracket.Qualifiers` | src/simulate.py:119-121 | the qualifiers are at most two per group, each taken from the top two of its group's table, and every team in a top two is a qualifier |
| `Bracket.QualifiersInOrder` | src/simulate.py:119-121 | with at least two teams per group, there are exactly two qualifiers per group: first then second of each group, in group order |
| `Bracket.ResolveAll` | src/simulate.py:138 | the list comprehension succeeds iff every slot resolves, and element k is slot k's team |
| `Bracket.Super8Stage` | src/simulate.py:135-157 | every Super 8 group gets a table, and the draw cursor never moves back |
| `Bracket.Super8StageTables` | src/simulate.py:135-157 | with distinct Super 8 names, group k's slots all resolve, and its table is the ranked round robin (`Super8Group`) of the resolved teams at some later cursor, holding each once; no other name gets a table |
| `Bracket.Super8StageWithin` | src/simulate.py:135-157 | the Super 8 tables hold only teams from the group tables |
| `Bracket.Super8GroupWithin` | src/simulate.py:138-157 | a Super 8 table lists only teams from the group tables |
| `Bracket.SemiPairsResults` | src/simulate.py:168-171 | one pair per semifinal, and pair k is resolved from semifinal k |
| `Bracket.SemiPairResolves` | src/simulate.py:170-171 | a semifinal resolves iff it has two slots and both resolve; an empty one is an IndexError |
| `Bracket.PlaySemisResults` | src/simulate.py:173-177 | the semifinals succeed iff every pair is cached, and winner k is pair k's winner on draw pos+k |
| `Bracket.PlayFinal` | src/simulate.py:183 | the final fails only on a missing pair, and its winner is one of the two finalists |
| `Bracket.Final` | src/simulate.py:179-184 | the final is played iff there are at least two semifinal winners and their pair is cached; the finalists are the first two winners, and one draw is used |
| `Bracket.Knockout` | src/simulate.py:168-184 | the knockout consumes at least one draw |
| `Bracket.KnockoutPodium` | src/simulate.py:168-184 | there are as many pairs as semifinals (at least two); the champion is a finalist; the first finalist comes from the first pair and the second from the second |
| `Bracket.KnockoutWithin` | src/simulate.py:168-184 | all semifinalists, finalists and the champion come from the teams of the tables the slots are resolved against |
| `Bracket.QualifiersWithin` | src/simulate.py:119-121 | qualifiers come from the group tables |
| `Bracket.SemiPairsWithin` | src/simulate.py:168-171 | semifinal pairs come from the Super 8 tables |
| `Bracket.Trial` | src/simulate.py:91-184 | a successful trial consumes at least one draw; its qualifiers are given by `TrialQualifiers` |
| `Bracket.TrialGroupStage` | src/simulate.py:116-121 | a successful trial's qualifiers are `ordered[:2]` of every table of its group stage, in group order |
| `Bracket.TrialQualifiers` | src/simulate.py:91-124 | with distinct group names and at least two teams per group, the qualifiers are first then second of each group's table, in dict order, and each table holds exactly its group's teams |
| `Bracket.QualifiersOfTables` | src/simulate.py:119-121 | tables holding each group's teams (two or more) give exactly two qualifiers per group, its first and second |
| `Bracket.TrialWithinGroups` | src/simulate.py:91-184 | every team a trial counts was listed in some group |
| `Bracket.PlayableIffDistinct` | src/simulate.py:142-143 | with a cache holding exactly the ordered pairs of distinct teams, a round robin fails iff a team is listed twice (the self-pair KeyError) |
| `Bracket.Semifinalists` | src/simulate.py:174-176 | two semifinal places per pair |
| `Simulate.AllTeams` | src/simulate.py:45 | `all_teams` holds exactly the teams listed in the groups |
| `Simulate.AllTeamsSorted` | src/simulate.py:45 | `all_teams` is alphabetical and free of duplicates |
| `Simulate.Bump` | src/simulate.py:123-124 | incrementing counters never adds or removes a team |
| `Simulate.BumpCount` | src/simulate.py:123-124 | each team's counter grows by the number of times it occurs |
| `Simulate.BumpSum` | src/simulate.py:123-124 | the counter total grows by the number of increments |
| `Simulate.BumpAppend` | src/simulate.py:123-124 | one more increment at the end is one more `+= 1` |
| `Simulate.BumpConcat` | src/simulate.py:173-181 | incrementing for xs and then ys is incrementing for xs + ys |
| `Simulate.ZeroCounts` | src/simulate.py:48-54 | all four counters start at 0 for every team |
| `Simulate.Record` | src/simulate.py:173-184 | recording a trial keeps every team's counters |
| `Simulate.RecordTotals` | src/simulate.py:173-184 | per trial: +1 title, +2 finals, +2 per semifinal, +1 per qualifier in total |
| `Simulate.RecordMonotone` | src/simulate.py:173-184 | per team and trial: title increment ≤ final increment ≤ semifinal increment |
| `Simulate.PodiumCounts` | src/simulate.py:173-184 | a champion among the finalists and finalists from the first two pairs give ordered occurrence counts |
| `Simulate.TrialCounted` | src/simulate.py:91-184 | a successful trial counts only teams of `all_teams` |
| `Simulate.TrialCountable` | src/simulate.py:91-184 | a successful trial's outcome satisfies everything the counters need |
| `Simulate.Trials` | src/simulate.py:91-184 | k successful trials give k outcomes, all countable |
| `Simulate.RecordAll` | src/simulate.py:91-184 | recording any number of trials keeps every team's counters |
| `Simulate.RecordAllTitles` | src/simulate.py:183-184 | over n trials the title total grows by n |
| `Simulate.RecordAllFinals` | src/simulate.py:179-181 | over n trials the final total grows by 2n |
| `Simulate.RecordAllSemis` | src/simulate.py:173-176 | over n trials the semifinal total grows by 2 × (number of semifinals) × n |
| `Simulate.RecordAllOrdered` | src/simulate.py:173-184 | title ≤ final ≤ semifinal per team survives any number of trials |
| `Simulate.KnockoutPodiumOf` | src/simulate.py:168-184 | a trial's knockout has the podium shape |
| `Simulate.Results` | src/simulate.py:186-197 | ZeroDivisionError exactly when there are teams and `n_sims == 0`; otherwise one row per team |
| `Simulate.RowsOf` | src/simulate.py:187-195 | row i holds team i's counts as percentages |
| `Simulate.RowsOfAppend` | src/simulate.py:188-195 | one more team adds one row at the end |
| `Simulate.SortRowsIsResults` | src/simulate.py:187-197 | sorting the rows built in `all_teams` order gives `Results` |
| `Simulate.ResultsBounds` | src/simulate.py:186-197 | with counters that are never negative and titles at most n_sims, title % is in [0, 100] and the other three percentages are at least 0 |
| `Simulate.ResultsShape` | src/simulate.py:186-197 | each team has exactly one row, holding its count / n_sims × 100, and rows are non-increasing in title % |
| `Simulate.RowsOfShape` | src/simulate.py:187-195 | rows built from a team list carry that list in order |
| `Simulate.RowsOfSorted` | src/simulate.py:197 | rows built from a list sorted by title % are sorted by it |
| `Simulate.ResultsTies` | src/simulate.py:187-197 | rows with equal title % keep `all_teams` order, which is alphabetical |
| `Simulate.WithKeyAscending` | src/simulate.py:197 | the teams tied on a key, taken from an alphabetical list, stay alphabetical |
| `Simulate.TotalWinPctOf` | src/simulate.py:191 | the title percentages add up to the title total over n_sims × 100 |
| `Simulate.SumIntSortDesc` | src/simulate.py:197 | sorting does not change a counter total |
| `Simulate.WinPctTotal` | src/simulate.py:187-197 | with one title per trial, the title percentages add up to exactly 100 |
| `Simulate.RunFrom` | src/simulate.py:91-184 | the counters after k trials exist exactly when the k trials succeed |
| `Simulate.RunFromZero` | src/simulate.py:91-184 | from zero counters, k trials leave k titles, 2k finals and 2k places per semifinal, ordered per team, no counter negative and no team above k titles |
| `Simulate.Simulation` | src/simulate.py:40-197 | a successful run has one row per team of `all_teams` |
| `Simulate.ResultsProperties` | src/simulate.py:186-197 | ordered counters give rows with title % ≤ final % ≤ semifinal % and titles summing to 100 |
| `Simulate.SimulationProperties` | src/simulate.py:40-197 | for n_sims ≥ 1: one row per team, sorted by title %, title % ≤ final % ≤ semifinal % per row, title % totalling 100, title % in [0, 100] and every other percentage at least 0 |
| `Simulate.PctMonotone` | src/simulate.py:191-193 | a count no larger gives a percentage no larger |
| `Tournament.RunGroupStage` | src/simulate.py:95-116 | the group loop filling `group_positions` computes `GroupStage` |
| `Tournament.CollectQualifiers` | src/simulate.py:119-121 | the `extend` loop computes `Qualifiers` |
| `Tournament.BumpEach` | src/simulate.py:123-124 | the increment loop computes `Bump` |
| `Tournament.RunSuper8Stage` | src/simulate.py:135-157 | the Super 8 loop computes `Super8Stage` |
| `Tournament.PlaySuper8Group` | src/simulate.py:138-157 | one Super 8 group resolved and played computes `Super8Group` |
| `Tournament.ResolvePair` | src/simulate.py:170-171 | one semifinal pair computes `SemiPair` |
| `Tournament.ResolveSemiPairs` | src/simulate.py:168-171 | the `sf_pairs` loop computes `SemiPairs` |
| `Tournament.CountSemifinalists` | src/simulate.py:173-176 | the semifinal increments give `Bump` over the flattened semifinalists |
| `Tournament.PlaySemifinals` | src/simulate.py:173-177 | the `sf_winners` loop computes `PlaySemis` |
| `Tournament.CountPair` | src/simulate.py:180-181 | two increments give `Bump` over the pair |
| `Tournament.CountOne` | src/simulate.py:184 | one increment gives `Bump` over one team |
| `Tournament.PlayKnockout` | src/simulate.py:165-184 | the knockout statements compute `Knockout` |
| `Tournament.RecordTrial` | src/simulate.py:123-184 | one trial's increments compute `Record` |
| `Tournament.TrialStep` | src/simulate.py:91-184 | one trial fails exactly when `Trial` does, keeps the counters and advances the draws |
| `Tournament.RunTrial` | src/simulate.py:91-184 | the body of the trial loop computes `TrialStep` |
| `Tournament.RunTrials` | src/simulate.py:91-184 | the `n_sims` loop computes `RunFrom` from draw 0 |
| `Tournament.BuildResults` | src/simulate.py:186-197 | the `results` loop and in-place sort compute `Results` |
| `Tournament.SimulateTournament` | src/simulate.py:40-197 | the whole function computes `Simulation` on the cache `build_prob_cache` builds |
| `ProbCache.MlWeight` | src/prob_cache.py:32-42 | 0 for n ≤ 10, 1 for n ≥ 50, (n − 10)/40 in between, always in [0,1] |
| `ProbCache.MlWeightMonotone` | src/prob_cache.py:32-42 | the weight is non-decreasing in the match count |
| `ProbCache.ClampProb` | src/prob_cache.py:45-46 | the result lies in [0.05, 0.95], is the identity on that interval and hits the nearer bound outside it |
| `ProbCache.ClampIdempotent` | src/prob_cache.py:45-46 | clamping twice is clamping once |
| `ProbCache.Blend` | src/prob_cache.py:77 | weight 0 gives p_elo and weight 1 gives p_ml |
| `ProbCache.BlendBetween` | src/prob_cache.py:77 | for a weight in [0,1] the blend lies between p_elo and p_ml |
| `ProbCache.PairWeight` | src/prob_cache.py:75 | the pair weight lies in [0,1] |
| `ProbCache.PairWeightSymmetric` | src/prob_cache.py:75 | w(a, b) = w(b, a), since it uses the minimum of the played counts |
| `ProbCache.Entry` | src/prob_cache.py:73-78 | every stored value lies in [0.05, 0.95] |
| `ProbCache.CacheKeys` | src/prob_cache.py:65-78 | for distinct teams the keys are exactly the ordered pairs (a, b) with a ≠ b, and every value is in [0.05, 0.95] |
| `ProbCache.CacheSpec` | src/prob_cache.py:65-78 | the cache holds exactly the `permutations(teams, 2)` pairs, each with its clamped blend |
| `ProbCache.BuildProbCache` | src/prob_cache.py:49-80 | the `permutations` loop fills exactly the ordered pairs at distinct positions, each with its clamped blend |
| `History.MinusYears` | src/live_features.py:33 | `DateOffset(years=n)` keeps month and day, moving 29 February to the 28th in a common year |
| `History.MinusYearsBefore` | src/live_features.py:33-35 | the head-to-head window starts strictly before the match day |
| `History.Filter` | src/live_features.py:15-17 | a boolean-mask selection keeps exactly the rows that satisfy the mask |
| `History.Tail` | src/live_features.py:17 | `.tail(n)` has min(n, len) rows, all taken from the input |
| `History.TailIsSuffix` | src/live_features.py:17 | `.tail(n)` is the last rows of the input, in order |
| `History.Before` | src/live_features.py:15 | only matches strictly before the date are kept |
| `History.BeforeIgnoresLater` | src/live_elo.py:52 | matches on or after the date never affect the selection |
| `History.Involving` | src/live_features.py:16-17 | only matches of the team are kept |
| `History.Meetings` | src/live_features.py:34-37 | only meetings of the two teams on or after the cutoff are kept |
| `History.MeetingsSymmetric` | src/live_features.py:36-37 | the same meetings whichever team is named first |
| `History.Wins` | src/live_features.py:26 | the win count is at most the number of matches |
| `History.SortBy` | src/elo.py:16 | a date sort is a permutation of its input |
| `History.SortBySorted` | src/elo.py:16 | the sorted rows are in date order |
| `History.SortBySortedId` | src/features.py:31 | a stable sort leaves rows already in date order unchanged |
| `History.SortByDateSorted` | src/elo.py:16 | matches sorted by date are in date order |
| `History.Strip` | src/live_features.py:53-54 | `strip()` leaves no whitespace at either end |
| `History.StripSlice` | src/live_features.py:53-54 | `strip()` keeps a slice of the input with only whitespace before and after it |
| `History.StripIdempotent` | src/live_features.py:53-54 | stripping twice is stripping once |
| `LiveFeatures.SmoothedFormRange` | src/live_features.py:29 | (wins + 5)/(games + 10) lies in [0.25, 0.75] for at most 10 games |
| `LiveFeatures.TeamFormRange` | src/live_features.py:14-29 | the form is 0.5 with no prior match, and always lies in [0.25, 0.75] |
| `LiveFeatures.TeamFormPastOnly` | src/live_features.py:15 | matches on or after the day do not change the form |
| `LiveFeatures.HeadToHeadRange` | src/live_features.py:32-49 | 0.5 with no meeting in the 3-year window; always strictly inside (0,1) |
| `LiveFeatures.HeadToHeadComplement` | src/live_features.py:32-49 | when every meeting was won by one of the two, the two head-to-head rates add up to 1 |
| `LiveFeatures.ClampElo` | src/live_features.py:64-67 | the clamped rating lies in [1450, 1950] and is unchanged inside that band |
| `LiveFeatures.DampBetween` | src/live_features.py:82-83 | a damping factor in [0,1] leaves the form between 0.5 and its old value |
| `LiveFeatures.GapFactor` | src/live_features.py:80-81 | past a 250-point gap the factor is strictly between 0 and 1 |
| `LiveFeatures.LinearFactor` | src/live_features.py:90-94 | the linear factor lies in [0,1] past a 75-point gap, and is 0 from 200 points |
| `LiveFeatures.DampFormRange` | src/live_features.py:75-97 | damping keeps a form between 0.5 and its undamped value; a gap of 200 or more makes it 0.5 |
| `LiveFeatures.LiveEloProperties` | src/live_features.py:60-73 | both Elos lie in [1450, 1950], a missing Elo is 1500, and elo_diff × 600 = elo_a − elo_b |
| `LiveFeatures.LiveFormProperties` | src/live_features.py:75-101 | each output form lies between 0.5 and the undamped form; when the gap is 200 or more, both forms are 0.5 and form_diff is 0 |
| `LiveFeatures.LiveSwap` | src/live_features.py:52-111 | swapping the teams swaps their forms and Elos, and negates form_diff and elo_diff |
| `LiveElo.Initial` | src/live_elo.py:47-50 | a first-seen rating is at most the associate cap |
| `LiveElo.Seen` | src/live_elo.py:47-50 | `get_rating` adds the team and changes no existing rating |
| `LiveElo.LookedInitial` | src/live_elo.py:47-60 | a first-seen team enters at 1550 (full member) or 1450 (otherwise); a seen team keeps its rating |
| `LiveElo.UpdateFrame` | src/live_elo.py:54-75 | a match adds its two teams and changes no other rating |
| `LiveElo.UpdateCapped` | src/live_elo.py:74-75 | one update keeps every associate at or below 1550 |
| `LiveElo.FoldCapped` | src/live_elo.py:54-75 | every non-full-member rating stays at or below 1550 after any sequence of matches |
| `LiveElo.UpdateDirection` | src/live_elo.py:59-75 | given an expected score strictly between 0 and 1, the winner's rating never decreases and the loser's never increases |
| `LiveElo.UpdateConservesFull` | src/live_elo.py:68-75 | two full members' rating total is conserved |
| `LiveElo.EloTablePastOnly` | src/live_elo.py:52 | matches on or after `as_of` do not affect the table |
| `LiveElo.GetRating` | src/live_elo.py:47-50 | `get_rating` inserts the initial rating for an unseen team and returns the team's rating |
| `LiveElo.PlayMatch` | src/live_elo.py:55-75 | one pass of the loop computes `Update` |
| `LiveElo.RunElo` | src/live_elo.py:54-75 | the loop computes the fold over the past matches |
| `LiveElo.CleanAll` | src/live_elo.py:34-35 | as many records, in order, each with its match id and date unchanged and its three names stripped |
| `LiveElo.CleanAllIdempotent` | src/live_elo.py:34-35 | cleaning cleaned records changes nothing |
| `LiveElo.LoadedSorted` | src/live_elo.py:30-35 | the loaded matches are in date order |
| `LiveElo.EloMemo.constructor` | src/live_elo.py:30-37 | the module state starts with the sorted, cleaned matches and an empty memo |
| `LiveElo.EloMemo.EloAsOf` | src/live_elo.py:40-78 | returns the fold over matches strictly before the day; a repeated day returns the memoised table and leaves the memo unchanged |
| `Elo.RowsPointwise` | src/elo.py:21-40 | row i belongs to match i, records both ratings before the update (1500 if unseen) and elo_diff = ra − rb |
| `Elo.Rows` | src/elo.py:21-40 | one row per match |
| `Elo.EloTableOrder` | src/elo.py:14-45 | one output row per input match, in date order |
| `Elo.TotalEmpty` | src/elo.py:18 | an empty table rates every team at 1500, so it totals 1500 per team |
| `Elo.UpdateConserves` | src/elo.py:42-43 | a match between two different teams keeps the rating total |
| `Elo.RatingsZeroSum` | src/elo.py:18-43 | the ratings of all teams seen total 1500 × their number |
| `Elo.UpdateDirection` | src/elo.py:26-43 | given an expected score strictly between 0 and 1, the winner gains rating and the loser loses it |
| `Elo.PlayMatch` | src/elo.py:21-43 | one pass records the pre-update row and applies `Update` |
| `Elo.BuildEloTable` | src/elo.py:14-45 | the loop computes the rows of the date-sorted matches |
| `Features.JoinOne` | src/features.py:20 | a left join gives each match at least one row, all for that match |
| `Features.Join` | src/features.py:20 | the join has at least as many rows as matches, each belonging to an input match |
| `Features.JoinUnique` | src/features.py:20 | with at most one Elo line per match, row i is match i |
| `Features.JoinSorted` | src/features.py:15-20 | joining date-ordered matches keeps date order |
| `Features.RateRange` | src/features.py:49 | wins / games lies in [0,1] |
| `Features.TeamFormRange` | src/features.py:43-49 | the form is 0.5 with no prior match, and always lies in [0,1] |
| `Features.HeadToHeadRange` | src/features.py:51-59 | the head-to-head rate is 0.5 with no meeting in the 3-year window, and always lies in [0,1] |
| `Features.FeatureOfProperties` | src/features.py:34-86 | forms and h2h in [0,1]; Elo falls back to 1500 and elo_diff to elo_a − elo_b; form_diff = a − b; team_a_won is 1 iff team A won |
| `Features.Prepared` | src/features.py:13-31 | every prepared row has a valid date |
| `Features.PreparedIsJoin` | src/features.py:13-31 | the second sort changes nothing; the rows are in date order, at least one per match and exactly one when Elo lines are unique |
| `Features.FeatureTableShape` | src/features.py:12-88 | one feature row per joined row, in date order, each built from its row |
| `Features.FeatureRowOf` | src/features.py:34-86 | one pass of the loop computes `FeatureOf` |
| `Features.FeatureRows` | src/features.py:33-86 | the append loop gives row k from prepared row k |
| `Features.BuildFeatures` | src/features.py:12-88 | `build_features` computes the feature table |
| `MatchesTable.LookupAppend` | src/make_matches_table.py:12-18 | a key path is followed one key at a time |
| `MatchesTable.LookupCases` | src/make_matches_table.py:12-18 | an empty path gives d; a missing key or a non-dict gives nothing; otherwise the lookup descends |
| `MatchesTable.SafeGet` | src/make_matches_table.py:12-18 | `safe_get` returns the nested value, or the default as soon as the path breaks |
| `MatchesTable.LastIndex` | src/make_matches_table.py:46 | the index of the last occurrence of a character, or -1 |
| `MatchesTable.Basename` | src/make_matches_table.py:46 | `basename` is the suffix after the last `/` and contains no `/` |
| `MatchesTable.BasenameAfter` | src/make_matches_table.py:46 | the base name is exactly what follows the last `/` |
| `MatchesTable.StripExtShape` | src/make_matches_table.py:46 | with no dot the name is kept; with its last dot at k, the name is cut at k when something other than a dot precedes it, and kept otherwise |
| `MatchesTable.MatchIdShape` | src/make_matches_table.py:46 | the match id is the path's last `/`-free suffix, cut at its last dot exactly as `StripExtShape` states |
| `MatchesTable.MatchIdExample` | src/make_matches_table.py:46 | `d/7.json` has match id `7` |
| `MatchesTable.ParseMatchErrors` | src/make_matches_table.py:25-43 | AttributeError when the top level or `info` is not an object, and, for a two-team file, when `outcome` or `toss` is not one |
| `MatchesTable.ParseMatchShape` | src/make_matches_table.py:21-58 | a file without exactly two teams gives None whatever its `outcome` and `toss`; a two-team file with object (or absent) `outcome` and `toss` gives the teams in order, the id from the path, the first date or None, the outcome, venue, city and toss fields, and by_runs/by_wickets via `outcome.by` |
| `MatchesTable.KeptPlusSkipped` | src/make_matches_table.py:66-77 | rows kept plus files skipped equals the number of paths |
| `MatchesTable.KeptParsed` | src/make_matches_table.py:66-77 | every kept row comes from a file that loaded and parsed |
| `MatchesTable.DatedMembers` | src/make_matches_table.py:85-86 | exactly the rows with a readable date are kept, with that date |
| `MatchesTable.MatchesTableProperties` | src/make_matches_table.py:61-87 | the written rows are exactly the kept rows with a winner and a readable date, and kept + skipped = files |
| `MatchesTable.MatchesTableErrors` | src/make_matches_table.py:62-82 | no files gives SystemExit; no kept row gives the KeyError on `df["winner"]` |
| `MatchesTable.ParseFile` | src/make_matches_table.py:69-77 | one file gives a row, or None when it would not load, raised, or had no two teams |
| `MatchesTable.BuildMatchesTable` | src/make_matches_table.py:61-87 | the loop with its `rows`/`skipped` accounting computes `MatchesTableOf` |

## Left out

- A configuration without `groups` or `super8` (KeyError at `src/simulate.py:41-42`), without `super8.groups` (line 137) or without `knockout.semi_finals` (line 169) is not modelled: `Bracket.Config` always has all three. In the code the last two fail only once a trial runs, so with `n_sims <= 0` such a configuration still returns results.
- Simulate.SimulationProperties: does not bound semi % or super8 % by 100, because the code does not. A semifinal slot such as `S1_-3` is index -4, which on a four-team table names first place again, so `[["S1_1","S2_2"],["S2_1","S1_-3"]]` counts that team twice per trial at `src/simulate.py:175-176`. A team listed in two groups is a qualifier twice and is counted twice at `src/simulate.py:123-124`.
- Simulate.SimulationProperties: does not bound final % by 100 either. A team holds both final places only when it wins both semifinals. The final then looks up the pair of that team with itself (`src/simulate.py:183`). `build_prob_cache` never stores such a pair, so that run ends in a KeyError. The model takes the cache as given and does not exclude such a pair.
- Randomness: the `random` module is an explicit stream of draws. Nothing is said about distributions or the convergence of the percentages.
- The debug block of `simulate_tournament` (`src/simulate.py:62-89`) is not modelled. It prints features for four hard-coded pairs, and it raises a KeyError when one of those teams is missing from the tournament.
- `elo_expected`, `expected` and `predict_proba` (powers of ten and a learned model) are inputs. The Elo and model probabilities of `build_prob_cache` are functions `(Team, Team) -> real`, and the expected-score curves are functions whose values lie in (0,1).
- Floating point is modelled as exact reals. Rounding in percentages, blends and ratings is not captured.
- `matches_played` (`src/prob_cache.py:26-29`) is an input count per team.
- CSV reads and pandas date parsing are not modelled. Matches are records with integer day dates, and time-of-day is not represented. A consequence: `elo_as_of` keys its memo by day but filters by the full timestamp, and the model does not capture that difference.
- pandas `sort_values("date")` is modelled as a stable sort. pandas' default quicksort is not guaranteed stable, so the order of same-day matches may differ.
- The name stripping at `src/live_features.py:10-11` is not applied inside `LiveFeatures`. Its history is taken with names already clean. `LiveElo` does model the same stripping (`CleanAll`).
- `Strip` and `int()` handle ASCII whitespace and ASCII digits only. Python also accepts other Unicode whitespace and decimal digits.
- `make_matches_table`: directory listing, file reading and JSON decoding are not modelled. Each file is given as a decoded value, or as failing to load. `pd.to_datetime` is an input function, and the CSV write and progress prints are not modelled.
- `src/predict.py`, `src/train.py`, `api.py`, `src/download_cricsheet.py`, `src/build_features.py` and `src/build_elo.py` are not part of this model. They are a model wrapper, training, a web layer, a downloader and two CSV-writing scripts.
- The table returned by `elo_as_of` is the memo's own dict, so a caller could mutate it. The model returns a value, so that aliasing is not captured.
- A trial's counters are all incremented after its matches (`Simulate.Record`), where the source interleaves them. The Super 8 increments (`src/simulate.py:123-124`) come before the Super 8 stage, which can raise (lines 137-157). The semifinal increments (lines 175-176) are interleaved with the semifinal matches. The final increments (lines 180-181) come before the final match, which can raise (line 183). The difference shows only when a match or slot raises, and then the whole run fails and every counter is discarded.
- Three behaviours of the code a reader may not expect; the model follows the code. (1) A missing cache pair is a KeyError inside the first trial that needs it, not a check before any trial. (2) A slot rank is a Python index: rank `0` is the last team, and a rank past the table is an IndexError. (3) `semi% ≤ super8%` is not guaranteed. Super 8 slots may name a group's third place, and that team is not counted as a qualifier.
- `LiveElo.UpdateDirection` is stated for matches between two different teams whose table already respects the associate cap. `FoldCapped` proves that every table the fold builds respects it.
- `Elo.UpdateDirection`, `Elo.UpdateConserves` and `Elo.RatingsZeroSum` are stated for matches between two different teams. A team playing itself has its first update overwritten by its second.
