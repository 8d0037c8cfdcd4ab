# Buchholz Swiss-stage simulator: a Dafny model of its engine

The simulator predicts the outcome of a Counter-Strike Major Swiss stage. The stage is played under the Buchholz rules of Valve's Major Supplemental Rulebook, section "Mid-stage seed calculation". The simulator plays the whole stage many times against a table of pairwise win rates. It counts how often each team qualified, went unbeaten or went winless, and whom it met. It reports those counts as rates, sorted.

This project models the engine in Dafny and proves properties of it. The engine exists twice in the repository: `src/simulator.ts`, and `src/worker/simulation-worker.ts`, which is the copy the web workers run. The two copies differ only in line numbers and in spelling the match format as the literals 1 and 3, so they are modelled once; each row below cites the copy it was read from. The model also covers two list transforms of the user interface: the matchup grid and the seed-list editor.

Modules, one per part of the engine:

- `Collections`: stable filtering, mapping, and a stable insertion sort (the JavaScript `Array.prototype.sort` is stable), with their lemmas.
- `OrderedMaps`: a JavaScript `Map` as an insertion-ordered key list plus a map.
- `Standings`: the records the engine passes around.
- `Scheduler`: difficulty scores, record groups, the sort, the six-team priority table, the greedy pairing loop and `calculateMatchups`.
- `Event`: `simulateMatchup`, `extractQualElims` and the round loop of `simulateEvent`.
- `Meetings`: what the teams' histories record over a whole event: each meeting on both sides, once.
- `Aggregation`: `categorizeResults` and the worker's `onMessage` fold.
- `WorkerMerge`: the loop that merges the workers' tables in `simulateEvents`, as written (a team's opponents are replaced by the later table's), and beside it the corrected merge that also adds up the opponents (see Findings).
- `ResultFormat`: `formatResultsCounts` and `getSeedOrder`.
- `MatchupGrid`: `matchupProbabilitiesToGridItems`.
- `TeamListEditor`: the drag-and-drop and name-change handlers of the seed list.

Modelling choices:

- A thrown scheduling error is a `Result` value that propagates to the caller, as the `throw` does. No level of the code catches it.
- `Math.random()` is a parameter: `draw(k)` is the draw of the `k`-th match of an event, and a worker gets one draw function per event.
- Standings are values. Each round's standings are fresh copies, and every team is in at most one matchup, so the in-place updates of `simulateMatchup` cannot be observed from anywhere else.
- Functions that work by loops and in-place updates are methods proved equal to a specification function. These are `matchRecordGroup`, `calculateMatchups`, `simulateEvent`, `categorizeResults` (both as a method and as a class that owns the table), `onMessage`, the merge loop (proved equal to the as-written merge `MergeWorkersAsWritten`, not to the corrected `MergeWorkers`), and the team-list handlers (a class with the component's fields).
- Rates in `formatResultsCounts` are exact ratios `num / den`. The lists are sorted by the numerator, because every rate in one list shares the denominator `iterations`.

Where the specification of the system and the code disagree, the model follows the code:

- The code counts no failed simulations and catches no scheduling error. An error in any event ends the worker's run.
- The code reports no progress.
- `formatResultsCounts` divides by the requested `iterations`, with no deduction for failures.

## Model

| member | source | states |
|---|---|---|
| Scheduler.FirstNamed | src/simulator.ts:125-127 | the first standing with the opponent's name, or none when no standing has it |
| Scheduler.DifficultyAppend | src/simulator.ts:124-131 | the difficulty fold over a history split in two is the sum of the two folds |
| Scheduler.AbsentOpponentAddsNothing | src/simulator.ts:128 | an opponent named by no standing of the list adds 0 to the difficulty |
| Scheduler.PresentOpponentAddsDifferential | src/simulator.ts:125-130 | an opponent found in the list adds the wins − losses of the first standing with its name |
| Scheduler.CalculateDifficulties | src/simulator.ts:122-136 | one entry per team in input order, the standing copied unchanged, difficulty the sum over its past opponents |
| Scheduler.GroupByRecordIsFilter | src/simulator.ts:108-120 | a group exists exactly for each record that occurs, and holds the teams with that record in input order |
| Scheduler.GroupsNonEmpty | src/simulator.ts:113-117 | no record group is empty |
| Scheduler.GroupAt | src/simulator.ts:108-120 | the i-th group is the input filtered by the i-th key, and all its teams share that key |
| Scheduler.GroupKeysFollowFirstOccurrence | src/simulator.ts:111-119 | the group keys of a prefix are a prefix of the group keys, so groups come in order of first appearance |
| Scheduler.SplitIsPartition | src/simulator.ts:108-120 | the concatenated groups are a rearrangement of the input: every team lands in exactly one group |
| Scheduler.RanksAheadIsStrictWeakOrder | src/simulator.ts:138-143 | the comparator of sortRecordGroup is a strict weak order |
| Scheduler.SortRecordGroup | src/simulator.ts:138-143 | a permutation of the group, ordered by difficulty descending, then seed ascending |
| Scheduler.SortedGroupIsUnique | src/simulator.ts:138-143 | with distinct seeds, any rearrangement sorted by the comparator is the sorted group: the order is total |
| Scheduler.TableRowsNamePositionsOnce | src/simulator.ts:197-273 | each of the 15 rows of the six-team table names every position 1 to 6 exactly once |
| Scheduler.TableRowsArePermutations | src/simulator.ts:197-273 | each row's six positions are a permutation of 1..6 |
| Scheduler.RowTeams | src/simulator.ts:284-288 | the teams of a row's matchups are the group's teams at the row's 1-based positions |
| Scheduler.TableRowsArePairings | src/simulator.ts:278-295 | every row pairs each team of a six-team group exactly once |
| Scheduler.FirstCleanRow | src/simulator.ts:281-294 | the first table row none of whose high teams has played its low team, or none when every row has a rematch |
| Scheduler.LastUnplayed | src/simulator.ts:305-314 | the last remaining team the high team has not played; every team after it has been played; none when all have |
| Scheduler.GreedyStep | src/simulator.ts:298-323 | one step pairs the head with the last unplayed team and goes on with the rest, skipped teams in their order |
| Scheduler.PopLowTeam | src/simulator.ts:301-315 | the inner pop/unshift loop returns the last unplayed team and the rest with skipped teams back in order, or fails |
| Scheduler.MatchRecordGroup | src/simulator.ts:275-326 | the shift/pop loops (and the six-team table) compute the pairing function, including its errors |
| Scheduler.GreedyPairsEveryTeam | src/simulator.ts:298-323 | a successful greedy pairing places every team of the group in exactly one matchup |
| Scheduler.GreedyAvoidsRematches | src/simulator.ts:309 | no greedy matchup pairs a high team with a team in its history |
| Scheduler.PairRecordGroupPairsEveryTeam | src/simulator.ts:275-326 | a successful group pairing, six-team or greedy, places every team exactly once |
| Scheduler.PairRecordGroupAvoidsRematches | src/simulator.ts:287-309 | no matchup of a successful group pairing is a rematch |
| Scheduler.OddGroupFails | src/simulator.ts:306-307 | a group of odd size always throws "Missing low seed team" |
| Scheduler.PairedGroupSize | src/simulator.ts:275-326 | a successful pairing has half as many matchups as the group has teams |
| Scheduler.MatchGroupsFirstErrorWins | src/simulator.ts:338-341 | the first group that throws decides the error of the whole round |
| Scheduler.CalculateMatchups | src/simulator.ts:332-343 | the method returns the round's pairing: difficulties, groups, then each group paired and concatenated |
| Scheduler.MatchGroupsPairsEveryTeam | src/simulator.ts:338-341 | the concatenated pairings place every grouped team exactly once |
| Scheduler.MatchGroupsPairWithinGroups | src/simulator.ts:338-341 | every matchup pairs two teams of the same group and is no rematch |
| Scheduler.RoundPairsEveryTeam | src/simulator.ts:332-343 | on success calculateMatchups places every input team in exactly one matchup |
| Scheduler.RoundPairsWithinRecordsWithoutRematches | src/simulator.ts:332-343 | on success every matchup pairs two teams with the same wins − losses that have not met |
| Scheduler.OddFieldFails | src/simulator.ts:332-343 | an odd number of active teams always makes the round throw |
| Scheduler.PairedFieldSize | src/simulator.ts:332-343 | a successful round has half as many matchups as there are teams |
| Event.FindListing | src/simulator.ts:350-354 | the index of the first listing about the two teams in either order, or none when no listing is |
| Event.FindListingSymmetric | src/simulator.ts:350-354 | the lookup finds the same listing whichever team is asked first |
| Event.WinRatesAreComplementary | src/simulator.ts:358-363 | for two different teams the rates used for (a, b) and (b, a) add up to 1, with or without a listing |
| Event.MatchIsZeroSum | src/worker/simulation-worker.ts:257-284 | one side gains a win and the other a loss (team A wins iff draw ≤ rate); each appends one entry naming the other, same format, opposite result; Bo3 iff team A is one win from qualifying or one loss from elimination |
| Event.SimulateMatchupsAt | src/simulator.ts:380-385 | the standings of a round are each matchup's two results in order, match k using draw k |
| Event.ExtractQualElimsIsFilter | src/worker/simulation-worker.ts:294-310 | qualified, eliminated and active are the input filtered by wins ≥ qualWins, else losses ≥ elimLosses, else neither, in input order |
| Event.ExtractQualElimsPartitions | src/worker/simulation-worker.ts:294-310 | the three lists together are a rearrangement of the input |
| Event.InitialStandings | src/worker/simulation-worker.ts:317-323 | team i starts with seed i + 1, no wins, no losses and no history |
| Event.RoundPairingsFromField | src/simulator.ts:332-343 | every matchup of a successful round takes both its teams from the field given to the scheduler |
| Event.RoundPairingsWholeField | src/simulator.ts:332-343 | a successful round puts every standing of the field in exactly one matchup |
| Event.RoundPairingsWithinRecords | src/simulator.ts:337-341 | every matchup of a successful round pairs two teams with the same wins − losses |
| Event.MatchesAdvance | src/worker/simulation-worker.ts:287-292 | matches between teams that have all played r games leave every team with r + 1 games |
| Event.MatchesStepOnce | src/worker/simulation-worker.ts:277-283 | matches between undecided teams leave each team at most at one threshold, never past it |
| Event.NextFieldInvariant | src/worker/simulation-worker.ts:326-333 | after a round the active teams have all played one more game and are all undecided |
| Event.RoundBound | src/worker/simulation-worker.ts:326 | while teams remain active the round number stays below qualWins + elimLosses, so the loop ends |
| Event.PlayEventStep | src/worker/simulation-worker.ts:326-333 | one iteration of the round loop: play the round, append its qualified and eliminated, go on with the active |
| Event.PlayEventFails | src/worker/simulation-worker.ts:327 | a scheduling error in any round ends the event with that error |
| Event.PlayNextRound | src/worker/simulation-worker.ts:327-332 | the loop body advances the event exactly as the round-loop function does |
| Event.PlayRounds | src/worker/simulation-worker.ts:317-338 | the while loop computes the event function from the initial standings |
| Event.SimulateEvent | src/worker/simulation-worker.ts:312-339 | simulateEvent's result is the event outcome, an error included |
| Event.RoundKeepsTeams | src/worker/simulation-worker.ts:327-329 | a round's qualified, eliminated and active teams are, by name, the teams that played |
| Event.EventOutcomeKeepsTeams | src/worker/simulation-worker.ts:312-339 | a finished event has no active team, and qualified ++ eliminated are, by name, a permutation of the seed order |
| Event.RoundDecidesExactly | src/worker/simulation-worker.ts:294-310 | a round played by undecided teams qualifies teams with exactly qualWins wins and fewer than elimLosses losses, and eliminates teams with exactly elimLosses losses and fewer than qualWins wins |
| Event.EventDecidesExactly | src/worker/simulation-worker.ts:326-333 | from an undecided field on, every qualified team has exactly qualWins wins (and fewer than elimLosses losses), every eliminated team exactly elimLosses losses (and fewer than qualWins wins) |
| Event.EventOutcomeDecidesExactly | src/worker/simulation-worker.ts:312-339 | the same for a whole event from the seed order, when both thresholds are positive |
| Event.PairedTeamsShareRecord | src/simulator.ts:332-343 | in a round where all teams have played equally often, paired teams have the same wins and the same losses |
| Event.FormatFromEitherSide | src/simulator.ts:355-357 | checking only team A for Bo3 gives the same format as checking team B |
| Meetings.RoundPairingsAvoidRematches | src/simulator.ts:287-309 | no matchup of a successful round pairs a team with one its history already names |
| Meetings.AfterMatch | src/simulator.ts:368-369 | after the round both teams of a matchup keep their names and each history gains one entry naming the other team |
| Meetings.AppendOpponent | src/simulator.ts:368-369 | a history with one more entry names exactly its old opponents plus the new one, and stays free of repeats when the new one was not in it |
| Meetings.NoRematchAt | src/simulator.ts:309 | when meeting is mutual, the scheduler's check of the high team means neither side of a matchup has met the other |
| Meetings.NamesDifferAt | src/worker/simulation-worker.ts:317-323 | in a list without repeated names, different positions carry different names |
| Meetings.RoundAdvances | src/simulator.ts:380-385 | in a round without rematches every playing team keeps its name, newly meets exactly its partner, whom it had not met, and still never met anyone twice |
| Meetings.SymmetricAt | src/simulator.ts:368-369 | a team lists another after the round exactly when the other lists it |
| Meetings.SameTeams | src/simulator.ts:387-403 | two lists holding the same teams agree on unique names and consistent histories |
| Meetings.RoundKeepsMeetingsConsistent | src/simulator.ts:380-385 | a round that pairs the whole field without rematches keeps names unique and histories consistent: nobody met twice or itself, meeting mutual |
| Meetings.RoundRegroups | src/simulator.ts:387-403 | qualified, eliminated and active after a round hold the decided teams and the round's results, nothing more or less |
| Meetings.NextRoundConsistent | src/worker/simulation-worker.ts:326-333 | one iteration of the round loop keeps the decided teams and the active field uniquely named and consistent |
| Meetings.EventKeepsInvariant | src/worker/simulation-worker.ts:326-333 | a property of the decided teams and the field that every round keeps holds of the teams a finished event decided |
| Meetings.ConsistencyRoundsPreserve | src/simulator.ts:332-343 | every round paired by calculateMatchups keeps names unique and histories consistent |
| Meetings.InitialConsistent | src/worker/simulation-worker.ts:317-323 | the opening field of a seed order without repeated names is uniquely named and nobody has met anybody |
| Meetings.EventOutcomeRecordsMeetings | src/worker/simulation-worker.ts:312-339 | with distinct team names, a finished event's teams met nobody twice and never themselves, and a team lists another exactly when the other lists it |
| Aggregation.TallyHistoryCounts | src/worker/simulation-worker.ts:77-92 | per opponent, total grows by the entries naming it, bo1/bo3 by those in that format, won by those won; an opponent is listed iff listed before or named |
| Aggregation.CountOpponent | src/worker/simulation-worker.ts:78-91 | one history entry adds one meeting to its opponent's counters |
| Aggregation.CountOpponents | src/worker/simulation-worker.ts:77-92 | the forEach over the history computes the tally function |
| Aggregation.RecordTeamStanding | src/worker/simulation-worker.ts:59-76 | the counter updates of one standing compute the record function |
| Aggregation.ResultTable.Categorize | src/worker/simulation-worker.ts:52-97 | the in-place fold leaves the table equal to categorizeResults applied to the old table |
| Aggregation.CategorizeStep | src/worker/simulation-worker.ts:58-95 | one forEach step sets the team's entry to its old entry, or zero counters, updated by its standing |
| Aggregation.CategorizeCounts | src/worker/simulation-worker.ts:66-75 | qualified grows by the standings with wins = qualWins, allWins by those also without loss, allLosses by those without qualifying with losses = elimLosses and no win; wins and losses by the totals |
| Aggregation.CategorizeLeavesOthers | src/worker/simulation-worker.ts:58-95 | a team without standings in the results keeps its entry, and is listed exactly when it was |
| Aggregation.CategorizeTallies | src/worker/simulation-worker.ts:77-92 | every opponent counter of a team grows by the entries of that team's histories |
| Aggregation.CategorizeKeepsConsistent | src/worker/simulation-worker.ts:52-97 | the fold keeps bo1 + bo3 = total, won ≤ total and allWins ≤ qualified for every team |
| Aggregation.CategorizeDecidesOnce | src/worker/simulation-worker.ts:66-72 | qualified + allLosses grow by at most the number of the team's standings |
| Aggregation.EventDecidesOnce | src/worker/simulation-worker.ts:345-352 | with distinct team names one event decides a team at most once |
| Aggregation.OnMessage | src/worker/simulation-worker.ts:341-358 | the for loop computes the fold of categorizeResults over the worker's events, stopping at the first error |
| Aggregation.CategorizeEventsFails | src/worker/simulation-worker.ts:344-346 | the first event that throws ends the worker's run with that error, uncaught |
| Aggregation.CategorizeEventsSucceeds | src/worker/simulation-worker.ts:344-353 | a run in which every event can be scheduled posts a table |
| Aggregation.CategorizeEventsDecideOnce | src/worker/simulation-worker.ts:344-353 | from any point of the loop, each remaining event decides a team at most once |
| Aggregation.WorkerDecidesAtMostOncePerEvent | src/worker/simulation-worker.ts:341-358 | with distinct team names every team's qualified + allLosses is at most iterations |
| Aggregation.WorkerOutcomeConsistent | src/worker/simulation-worker.ts:341-358 | a worker's finished table keeps bo1 + bo3 = total, won ≤ total and allWins ≤ qualified |
| WorkerMerge.MergeOpponentInto | src/simulator.ts:537-549 | one step of the opponents forEach: set the counts, or their sum with the counts already there |
| WorkerMerge.MergeOpponentCounts | src/simulator.ts:536-550 | the forEach fills a new empty map from the later table's opponents |
| WorkerMerge.MergeOpponentsSums | src/simulator.ts:542-547 | every merged opponent counter is the sum of the two inputs' counters |
| WorkerMerge.MergeOpponentsLists | src/simulator.ts:537-550 | an opponent is listed after the merge iff either input lists it |
| WorkerMerge.MergeTeamAsWrittenKeepsLaterOpponents | src/simulator.ts:536-558 | as written, the merged opponents map is the later table's map itself, entries and order |
| WorkerMerge.MergeTeamAsWrittenLosesMeetings | src/simulator.ts:536-558 | a team that met X once in each of two workers: the merge as written counts 1 meeting, the corrected merge 2 |
| WorkerMerge.MergeTeamSums | src/simulator.ts:551-558 | the corrected team merge adds up the five counters and every opponent counter |
| WorkerMerge.MergeTeamLists | src/simulator.ts:537-550 | the corrected merge lists an opponent iff either side does |
| WorkerMerge.MergeTeamInto | src/simulator.ts:532-560 | one step of the teams forEach as written: a new team is copied; a known one gets its five counters summed and the later table's opponents |
| WorkerMerge.MergeWorkerResults | src/simulator.ts:528-562 | the nested forEach loops compute the as-written merge of all worker tables into an empty table |
| WorkerMerge.AddTeamAsWrittenValues | src/simulator.ts:532-560 | adding a team as written leaves all other teams unchanged and copies its entry or merges it as written |
| WorkerMerge.AddTeamAsWrittenSums | src/simulator.ts:551-558 | adding a team as written adds its five counters to that team only and leaves it with the added opponents |
| WorkerMerge.MergeWorkerAsWrittenSums | src/simulator.ts:530-562 | merging a worker's table as written adds all five counters of every team into the total |
| WorkerMerge.MergeWorkerAsWrittenOpponents | src/simulator.ts:536-558 | as written, a team the worker's table lists ends with that table's opponents map, any other team with its own |
| WorkerMerge.MergeWorkerAsWrittenCopies | src/simulator.ts:531-535 | a team found in only one of the two tables comes out with that table's entry unchanged |
| WorkerMerge.MergeWorkerAsWrittenLists | src/simulator.ts:530-562 | a team is listed after the merge as written iff either table lists it |
| WorkerMerge.MergeTwoWorkersAsWritten | src/simulator.ts:530 | merging a list of two tables as written merges the first, then the second |
| WorkerMerge.MergedCountersAsWritten | src/simulator.ts:530-562 | as written, the five counters of two merged tables are those of one table over both workers' events |
| WorkerMerge.MergedMeetingsAsWritten | src/simulator.ts:536-558 | as written, a team the second table lists keeps only the meetings tallied from the second worker's events |
| WorkerMerge.MergeAsWrittenDropsEarlierMeetings | src/simulator.ts:530-562 | as written, two merged tables match one table over both workers' events in the five counters, and lose exactly the first worker's meetings of every team the second lists |
| WorkerMerge.AddTeamValues | src/simulator.ts:532-560 | corrected merge: adding a team leaves all other teams unchanged and copies or merges its entry |
| WorkerMerge.AddTeamLists | src/simulator.ts:532-560 | corrected merge: a team is listed after adding iff it was before or it is the added team |
| WorkerMerge.MergeWorkerSums | src/simulator.ts:530-562 | corrected merge: merging a worker's table adds up all its counters of every team into the total, opponent counters included |
| WorkerMerge.MergeWorkerLists | src/simulator.ts:530-562 | corrected merge: a team is listed after the merge iff either table lists it |
| WorkerMerge.MergeTwoWorkers | src/simulator.ts:530 | corrected merge: merging a list of two tables merges the first, then the second |
| WorkerMerge.MergedCounters | src/simulator.ts:530-562 | corrected merge: the five counters of two merged tables are those of one table over both workers' events |
| WorkerMerge.MergedMeetings | src/simulator.ts:530-562 | corrected merge: merged opponent counters hold the meetings of both workers' events |
| WorkerMerge.MergeMatchesOneTable | src/simulator.ts:530-562 | corrected merge: two workers merged give exactly the counters one worker would have over both sets of events |
| WorkerMerge.MergeTeamConsistent | src/simulator.ts:551-558 | merging two consistent team entries, as written or corrected, gives a consistent one |
| WorkerMerge.MergeWorkersConsistent | src/simulator.ts:530-562 | the merge as written of consistent tables keeps bo1 + bo3 = total, won ≤ total and allWins ≤ qualified |
| WorkerMerge.MergeWorkerDecided | src/simulator.ts:552-554 | merging a table as written adds its qualified + allLosses of every team to the total |
| WorkerMerge.MergeWorkersDecided | src/simulator.ts:530-562 | when each worker decided a team at most p times, the as-written merge of k workers decided it at most k·p times |
| ResultFormat.OpponentAheadOrders | src/simulator.ts:450 | the opponent comparator is a strict weak order (ties when iterations is 0: every listed rate is Infinity, so every difference is NaN) |
| ResultFormat.FormatOpponentsContents | src/simulator.ts:441-450 | one entry per opponent, formatted from its own counters, every opponent present, sorted by total rate descending |
| ResultFormat.CollectSound | src/simulator.ts:439-480 | every team the reduce pushes has a non-zero count and its own formatted entry |
| ResultFormat.CollectComplete | src/simulator.ts:439-480 | every team with a non-zero count is pushed |
| ResultFormat.RateAheadOrders | src/simulator.ts:483-485 | the list comparator is a strict weak order |
| ResultFormat.FormatListSorted | src/simulator.ts:483-485 | each list is sorted by rate descending |
| ResultFormat.FormatResultsCounts | src/simulator.ts:434-489 | iterations, qualWins and elimLosses are echoed; all three lists are sorted by rate descending |
| ResultFormat.FormatListSound | src/simulator.ts:452-475 | every listed team is in the table with a non-zero count, formatted from its counters |
| ResultFormat.FormatListComplete | src/simulator.ts:452-475 | every team with a non-zero count is listed |
| ResultFormat.FormatListsTeam | src/simulator.ts:452-475 | a team appears in the qualified, allWins or allLosses list iff that count is non-zero |
| ResultFormat.FormatListedEntry | src/simulator.ts:441-475 | a listed entry's rate is count / iterations (non-zero), win rate wins / (wins + losses), opponents its formatted opponents |
| ResultFormat.SeedAheadOrders | src/simulator.ts:194 | the seed comparator is a strict weak order |
| ResultFormat.SeedOrder | src/simulator.ts:192-195 | one team per entry, the same teams as the seeding |
| ResultFormat.SeedOrderBySeed | src/worker/simulation-worker.ts:99-102 | with distinct seeds, the teams come in ascending seed order |
| MatchupGrid.FindMentioning | src/matchup-table.ts:28-30 | the listing found mentions the team and is one of the row's listings |
| MatchupGrid.GridItems | src/matchup-table.ts:18-26 | one row per team of the seed order, one slot per team in each row |
| MatchupGrid.GridSlotEmpty | src/matchup-table.ts:23-27 | a slot is empty iff its column is on or left of the diagonal, or the column's name is empty |
| MatchupGrid.MentionsBoth | src/matchup-table.ts:20-30 | for two different teams, mentioning both is being about the two of them |
| MatchupGrid.FindInRowListings | src/matchup-table.ts:20-30 | searching the row's listings for the column team finds the first listing about the two teams |
| MatchupGrid.GridSlotListing | src/matchup-table.ts:28-34 | a filled slot copies the first matching listing's rates unswapped, or 0 when there is none |
| TeamListEditor.IndexOf | src/team-list.ts:118 | the index of the item, or −1 exactly when it is absent |
| TeamListEditor.IndexOfFirst | src/team-list.ts:118 | the index found is the first occurrence |
| TeamListEditor.SpliceRemoves | src/team-list.ts:119 | splicing out one element at an index in range drops that element |
| TeamListEditor.SpliceInserts | src/team-list.ts:122 | splicing in at a start (negative counts from the end, clamped) inserts just before that position |
| TeamListEditor.TeamList.constructor | src/team-list.ts:38-53 | the editor starts with its list and preset and nothing dragged |
| TeamListEditor.TeamList.OnDragStart | src/team-list.ts:104-106 | the dragged item is the first of the dragged items |
| TeamListEditor.TeamList.OnDragEnd | src/team-list.ts:108-110 | nothing is dragged afterwards |
| TeamListEditor.TeamList.OnDrop | src/team-list.ts:112-127 | with a non-empty dragged item and a different target, the list becomes the moved list and the preset "Custom"; otherwise nothing changes |
| TeamListEditor.MovedPermutation | src/team-list.ts:118-122 | after a drop the list is a permutation of the old one |
| TeamListEditor.MovedKeepsOthersInOrder | src/team-list.ts:119-122 | all other items keep their relative order |
| TeamListEditor.MovedPlacement | src/team-list.ts:121-122 | the dragged item ends just before the target, or just after it when dropped below |
| TeamListEditor.DropOnEmptyArea | src/team-list.ts:121-122 | a drop without a target puts the item second to last |
| TeamListEditor.TeamList.OnTeamNameChange | src/team-list.ts:142-152 | only the named slot changes, to the new name, and the preset becomes "Custom"; no index changes nothing |

## Left out

- Worker plumbing and concurrency in `simulateEvents` (`src/simulator.ts:504-529`), and `postMessage`/`close` in the worker: the merge is modelled as a loop over the finished tables in worker order.
- `Math.random()`: the draws are a parameter. No statement is made about distributions.
- Floating-point arithmetic: win-rate listings are opaque `real` values; the rates of `formatResultsCounts` are exact ratios. NaN is modelled only as the tie it makes in a sort comparator when `iterations` is 0. The `|| 0` of the grid for a falsy rate is modelled only for a missing listing, because a listed rate of 0 gives 0 either way and NaN is not modelled.
- `generateEasyProbabilities` (`src/simulator.ts:82-106`): floating-point ratios only.
- `parseInt`: the seeding's keys are integers already, and `onTeamNameChange` receives the parsed index (`None` when the attribute is missing).
- `dispatchTeamListChanged` and all Lit rendering: events and rendering are not modelled.
- `onListPresetChange` and the count handlers of `src/team-list.ts`: preset data and number parsing only.
- TeamListEditor.TeamList.OnTeamNameChange: requires the index to lie inside the list; the assignment past the end, which grows a JavaScript array with holes, is not modelled.
- TeamListEditor.TeamList.OnDrop: `produce` is modelled as a plain update of the list; structural sharing is not observable here.
- Meetings.EventOutcomeRecordsMeetings: requires a seed order without repeated names. The scheduler recognises a past opponent by name, so two teams sharing a name could both be paired with the same third team.
- MatchupGrid.GridSlotListing: requires the row and column names to differ; a seed order naming a team twice is covered only by MatchupGrid.GridSlotEmpty.
- ResultFormat.FormatResultsCounts: rates are ratios over the requested `iterations`, as the code computes them; the events the workers actually ran (`workerCount * floor(iterations / workerCount)`) can be fewer.

## Findings

| source | as written | input that shows it | evidently intended | confidence | as-written member | corrected member |
|---|---|---|---|---|---|---|
| src/simulator.ts:536-558 | `newOpponents` starts as an empty map, so the sum branch never runs and the merged team keeps only the later worker's opponent counters | two workers whose tables both list team T with one meeting against X: the merged table counts 1 meeting instead of 2 | start `newOpponents` from the earlier total's opponents, so every opponent counter is summed like the team counters are | not executed | WorkerMerge.MergeAsWrittenDropsEarlierMeetings | WorkerMerge.MergeMatchesOneTable |
