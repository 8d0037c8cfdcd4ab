/** How the page combines the tables its workers post back: the loop at the end
    of `simulateEvents` (`src/simulator.ts`, lines 528-562). Each worker's table
    is walked in key order; a team met for the first time is copied, and a team
    already present gets its five counters added up and, as the code is written,
    the later table's opponents in place of its own. The merge that adds up the
    opponents too, as evidently intended, is modelled beside it. */
module WorkerMerge {
  import opened Collections
  import opened Standings
  import opened OrderedMaps
  import opened Aggregation

  /** Two counters of the same opponent added up field by field. */
  function AddMeetings(a: OpponentCounts, b: OpponentCounts): OpponentCounts
  {
    OpponentCounts(a.bo1 + b.bo1, a.bo3 + b.bo3, a.total + b.total, a.won + b.won)
  }

  /** One opponent's counters set into `acc`, added to those `acc` already holds for it. */
  function AddOpponent(acc: OrderedMap<string, OpponentCounts>, name: string, counts: OpponentCounts)
    : (r: OrderedMap<string, OpponentCounts>)
    requires acc.Valid()
    ensures r.Valid()
  {
    if name in acc.values then acc.Set(name, AddMeetings(acc.values[name], counts)) else acc.Set(name, counts)
  }

  /** The inner `forEach` of the merge: the opponents of `src` from its `i`-th key
      on, each added into `acc`. */
  function MergeOpponents(acc: OrderedMap<string, OpponentCounts>, src: OrderedMap<string, OpponentCounts>, i: nat)
    : (r: OrderedMap<string, OpponentCounts>)
    requires acc.Valid() && src.Valid() && i <= |src.keys|
    ensures r.Valid()
    decreases |src.keys| - i
  {
    if i == |src.keys| then acc
    else
      var name := src.keys[i];
      MergeOpponents(AddOpponent(acc, name, src.values[name]), src, i + 1)
  }

  /** Two tables' counters for one team, merged AS WRITTEN: `newOpponents` starts
      as an empty map, so the merged opponents are those of `next` alone. */
  function MergeTeamAsWritten(prev: TeamResultCounts, next: TeamResultCounts): TeamResultCounts
    requires next.opponents.Valid()
  {
    TeamResultCounts(
      qualified := prev.qualified + next.qualified,
      allWins := prev.allWins + next.allWins,
      allLosses := prev.allLosses + next.allLosses,
      wins := prev.wins + next.wins,
      losses := prev.losses + next.losses,
      opponents := MergeOpponents(Empty(), next.opponents, 0))
  }

  /** Two tables' counters for one team, merged as evidently intended: `newOpponents`
      starts from the opponents already in the total. */
  function MergeTeam(prev: TeamResultCounts, next: TeamResultCounts): (r: TeamResultCounts)
    requires prev.opponents.Valid() && next.opponents.Valid()
    ensures r.opponents.Valid()
  {
    TeamResultCounts(
      qualified := prev.qualified + next.qualified,
      allWins := prev.allWins + next.allWins,
      allLosses := prev.allLosses + next.allLosses,
      wins := prev.wins + next.wins,
      losses := prev.losses + next.losses,
      opponents := MergeOpponents(prev.opponents, next.opponents, 0))
  }

  /** One team's counters set into `all`, merged with those `all` already holds for it. */
  function AddTeam(all: ResultMap, name: string, teamCounts: TeamResultCounts): (r: ResultMap)
    requires WellFormed(all) && teamCounts.opponents.Valid()
    ensures WellFormed(r)
  {
    SetKeepsWellFormed(all, name, teamCounts);
    if name in all.values then
      SetKeepsWellFormed(all, name, MergeTeam(all.values[name], teamCounts));
      all.Set(name, MergeTeam(all.values[name], teamCounts))
    else all.Set(name, teamCounts)
  }

  /** The middle `forEach`: the teams of one worker's table from its `i`-th key on,
      merged into `all`. */
  function MergeWorker(all: ResultMap, worker: ResultMap, i: nat): (r: ResultMap)
    requires WellFormed(all) && WellFormed(worker) && i <= |worker.keys|
    ensures WellFormed(r)
    decreases |worker.keys| - i
  {
    if i == |worker.keys| then all
    else
      var name := worker.keys[i];
      MergeWorker(AddTeam(all, name, worker.values[name]), worker, i + 1)
  }

  /** Every table of a list is well formed. */
  ghost predicate AllWellFormed(workers: seq<ResultMap>)
  {
    forall k | 0 <= k < |workers| :: WellFormed(workers[k])
  }

  /** The outer `forEach`: the workers' tables, one after the other, merged into `all`. */
  function MergeWorkers(all: ResultMap, workers: seq<ResultMap>): (r: ResultMap)
    requires WellFormed(all) && AllWellFormed(workers)
    ensures WellFormed(r)
    decreases workers
  {
    if workers == [] then all
    else MergeWorkers(MergeWorker(all, workers[0], 0), workers[1..])
  }

  /** One team's counters set into `all` AS WRITTEN: a new team is copied, and a
      team already there is merged by `MergeTeamAsWritten`. */
  function AddTeamAsWritten(all: ResultMap, name: string, teamCounts: TeamResultCounts): (r: ResultMap)
    requires WellFormed(all) && teamCounts.opponents.Valid()
    ensures WellFormed(r)
  {
    SetKeepsWellFormed(all, name, teamCounts);
    if name in all.values then
      SetKeepsWellFormed(all, name, MergeTeamAsWritten(all.values[name], teamCounts));
      all.Set(name, MergeTeamAsWritten(all.values[name], teamCounts))
    else all.Set(name, teamCounts)
  }

  /** The middle `forEach` as written: the teams of one worker's table from its
      `i`-th key on, added into `all` by `AddTeamAsWritten`. */
  function MergeWorkerAsWritten(all: ResultMap, worker: ResultMap, i: nat): (r: ResultMap)
    requires WellFormed(all) && WellFormed(worker) && i <= |worker.keys|
    ensures WellFormed(r)
    decreases |worker.keys| - i
  {
    if i == |worker.keys| then all
    else
      var name := worker.keys[i];
      MergeWorkerAsWritten(AddTeamAsWritten(all, name, worker.values[name]), worker, i + 1)
  }

  /** The outer `forEach` as written: the workers' tables, one after the other. */
  function MergeWorkersAsWritten(all: ResultMap, workers: seq<ResultMap>): (r: ResultMap)
    requires WellFormed(all) && AllWellFormed(workers)
    ensures WellFormed(r)
    decreases workers
  {
    if workers == [] then all
    else MergeWorkersAsWritten(MergeWorkerAsWritten(all, workers[0], 0), workers[1..])
  }

  // ---------------------------------------------------------------------------
  // The merge loop as the source runs it
  // ---------------------------------------------------------------------------

  /** The first opponent from `i` on merged before the rest. */
  lemma MergeOpponentsStep(acc: OrderedMap<string, OpponentCounts>, src: OrderedMap<string, OpponentCounts>, i: nat)
    requires acc.Valid() && src.Valid() && i < |src.keys|
    ensures MergeOpponents(acc, src, i) == MergeOpponents(AddOpponent(acc, src.keys[i], src.values[src.keys[i]]), src, i + 1)
  {
  }

  /** The body of the inner `forEach`: one opponent of the later table merged into
      `newOpponents`. */
  method MergeOpponentInto(newOpponents: OrderedMap<string, OpponentCounts>, opponentName: string,
                           opponentCounts: OpponentCounts)
    returns (r: OrderedMap<string, OpponentCounts>)
    requires newOpponents.Valid()
    ensures r == AddOpponent(newOpponents, opponentName, opponentCounts)
  {
    if opponentName !in newOpponents.values {
      r := newOpponents.Set(opponentName, opponentCounts);
    } else {
      var prevOpponent := newOpponents.values[opponentName];
      var newOpponentCounts := OpponentCounts(
        total := prevOpponent.total + opponentCounts.total,
        won := prevOpponent.won + opponentCounts.won,
        bo1 := prevOpponent.bo1 + opponentCounts.bo1,
        bo3 := prevOpponent.bo3 + opponentCounts.bo3);
      assert newOpponentCounts == AddMeetings(prevOpponent, opponentCounts);
      r := newOpponents.Set(opponentName, newOpponentCounts);
    }
  }

  /** The loop over one team's opponents in the later table, into `newOpponents`,
      a new empty map. */
  method MergeOpponentCounts(opponents: OrderedMap<string, OpponentCounts>)
    returns (newOpponents: OrderedMap<string, OpponentCounts>)
    requires opponents.Valid()
    ensures newOpponents == MergeOpponents(Empty(), opponents, 0)
  {
    newOpponents := Empty();
    for i := 0 to |opponents.keys|
      invariant newOpponents.Valid()
      invariant MergeOpponents(newOpponents, opponents, i) == MergeOpponents(Empty(), opponents, 0)
    {
      var opponentName := opponents.keys[i];
      MergeOpponentsStep(newOpponents, opponents, i);
      newOpponents := MergeOpponentInto(newOpponents, opponentName, opponents.values[opponentName]);
    }
  }

  /** The first team from `i` on merged before the rest. */
  lemma MergeWorkerAsWrittenStep(all: ResultMap, worker: ResultMap, i: nat)
    requires WellFormed(all) && WellFormed(worker) && i < |worker.keys|
    ensures MergeWorkerAsWritten(all, worker, i)
            == MergeWorkerAsWritten(AddTeamAsWritten(all, worker.keys[i], worker.values[worker.keys[i]]), worker, i + 1)
  {
  }

  /** The first table merged before the rest. */
  lemma MergeWorkersAsWrittenStep(all: ResultMap, workers: seq<ResultMap>, w: nat)
    requires WellFormed(all) && AllWellFormed(workers) && w < |workers|
    ensures AllWellFormed(workers[w + 1..])
    ensures MergeWorkersAsWritten(all, workers[w..])
            == MergeWorkersAsWritten(MergeWorkerAsWritten(all, workers[w], 0), workers[w + 1..])
  {
    assert workers[w..][1..] == workers[w + 1..];
  }

  /** One team of a later table merged into the total, as written. */
  method MergeTeamInto(allTeamResults: ResultMap, teamName: string, teamCounts: TeamResultCounts)
    returns (r: ResultMap)
    requires WellFormed(allTeamResults) && teamCounts.opponents.Valid()
    ensures r == AddTeamAsWritten(allTeamResults, teamName, teamCounts)
  {
    if teamName !in allTeamResults.values {
      r := allTeamResults.Set(teamName, teamCounts);
    } else {
      var prevTotal := allTeamResults.values[teamName];
      var newOpponents := MergeOpponentCounts(teamCounts.opponents);
      var newTotal := TeamResultCounts(
        qualified := prevTotal.qualified + teamCounts.qualified,
        allWins := prevTotal.allWins + teamCounts.allWins,
        allLosses := prevTotal.allLosses + teamCounts.allLosses,
        wins := prevTotal.wins + teamCounts.wins,
        losses := prevTotal.losses + teamCounts.losses,
        opponents := newOpponents);
      assert newTotal == MergeTeamAsWritten(prevTotal, teamCounts);
      r := allTeamResults.Set(teamName, newTotal);
    }
  }

  /** The merge loop of `simulateEvents` over the tables the workers posted back. */
  method MergeWorkerResults(workerResults: seq<ResultMap>) returns (allTeamResults: ResultMap)
    requires AllWellFormed(workerResults)
    ensures allTeamResults == MergeWorkersAsWritten(Empty(), workerResults)
  {
    allTeamResults := Empty();
    for w := 0 to |workerResults|
      invariant WellFormed(allTeamResults)
      invariant AllWellFormed(workerResults[w..])
      invariant MergeWorkersAsWritten(allTeamResults, workerResults[w..]) == MergeWorkersAsWritten(Empty(), workerResults)
    {
      var teamResults := workerResults[w];
      ghost var start := allTeamResults;
      MergeWorkersAsWrittenStep(allTeamResults, workerResults, w);
      for i := 0 to |teamResults.keys|
        invariant WellFormed(allTeamResults)
        invariant MergeWorkerAsWritten(allTeamResults, teamResults, i) == MergeWorkerAsWritten(start, teamResults, 0)
      {
        var teamName := teamResults.keys[i];
        MergeWorkerAsWrittenStep(allTeamResults, teamResults, i);
        allTeamResults := MergeTeamInto(allTeamResults, teamName, teamResults.values[teamName]);
      }
    }
  }

  // ---------------------------------------------------------------------------
  // What the merge adds up
  // ---------------------------------------------------------------------------

  /** What `src` holds for `k`, if `k` is among its keys from `i` on, else `dflt`. */
  function From<V>(src: OrderedMap<string, V>, i: nat, k: string, dflt: V): V
    requires i <= |src.keys|
  {
    if k in src.keys[i..] then src.GetOr(k, dflt) else dflt
  }

  /** From the first key on, every listed key counts. */
  lemma FromStart<V>(src: OrderedMap<string, V>, k: string, dflt: V)
    requires src.Valid()
    ensures From(src, 0, k, dflt) == src.GetOr(k, dflt)
    ensures k in src.keys[0..] <==> k in src.values
  {
    assert src.keys[0..] == src.keys;
  }

  /** Dropping the `i`-th key from the rest drops exactly that key, since no key is listed twice. */
  lemma FromStep<V>(src: OrderedMap<string, V>, i: nat, k: string, dflt: V)
    requires src.Valid() && i < |src.keys|
    ensures k in src.keys[i..] <==> k == src.keys[i] || k in src.keys[i + 1..]
    ensures src.keys[i] !in src.keys[i + 1..]
    ensures From(src, i, k, dflt) == if k == src.keys[i] then src.values[k] else From(src, i + 1, k, dflt)
  {
    assert src.keys[i..] == [src.keys[i]] + src.keys[i + 1..];
  }

  /** Each counter of `r` is the sum of those of `a` and `b`. */
  predicate MeetingsAddUp(r: OpponentCounts, a: OpponentCounts, b: OpponentCounts)
  {
    r.bo1 == a.bo1 + b.bo1 && r.bo3 == a.bo3 + b.bo3 && r.total == a.total + b.total && r.won == a.won + b.won
  }

  /** What adding one opponent does to the entries of the map. */
  lemma AddOpponentValues(acc: OrderedMap<string, OpponentCounts>, name: string, counts: OpponentCounts)
    requires acc.Valid()
    ensures AddOpponent(acc, name, counts).values
            == acc.values[name := if name in acc.values then AddMeetings(acc.values[name], counts) else counts]
  {
  }

  /** Adding one opponent's counters adds them to that opponent only. */
  lemma AddOpponentSums(acc: OrderedMap<string, OpponentCounts>, name: string, counts: OpponentCounts, m: string)
    requires acc.Valid()
    ensures MeetingsAddUp(AddOpponent(acc, name, counts).GetOr(m, NoMeetings), acc.GetOr(m, NoMeetings),
                          if m == name then counts else NoMeetings)
  {
    AddOpponentValues(acc, name, counts);
  }

  /** Adding one opponent's counters lists that opponent, and no other new one. */
  lemma AddOpponentLists(acc: OrderedMap<string, OpponentCounts>, name: string, counts: OpponentCounts, m: string)
    requires acc.Valid()
    ensures m in AddOpponent(acc, name, counts).values <==> m in acc.values || m == name
  {
    AddOpponentValues(acc, name, counts);
  }

  /** Merging the opponents of `src` from `i` on adds, to what `acc` holds for any
      opponent, what `src` holds for it there. */
  lemma {:induction false} MergeOpponentsSumsFrom(acc: OrderedMap<string, OpponentCounts>,
                                                  src: OrderedMap<string, OpponentCounts>, i: nat, m: string)
    requires acc.Valid() && src.Valid() && i <= |src.keys|
    ensures MeetingsAddUp(MergeOpponents(acc, src, i).GetOr(m, NoMeetings), acc.GetOr(m, NoMeetings),
                          From(src, i, m, NoMeetings))
    decreases |src.keys| - i
  {
    if i < |src.keys| {
      var name := src.keys[i];
      MergeOpponentsSumsFrom(AddOpponent(acc, name, src.values[name]), src, i + 1, m);
      AddOpponentSums(acc, name, src.values[name], m);
      FromStep(src, i, m, NoMeetings);
    }
  }

  /** After merging the opponents of `src` from `i` on, an opponent is listed exactly
      when `acc` listed it or `src` does from `i` on. */
  lemma {:induction false} MergeOpponentsListsFrom(acc: OrderedMap<string, OpponentCounts>,
                                                   src: OrderedMap<string, OpponentCounts>, i: nat, m: string)
    requires acc.Valid() && src.Valid() && i <= |src.keys|
    ensures m in MergeOpponents(acc, src, i).values <==> m in acc.values || m in src.keys[i..]
    decreases |src.keys| - i
  {
    if i < |src.keys| {
      var name := src.keys[i];
      MergeOpponentsListsFrom(AddOpponent(acc, name, src.values[name]), src, i + 1, m);
      AddOpponentLists(acc, name, src.values[name], m);
      FromStep(src, i, m, NoMeetings);
    }
  }

  /** Merging the opponents of `src` into `acc` adds up what both hold against every opponent. */
  lemma MergeOpponentsSums(acc: OrderedMap<string, OpponentCounts>, src: OrderedMap<string, OpponentCounts>, m: string)
    requires acc.Valid() && src.Valid()
    ensures MeetingsAddUp(MergeOpponents(acc, src, 0).GetOr(m, NoMeetings), acc.GetOr(m, NoMeetings), src.GetOr(m, NoMeetings))
  {
    MergeOpponentsSumsFrom(acc, src, 0, m);
    FromStart(src, m, NoMeetings);
  }

  /** Merging the opponents of `src` into `acc` lists exactly the opponents either lists. */
  lemma MergeOpponentsLists(acc: OrderedMap<string, OpponentCounts>, src: OrderedMap<string, OpponentCounts>, m: string)
    requires acc.Valid() && src.Valid()
    ensures m in MergeOpponents(acc, src, 0).values <==> m in acc.values || m in src.values
  {
    MergeOpponentsListsFrom(acc, src, 0, m);
    FromStart(src, m, NoMeetings);
  }

  /** `r` holds the five counters of `a` and `b` added up. */
  predicate CountersAddUp(r: TeamResultCounts, a: TeamResultCounts, b: TeamResultCounts)
  {
    && r.qualified == a.qualified + b.qualified
    && r.allWins == a.allWins + b.allWins
    && r.allLosses == a.allLosses + b.allLosses
    && r.wins == a.wins + b.wins
    && r.losses == a.losses + b.losses
  }

  /** `r` holds the five counters of `a` and `b` added up, and their meetings with `m` added up. */
  ghost predicate AddsUp(r: TeamResultCounts, a: TeamResultCounts, b: TeamResultCounts, m: string)
  {
    && r.qualified == a.qualified + b.qualified
    && r.allWins == a.allWins + b.allWins
    && r.allLosses == a.allLosses + b.allLosses
    && r.wins == a.wins + b.wins
    && r.losses == a.losses + b.losses
    && MeetingsAddUp(r.opponents.GetOr(m, NoMeetings), a.opponents.GetOr(m, NoMeetings), b.opponents.GetOr(m, NoMeetings))
  }

  /** The corrected merge of one team adds up every counter, also against every opponent. */
  lemma MergeTeamSums(prev: TeamResultCounts, next: TeamResultCounts, m: string)
    requires prev.opponents.Valid() && next.opponents.Valid()
    ensures AddsUp(MergeTeam(prev, next), prev, next, m)
  {
    MergeOpponentsSums(prev.opponents, next.opponents, m);
  }

  /** The corrected merge of one team lists every opponent either table lists. */
  lemma MergeTeamLists(prev: TeamResultCounts, next: TeamResultCounts, m: string)
    requires prev.opponents.Valid() && next.opponents.Valid()
    ensures m in MergeTeam(prev, next).opponents.values <==> m in prev.opponents.values || m in next.opponents.values
  {
    MergeOpponentsLists(prev.opponents, next.opponents, m);
  }

  /** The first `i` entries of `src`, as a map of their own. */
  function Prefix(src: OrderedMap<string, OpponentCounts>, i: nat): (r: OrderedMap<string, OpponentCounts>)
    requires src.Valid() && i <= |src.keys|
    ensures r.Valid()
  {
    OrderedMap(src.keys[..i], map k | k in src.keys[..i] :: src.values[k])
  }

  /** Adding the entries of `src` from `i` on to its first `i` entries rebuilds `src`. */
  lemma {:induction false} RebuildFrom(src: OrderedMap<string, OpponentCounts>, i: nat)
    requires src.Valid() && i <= |src.keys|
    ensures MergeOpponents(Prefix(src, i), src, i) == src
    decreases |src.keys| - i
  {
    if i == |src.keys| {
      assert src.keys[..i] == src.keys;
    } else {
      var k := src.keys[i];
      assert k !in src.keys[..i];
      assert src.keys[..i + 1] == src.keys[..i] + [k];
      assert AddOpponent(Prefix(src, i), k, src.values[k]) == Prefix(src, i + 1);
      RebuildFrom(src, i + 1);
    }
  }

  /** As written, the merged opponents are the later table's map itself, entries
      and order: whatever the earlier tables counted against any opponent is lost. */
  lemma MergeTeamAsWrittenKeepsLaterOpponents(prev: TeamResultCounts, next: TeamResultCounts)
    requires next.opponents.Valid()
    ensures MergeTeamAsWritten(prev, next).opponents == next.opponents
  {
    assert Prefix(next.opponents, 0) == Empty();
    RebuildFrom(next.opponents, 0);
  }

  /** Two tables that each counted one meeting of a team with "X": as written the
      merged total shows one meeting, the corrected merge two. */
  lemma MergeTeamAsWrittenLosesMeetings()
    ensures var c := TeamResultCounts(1, 0, 0, 3, 1, OrderedMap(["X"], map["X" := OpponentCounts(1, 0, 1, 1)]));
            && MergeTeamAsWritten(c, c).opponents.GetOr("X", NoMeetings).total == 1
            && MergeTeam(c, c).opponents.GetOr("X", NoMeetings).total == 2
  {
    var c := TeamResultCounts(1, 0, 0, 3, 1, OrderedMap(["X"], map["X" := OpponentCounts(1, 0, 1, 1)]));
    MergeTeamAsWrittenKeepsLaterOpponents(c, c);
    MergeTeamSums(c, c, "X");
  }

  /** What adding one team does to the entries of the table. */
  lemma AddTeamValues(all: ResultMap, name: string, teamCounts: TeamResultCounts)
    requires WellFormed(all) && teamCounts.opponents.Valid()
    ensures AddTeam(all, name, teamCounts).values
            == all.values[name := if name in all.values then MergeTeam(all.values[name], teamCounts) else teamCounts]
  {
  }

  /** Adding one team's counters to the total adds them to that team only. */
  lemma AddTeamSums(all: ResultMap, name: string, teamCounts: TeamResultCounts, n: string, m: string)
    requires WellFormed(all) && teamCounts.opponents.Valid()
    ensures AddsUp(AddTeam(all, name, teamCounts).GetOr(n, NoResults), all.GetOr(n, NoResults),
                   if n == name then teamCounts else NoResults, m)
  {
    AddTeamValues(all, name, teamCounts);
    if n == name && n in all.values {
      MergeTeamSums(all.values[n], teamCounts, m);
    }
  }

  /** Adding one team's counters lists that team, and no other new one. */
  lemma AddTeamLists(all: ResultMap, name: string, teamCounts: TeamResultCounts, n: string)
    requires WellFormed(all) && teamCounts.opponents.Valid()
    ensures n in AddTeam(all, name, teamCounts).values <==> n in all.values || n == name
  {
    AddTeamValues(all, name, teamCounts);
  }

  /** Adding `b` and then nothing adds `b`. */
  lemma AddsUpThenNothing(r: TeamResultCounts, mid: TeamResultCounts, a: TeamResultCounts, b: TeamResultCounts,
                          m: string)
    requires AddsUp(mid, a, b, m) && AddsUp(r, mid, NoResults, m)
    ensures AddsUp(r, a, b, m)
  {
  }

  /** Adding nothing and then `b` adds `b`. */
  lemma AddsUpAfterNothing(r: TeamResultCounts, mid: TeamResultCounts, a: TeamResultCounts, b: TeamResultCounts,
                           m: string)
    requires AddsUp(mid, a, NoResults, m) && AddsUp(r, mid, b, m)
    ensures AddsUp(r, a, b, m)
  {
  }

  /** Merging a worker's table from its `i`-th team on adds, to every team's counters
      in `all`, what the worker holds for that team there. */
  lemma {:induction false} MergeWorkerSumsFrom(all: ResultMap, worker: ResultMap, i: nat, n: string, m: string)
    requires WellFormed(all) && WellFormed(worker) && i <= |worker.keys|
    ensures AddsUp(MergeWorker(all, worker, i).GetOr(n, NoResults), all.GetOr(n, NoResults), From(worker, i, n, NoResults), m)
    decreases |worker.keys| - i
  {
    if i < |worker.keys| {
      var name := worker.keys[i];
      var next := AddTeam(all, name, worker.values[name]);
      var r := MergeWorker(all, worker, i);
      MergeWorkerSumsFrom(next, worker, i + 1, n, m);
      AddTeamSums(all, name, worker.values[name], n, m);
      FromStep(worker, i, n, NoResults);
      if n == name {
        AddsUpThenNothing(r.GetOr(n, NoResults), next.GetOr(n, NoResults), all.GetOr(n, NoResults), worker.values[n], m);
      } else {
        AddsUpAfterNothing(r.GetOr(n, NoResults), next.GetOr(n, NoResults), all.GetOr(n, NoResults),
                           From(worker, i + 1, n, NoResults), m);
      }
    }
  }

  /** After merging a worker's table from its `i`-th team on, a team is listed exactly
      when `all` listed it or the worker does from `i` on. */
  lemma {:induction false} MergeWorkerListsFrom(all: ResultMap, worker: ResultMap, i: nat, n: string)
    requires WellFormed(all) && WellFormed(worker) && i <= |worker.keys|
    ensures n in MergeWorker(all, worker, i).values <==> n in all.values || n in worker.keys[i..]
    decreases |worker.keys| - i
  {
    if i < |worker.keys| {
      var name := worker.keys[i];
      MergeWorkerListsFrom(AddTeam(all, name, worker.values[name]), worker, i + 1, n);
      AddTeamLists(all, name, worker.values[name], n);
      FromStep(worker, i, n, NoResults);
    }
  }

  /** Merging a worker's table adds, to every team's counters, the worker's counters for it. */
  lemma MergeWorkerSums(all: ResultMap, worker: ResultMap, n: string, m: string)
    requires WellFormed(all) && WellFormed(worker)
    ensures AddsUp(MergeWorker(all, worker, 0).GetOr(n, NoResults), all.GetOr(n, NoResults), worker.GetOr(n, NoResults), m)
  {
    MergeWorkerSumsFrom(all, worker, 0, n, m);
    FromStart(worker, n, NoResults);
  }

  /** After merging a worker's table, a team is listed exactly when either table listed it. */
  lemma MergeWorkerLists(all: ResultMap, worker: ResultMap, n: string)
    requires WellFormed(all) && WellFormed(worker)
    ensures n in MergeWorker(all, worker, 0).values <==> n in all.values || n in worker.values
  {
    MergeWorkerListsFrom(all, worker, 0, n);
    FromStart(worker, n, NoResults);
  }

  // ---------------------------------------------------------------------------
  // What the merge as written adds up
  // ---------------------------------------------------------------------------

  /** What adding one team as written does to the entries of the table. */
  lemma AddTeamAsWrittenValues(all: ResultMap, name: string, teamCounts: TeamResultCounts)
    requires WellFormed(all) && teamCounts.opponents.Valid()
    ensures AddTeamAsWritten(all, name, teamCounts).values
            == all.values[name := if name in all.values then MergeTeamAsWritten(all.values[name], teamCounts) else teamCounts]
  {
  }

  /** Adding one team as written adds its five counters to that team only, and
      leaves that team with the added opponents. */
  lemma AddTeamAsWrittenSums(all: ResultMap, name: string, teamCounts: TeamResultCounts, n: string)
    requires WellFormed(all) && teamCounts.opponents.Valid()
    ensures var r := AddTeamAsWritten(all, name, teamCounts).GetOr(n, NoResults);
            && CountersAddUp(r, all.GetOr(n, NoResults), if n == name then teamCounts else NoResults)
            && r.opponents == (if n == name then teamCounts else all.GetOr(n, NoResults)).opponents
  {
    AddTeamAsWrittenValues(all, name, teamCounts);
    if n == name && n in all.values {
      MergeTeamAsWrittenKeepsLaterOpponents(all.values[n], teamCounts);
    }
  }

  /** Merging a worker's table as written from its `i`-th team on adds, to every
      team's five counters in `all`, what the worker holds for it there. */
  lemma {:induction false} MergeWorkerAsWrittenCountsFrom(all: ResultMap, worker: ResultMap, i: nat, n: string)
    requires WellFormed(all) && WellFormed(worker) && i <= |worker.keys|
    ensures CountersAddUp(MergeWorkerAsWritten(all, worker, i).GetOr(n, NoResults), all.GetOr(n, NoResults),
                          From(worker, i, n, NoResults))
    decreases |worker.keys| - i
  {
    if i < |worker.keys| {
      var name := worker.keys[i];
      var next := AddTeamAsWritten(all, name, worker.values[name]);
      MergeWorkerAsWrittenCountsFrom(next, worker, i + 1, n);
      AddTeamAsWrittenSums(all, name, worker.values[name], n);
      FromStep(worker, i, n, NoResults);
    }
  }

  /** Merging a worker's table as written from its `i`-th team on leaves a team the
      worker lists there with the worker's opponents, and any other with its own. */
  lemma {:induction false} MergeWorkerAsWrittenOpponentsFrom(all: ResultMap, worker: ResultMap, i: nat, n: string)
    requires WellFormed(all) && WellFormed(worker) && i <= |worker.keys|
    ensures MergeWorkerAsWritten(all, worker, i).GetOr(n, NoResults).opponents
            == From(worker, i, n, all.GetOr(n, NoResults)).opponents
    decreases |worker.keys| - i
  {
    if i < |worker.keys| {
      var name := worker.keys[i];
      var next := AddTeamAsWritten(all, name, worker.values[name]);
      MergeWorkerAsWrittenOpponentsFrom(next, worker, i + 1, n);
      if n == name {
        AddTeamAsWrittenSums(all, name, worker.values[name], n);
        FromStep(worker, i, n, next.GetOr(n, NoResults));
        FromStep(worker, i, n, all.GetOr(n, NoResults));
      } else {
        AddTeamAsWrittenValues(all, name, worker.values[name]);
        FromStep(worker, i, n, all.GetOr(n, NoResults));
      }
    }
  }

  /** Merging a worker's table as written from its `i`-th team on leaves a team the
      worker does not list there as it was. */
  lemma {:induction false} MergeWorkerAsWrittenLeavesFrom(all: ResultMap, worker: ResultMap, i: nat, n: string)
    requires WellFormed(all) && WellFormed(worker) && i <= |worker.keys| && n !in worker.keys[i..]
    ensures MergeWorkerAsWritten(all, worker, i).GetOr(n, NoResults) == all.GetOr(n, NoResults)
    decreases |worker.keys| - i
  {
    if i < |worker.keys| {
      var name := worker.keys[i];
      FromStep(worker, i, n, NoResults);
      AddTeamAsWrittenValues(all, name, worker.values[name]);
      MergeWorkerAsWrittenLeavesFrom(AddTeamAsWritten(all, name, worker.values[name]), worker, i + 1, n);
    }
  }

  /** Merging a worker's table as written from its `i`-th team on copies a team the
      total did not list from the worker's table. */
  lemma {:induction false} MergeWorkerAsWrittenCopiesFrom(all: ResultMap, worker: ResultMap, i: nat, n: string)
    requires WellFormed(all) && WellFormed(worker) && i <= |worker.keys| && n !in all.values
    ensures MergeWorkerAsWritten(all, worker, i).GetOr(n, NoResults) == From(worker, i, n, NoResults)
    decreases |worker.keys| - i
  {
    if i < |worker.keys| {
      var name := worker.keys[i];
      var next := AddTeamAsWritten(all, name, worker.values[name]);
      FromStep(worker, i, n, NoResults);
      AddTeamAsWrittenValues(all, name, worker.values[name]);
      if n == name {
        MergeWorkerAsWrittenLeavesFrom(next, worker, i + 1, n);
      } else {
        MergeWorkerAsWrittenCopiesFrom(next, worker, i + 1, n);
      }
    }
  }

  /** After merging a worker's table as written from its `i`-th team on, a team is
      listed exactly when `all` listed it or the worker does from `i` on. */
  lemma {:induction false} MergeWorkerAsWrittenListsFrom(all: ResultMap, worker: ResultMap, i: nat, n: string)
    requires WellFormed(all) && WellFormed(worker) && i <= |worker.keys|
    ensures n in MergeWorkerAsWritten(all, worker, i).values <==> n in all.values || n in worker.keys[i..]
    decreases |worker.keys| - i
  {
    if i < |worker.keys| {
      var name := worker.keys[i];
      MergeWorkerAsWrittenListsFrom(AddTeamAsWritten(all, name, worker.values[name]), worker, i + 1, n);
      AddTeamAsWrittenValues(all, name, worker.values[name]);
      FromStep(worker, i, n, NoResults);
    }
  }

  /** Merging a worker's table as written adds its five counters of every team to the total. */
  lemma MergeWorkerAsWrittenSums(all: ResultMap, worker: ResultMap, n: string)
    requires WellFormed(all) && WellFormed(worker)
    ensures CountersAddUp(MergeWorkerAsWritten(all, worker, 0).GetOr(n, NoResults), all.GetOr(n, NoResults),
                          worker.GetOr(n, NoResults))
  {
    MergeWorkerAsWrittenCountsFrom(all, worker, 0, n);
    FromStart(worker, n, NoResults);
  }

  /** Merging a worker's table as written leaves every team the worker lists with the
      worker's opponents, those the total held for it dropped, and any other team with its own. */
  lemma MergeWorkerAsWrittenOpponents(all: ResultMap, worker: ResultMap, n: string)
    requires WellFormed(all) && WellFormed(worker)
    ensures MergeWorkerAsWritten(all, worker, 0).GetOr(n, NoResults).opponents
            == worker.GetOr(n, all.GetOr(n, NoResults)).opponents
  {
    MergeWorkerAsWrittenOpponentsFrom(all, worker, 0, n);
    FromStart(worker, n, all.GetOr(n, NoResults));
  }

  /** A team found in only one of the two tables comes out of the merge as written
      with that table's entry, unchanged. */
  lemma MergeWorkerAsWrittenCopies(all: ResultMap, worker: ResultMap, n: string)
    requires WellFormed(all) && WellFormed(worker)
    ensures n !in all.values ==> MergeWorkerAsWritten(all, worker, 0).GetOr(n, NoResults) == worker.GetOr(n, NoResults)
    ensures n !in worker.values ==> MergeWorkerAsWritten(all, worker, 0).GetOr(n, NoResults) == all.GetOr(n, NoResults)
  {
    FromStart(worker, n, NoResults);
    if n !in all.values {
      MergeWorkerAsWrittenCopiesFrom(all, worker, 0, n);
    }
    if n !in worker.values {
      MergeWorkerAsWrittenLeavesFrom(all, worker, 0, n);
    }
  }

  /** After merging a worker's table as written, a team is listed exactly when either table listed it. */
  lemma MergeWorkerAsWrittenLists(all: ResultMap, worker: ResultMap, n: string)
    requires WellFormed(all) && WellFormed(worker)
    ensures n in MergeWorkerAsWritten(all, worker, 0).values <==> n in all.values || n in worker.values
  {
    MergeWorkerAsWrittenListsFrom(all, worker, 0, n);
    FromStart(worker, n, NoResults);
  }

  // ---------------------------------------------------------------------------
  // Merging split work counts what one table would have counted
  // ---------------------------------------------------------------------------

  /** Two tables merged into `all`, one after the other. */
  lemma MergeTwoWorkers(all: ResultMap, first: ResultMap, second: ResultMap)
    requires WellFormed(all) && WellFormed(first) && WellFormed(second)
    ensures AllWellFormed([first, second])
    ensures MergeWorkers(all, [first, second]) == MergeWorker(MergeWorker(all, first, 0), second, 0)
  {
    var mid := MergeWorker(all, first, 0);
    assert [first, second][1..] == [second];
    assert MergeWorkers(all, [first, second]) == MergeWorkers(mid, [second]);
    assert [second][1..] == [];
    assert MergeWorkers(mid, [second]) == MergeWorkers(MergeWorker(mid, second, 0), []);
  }

  /** The five counters of team `n` in the merge of two tables that categorized `u`
      and `v` are those of one table that categorized `u + v`. */
  lemma MergedCounters(u: seq<Standing>, v: seq<Standing>, settings: Settings, n: string)
    ensures var first := CategorizeResults(Empty(), u, settings);
            var second := CategorizeResults(Empty(), v, settings);
            var merged := MergeWorker(MergeWorker(Empty(), first, 0), second, 0).GetOr(n, NoResults);
            var single := CategorizeResults(Empty(), u + v, settings).GetOr(n, NoResults);
            CountedFrom(merged, NoResults, u + v, settings, n) && CountedFrom(single, NoResults, u + v, settings, n)
  {
    var first := CategorizeResults(Empty(), u, settings);
    var second := CategorizeResults(Empty(), v, settings);
    var mid := MergeWorker(Empty(), first, 0);
    var merged := MergeWorker(mid, second, 0);
    MergeWorkerSums(Empty(), first, n, n);
    MergeWorkerSums(mid, second, n, n);
    CategorizeCounts(Empty(), u, settings, n);
    CategorizeCounts(Empty(), v, settings, n);
    CategorizeCounts(Empty(), u + v, settings, n);
    CountedFromAppend(merged.GetOr(n, NoResults), mid.GetOr(n, NoResults), NoResults, u, v, settings, n);
  }

  /** Team `n`'s meetings with `m` in the merge of two tables that categorized `u` and
      `v` are those of one table that categorized `u + v`. */
  lemma MergedMeetings(u: seq<Standing>, v: seq<Standing>, settings: Settings, n: string, m: string)
    ensures var first := CategorizeResults(Empty(), u, settings);
            var second := CategorizeResults(Empty(), v, settings);
            var merged := MergeWorker(MergeWorker(Empty(), first, 0), second, 0).GetOr(n, NoResults);
            var single := CategorizeResults(Empty(), u + v, settings).GetOr(n, NoResults);
            && TalliedFrom(merged.opponents.GetOr(m, NoMeetings), NoMeetings, HistoryOf(u + v, n), m)
            && TalliedFrom(single.opponents.GetOr(m, NoMeetings), NoMeetings, HistoryOf(u + v, n), m)
  {
    var first := CategorizeResults(Empty(), u, settings);
    var second := CategorizeResults(Empty(), v, settings);
    var mid := MergeWorker(Empty(), first, 0);
    var merged := MergeWorker(mid, second, 0);
    MergeWorkerSums(Empty(), first, n, m);
    MergeWorkerSums(mid, second, n, m);
    CategorizeTallies(Empty(), u, settings, n, m);
    CategorizeTallies(Empty(), v, settings, n, m);
    CategorizeTallies(Empty(), u + v, settings, n, m);
    HistoryOfAppend(u, v, n);
    TalliedFromAppend(merged.GetOr(n, NoResults).opponents.GetOr(m, NoMeetings),
                      mid.GetOr(n, NoResults).opponents.GetOr(m, NoMeetings), NoMeetings,
                      HistoryOf(u, n), HistoryOf(v, n), m);
  }

  /** Splitting the work between two workers and merging their tables gives every
      team the counters, and the counters against every opponent, that one table
      categorizing both workers' standings gives it. */
  lemma MergeMatchesOneTable(u: seq<Standing>, v: seq<Standing>, settings: Settings, n: string, m: string)
    ensures var first := CategorizeResults(Empty(), u, settings);
            var second := CategorizeResults(Empty(), v, settings);
            var merged := MergeWorkers(Empty(), [first, second]).GetOr(n, NoResults);
            var single := CategorizeResults(Empty(), u + v, settings).GetOr(n, NoResults);
            && merged.qualified == single.qualified
            && merged.allWins == single.allWins
            && merged.allLosses == single.allLosses
            && merged.wins == single.wins
            && merged.losses == single.losses
            && merged.opponents.GetOr(m, NoMeetings) == single.opponents.GetOr(m, NoMeetings)
  {
    MergeTwoWorkers(Empty(), CategorizeResults(Empty(), u, settings), CategorizeResults(Empty(), v, settings));
    MergedCounters(u, v, settings, n);
    MergedMeetings(u, v, settings, n, m);
  }

  /** Two tables merged as written into `all`, one after the other. */
  lemma MergeTwoWorkersAsWritten(all: ResultMap, first: ResultMap, second: ResultMap)
    requires WellFormed(all) && WellFormed(first) && WellFormed(second)
    ensures AllWellFormed([first, second])
    ensures MergeWorkersAsWritten(all, [first, second])
            == MergeWorkerAsWritten(MergeWorkerAsWritten(all, first, 0), second, 0)
  {
    var mid := MergeWorkerAsWritten(all, first, 0);
    assert [first, second][1..] == [second];
    assert MergeWorkersAsWritten(all, [first, second]) == MergeWorkersAsWritten(mid, [second]);
    assert [second][1..] == [];
    assert MergeWorkersAsWritten(mid, [second]) == MergeWorkersAsWritten(MergeWorkerAsWritten(mid, second, 0), []);
  }

  /** As written, the merge of two workers' tables still counts every team's five
      counters as one table over both workers' events would. */
  lemma MergedCountersAsWritten(u: seq<Standing>, v: seq<Standing>, settings: Settings, n: string)
    ensures var first := CategorizeResults(Empty(), u, settings);
            var second := CategorizeResults(Empty(), v, settings);
            var merged := MergeWorkerAsWritten(MergeWorkerAsWritten(Empty(), first, 0), second, 0).GetOr(n, NoResults);
            CountedFrom(merged, NoResults, u + v, settings, n)
  {
    var first := CategorizeResults(Empty(), u, settings);
    var second := CategorizeResults(Empty(), v, settings);
    var mid := MergeWorkerAsWritten(Empty(), first, 0);
    var merged := MergeWorkerAsWritten(mid, second, 0);
    MergeWorkerAsWrittenSums(Empty(), first, n);
    MergeWorkerAsWrittenSums(mid, second, n);
    CategorizeCounts(Empty(), u, settings, n);
    CategorizeCounts(Empty(), v, settings, n);
    CountedFromAppend(merged.GetOr(n, NoResults), mid.GetOr(n, NoResults), NoResults, u, v, settings, n);
  }

  /** As written, a team the second table lists keeps only the meetings of the second
      worker's events. */
  lemma MergedMeetingsAsWritten(u: seq<Standing>, v: seq<Standing>, settings: Settings, n: string, m: string)
    ensures var first := CategorizeResults(Empty(), u, settings);
            var second := CategorizeResults(Empty(), v, settings);
            var merged := MergeWorkerAsWritten(MergeWorkerAsWritten(Empty(), first, 0), second, 0).GetOr(n, NoResults);
            n in second.values ==> TalliedFrom(merged.opponents.GetOr(m, NoMeetings), NoMeetings, HistoryOf(v, n), m)
  {
    var first := CategorizeResults(Empty(), u, settings);
    var second := CategorizeResults(Empty(), v, settings);
    MergeWorkerAsWrittenOpponents(MergeWorkerAsWritten(Empty(), first, 0), second, n);
    CategorizeTallies(Empty(), v, settings, n, m);
  }

  /** As written, merging two workers' tables counts every team's five counters as
      one table over both workers' events would, but a team the second table lists
      loses exactly the meetings of the first worker's events. */
  lemma MergeAsWrittenDropsEarlierMeetings(u: seq<Standing>, v: seq<Standing>, settings: Settings,
                                           n: string, m: string)
    ensures var first := CategorizeResults(Empty(), u, settings);
            var second := CategorizeResults(Empty(), v, settings);
            var merged := MergeWorkersAsWritten(Empty(), [first, second]).GetOr(n, NoResults);
            var single := CategorizeResults(Empty(), u + v, settings).GetOr(n, NoResults);
            && merged.qualified == single.qualified
            && merged.allWins == single.allWins
            && merged.allLosses == single.allLosses
            && merged.wins == single.wins
            && merged.losses == single.losses
            && (n in second.values ==>
                  merged.opponents.GetOr(m, NoMeetings).total + |Filter(HistoryOf(u, n), Against(m))|
                  == single.opponents.GetOr(m, NoMeetings).total)
  {
    var first := CategorizeResults(Empty(), u, settings);
    var second := CategorizeResults(Empty(), v, settings);
    MergeTwoWorkersAsWritten(Empty(), first, second);
    MergedCountersAsWritten(u, v, settings, n);
    CategorizeCounts(Empty(), u + v, settings, n);
    if n in second.values {
      MergedMeetingsAsWritten(u, v, settings, n, m);
      CategorizeTallies(Empty(), u + v, settings, n, m);
      HistoryOfAppend(u, v, n);
      FilterAppend(HistoryOf(u, n), HistoryOf(v, n), Against(m));
    }
  }

  // ---------------------------------------------------------------------------
  // Invariants the merge keeps
  // ---------------------------------------------------------------------------

  /** Counters made of two balanced ones are balanced. */
  lemma MeetingsAddUpBalanced(r: OpponentCounts, a: OpponentCounts, b: OpponentCounts)
    requires MeetingsAddUp(r, a, b) && Balanced(a) && Balanced(b)
    ensures Balanced(r)
  {
  }

  /** Merging two consistent counters of a team, as written or as intended, gives
      consistent counters. */
  lemma MergeTeamConsistent(prev: TeamResultCounts, next: TeamResultCounts)
    requires TeamConsistent(prev) && TeamConsistent(next)
    ensures TeamConsistent(MergeTeamAsWritten(prev, next)) && TeamConsistent(MergeTeam(prev, next))
  {
    MergeTeamAsWrittenKeepsLaterOpponents(prev, next);
    var merged := MergeTeam(prev, next).opponents;
    forall m | m in merged.values
      ensures Balanced(merged.values[m])
    {
      MergeOpponentsSums(prev.opponents, next.opponents, m);
      GetOrBalanced(prev.opponents, m);
      GetOrBalanced(next.opponents, m);
      MeetingsAddUpBalanced(merged.GetOr(m, NoMeetings), prev.opponents.GetOr(m, NoMeetings),
                            next.opponents.GetOr(m, NoMeetings));
    }
  }

  /** Adding consistent counters of a team to a consistent table keeps it consistent. */
  lemma AddTeamConsistent(all: ResultMap, name: string, teamCounts: TeamResultCounts)
    requires Consistent(all) && TeamConsistent(teamCounts)
    ensures WellFormed(all) && Consistent(AddTeamAsWritten(all, name, teamCounts))
  {
    AddTeamAsWrittenValues(all, name, teamCounts);
    if name in all.values {
      MergeTeamConsistent(all.values[name], teamCounts);
    }
  }

  /** Merging a consistent worker table from its `i`-th team on into a consistent
      total keeps the total consistent. */
  lemma {:induction false} MergeWorkerConsistent(all: ResultMap, worker: ResultMap, i: nat)
    requires Consistent(all) && Consistent(worker) && i <= |worker.keys|
    ensures WellFormed(all) && WellFormed(worker) && Consistent(MergeWorkerAsWritten(all, worker, i))
    decreases |worker.keys| - i
  {
    if i < |worker.keys| {
      var name := worker.keys[i];
      AddTeamConsistent(all, name, worker.values[name]);
      MergeWorkerConsistent(AddTeamAsWritten(all, name, worker.values[name]), worker, i + 1);
    }
  }

  /** Every table of a list is consistent. */
  ghost predicate AllConsistent(workers: seq<ResultMap>)
  {
    forall k | 0 <= k < |workers| :: Consistent(workers[k])
  }

  /** Merging consistent worker tables keeps the total consistent: no team went
      unbeaten more often than it qualified, and every opponent's meetings split
      into Bo1 and Bo3 and include the ones won. */
  lemma {:induction false} MergeWorkersConsistent(all: ResultMap, workers: seq<ResultMap>)
    requires Consistent(all) && AllConsistent(workers)
    ensures WellFormed(all) && AllWellFormed(workers) && Consistent(MergeWorkersAsWritten(all, workers))
    decreases workers
  {
    assert AllWellFormed(workers) by {
      forall k | 0 <= k < |workers| ensures WellFormed(workers[k]) {
        assert Consistent(workers[k]);
      }
    }
    if workers != [] {
      MergeWorkerConsistent(all, workers[0], 0);
      assert AllConsistent(workers[1..]) by {
        forall k | 0 <= k < |workers| - 1 ensures Consistent(workers[1..][k]) {
          assert workers[1..][k] == workers[k + 1];
        }
      }
      MergeWorkersConsistent(MergeWorkerAsWritten(all, workers[0], 0), workers[1..]);
    }
  }

  /** How often one team's counters record it as decided, either way. */
  function Decisions(c: TeamResultCounts): nat
  {
    c.qualified + c.allLosses
  }

  /** Adding one team's counters adds its decisions to that team only. */
  lemma AddTeamDecided(all: ResultMap, name: string, teamCounts: TeamResultCounts, n: string)
    requires WellFormed(all) && teamCounts.opponents.Valid()
    ensures Decided(AddTeamAsWritten(all, name, teamCounts), n) == Decided(all, n) + if n == name then Decisions(teamCounts) else 0
  {
    AddTeamAsWrittenValues(all, name, teamCounts);
  }

  /** Merging a worker's table from its `i`-th team on adds the decisions it holds from there. */
  lemma {:induction false} MergeWorkerDecidedFrom(all: ResultMap, worker: ResultMap, i: nat, n: string)
    requires WellFormed(all) && WellFormed(worker) && i <= |worker.keys|
    ensures Decided(MergeWorkerAsWritten(all, worker, i), n) == Decided(all, n) + Decisions(From(worker, i, n, NoResults))
    decreases |worker.keys| - i
  {
    if i < |worker.keys| {
      var name := worker.keys[i];
      MergeWorkerDecidedFrom(AddTeamAsWritten(all, name, worker.values[name]), worker, i + 1, n);
      AddTeamDecided(all, name, worker.values[name], n);
      FromStep(worker, i, n, NoResults);
    }
  }

  /** Merging one table decides a team as often as both tables decided it together. */
  lemma MergeWorkerDecided(all: ResultMap, worker: ResultMap, n: string)
    requires WellFormed(all) && WellFormed(worker)
    ensures Decided(MergeWorkerAsWritten(all, worker, 0), n) == Decided(all, n) + Decided(worker, n)
  {
    MergeWorkerDecidedFrom(all, worker, 0, n);
    FromStart(worker, n, NoResults);
  }

  /** Every table of a list decided team `n` at most `perWorker` times. */
  ghost predicate EachDecidedWithin(workers: seq<ResultMap>, n: string, perWorker: nat)
  {
    forall k | 0 <= k < |workers| :: Decided(workers[k], n) <= perWorker
  }

  lemma EachDecidedWithinTail(workers: seq<ResultMap>, n: string, perWorker: nat)
    requires workers != [] && AllWellFormed(workers) && EachDecidedWithin(workers, n, perWorker)
    ensures AllWellFormed(workers[1..]) && EachDecidedWithin(workers[1..], n, perWorker)
  {
    forall k | 0 <= k < |workers| - 1
      ensures WellFormed(workers[1..][k]) && Decided(workers[1..][k], n) <= perWorker
    {
      assert workers[1..][k] == workers[k + 1];
    }
  }

  lemma MulStep(k: nat, p: nat)
    requires k > 0
    ensures k * p == p + (k - 1) * p
  {
  }

  /** Merging tables that each decided a team at most `perWorker` times decides it at
      most `perWorker` times per table. */
  lemma {:induction false} MergeWorkersDecided(all: ResultMap, workers: seq<ResultMap>, n: string, perWorker: nat)
    requires WellFormed(all) && AllWellFormed(workers) && EachDecidedWithin(workers, n, perWorker)
    ensures Decided(MergeWorkersAsWritten(all, workers), n) <= Decided(all, n) + |workers| * perWorker
    decreases workers
  {
    if workers != [] {
      MergeWorkerDecided(all, workers[0], n);
      EachDecidedWithinTail(workers, n, perWorker);
      MergeWorkersDecided(MergeWorkerAsWritten(all, workers[0], 0), workers[1..], n, perWorker);
      MulStep(|workers|, perWorker);
    }
  }
}
