/** What a worker makes of many simulated events: `categorizeResults` folds one
    event's final standings into per-team counters (how often a team qualified,
    went unbeaten or winless, its wins and losses, and whom it met in which
    format), and the `onMessage` loop repeats that fold over N events
    (`src/worker/simulation-worker.ts`, lines 52-97 and 341-358; the copy in
    `src/simulator.ts`, lines 145-190, is the same fold). */
module Aggregation {
  import opened Collections
  import opened Standings
  import opened OrderedMaps
  import opened Event

  /** `OpponentCounts`: the meetings with one opponent, by format, and how many were won. */
  datatype OpponentCounts = OpponentCounts(bo1: nat, bo3: nat, total: nat, won: nat)

  /** `TeamResultCounts`: one team's counters over many events. */
  datatype TeamResultCounts = TeamResultCounts(
    qualified: nat,
    allWins: nat,
    allLosses: nat,
    wins: nat,
    losses: nat,
    opponents: OrderedMap<string, OpponentCounts>)

  /** The `Map<string, TeamResultCounts>` a worker fills, keyed by team name. */
  type ResultMap = OrderedMap<string, TeamResultCounts>

  /** The counters of an opponent met for the first time. */
  const NoMeetings: OpponentCounts := OpponentCounts(0, 0, 0, 0)

  /** The counters of a team seen for the first time. */
  const NoResults: TeamResultCounts := TeamResultCounts(0, 0, 0, 0, 0, Empty())

  /** Every map in the table, the outer one and each team's opponents, is a valid ordered map. */
  ghost predicate WellFormed(all: ResultMap)
  {
    all.Valid() && forall n | n in all.values :: all.values[n].opponents.Valid()
  }

  /** Setting a team's counters keeps the table well formed. */
  lemma SetKeepsWellFormed(all: ResultMap, n: string, c: TeamResultCounts)
    requires WellFormed(all) && c.opponents.Valid()
    ensures WellFormed(all.Set(n, c))
  {
  }

  // ---------------------------------------------------------------------------
  // The fold, as functions
  // ---------------------------------------------------------------------------

  /** One history entry counted against its opponent. */
  function CountMeeting(c: OpponentCounts, o: PastOpponent): OpponentCounts
  {
    OpponentCounts(
      bo1 := if o.bestOf == Bo1 then c.bo1 + 1 else c.bo1,
      bo3 := if o.bestOf == Bo1 then c.bo3 else c.bo3 + 1,
      total := c.total + 1,
      won := if o.won then c.won + 1 else c.won)
  }

  /** The inner `forEach` of `categorizeResults`: a team's history, entry by entry,
      counted into its opponents map. */
  function TallyHistory(opponents: OrderedMap<string, OpponentCounts>, history: seq<PastOpponent>)
    : (r: OrderedMap<string, OpponentCounts>)
    requires opponents.Valid()
    ensures r.Valid()
    decreases history
  {
    if history == [] then opponents
    else
      var o := history[0];
      TallyHistory(opponents.Set(o.teamName, CountMeeting(opponents.GetOr(o.teamName, NoMeetings), o)), history[1..])
  }

  /** One final standing added to its team's counters. A team that won `qualWins`
      games qualified (and went unbeaten if it lost none); otherwise a team with
      `elimLosses` losses and no win went winless. */
  function RecordStanding(c: TeamResultCounts, t: Standing, settings: Settings): (r: TeamResultCounts)
    requires c.opponents.Valid()
    ensures r.opponents.Valid()
  {
    var qualified := t.wins == settings.qualWins;
    TeamResultCounts(
      qualified := if qualified then c.qualified + 1 else c.qualified,
      allWins := if qualified && t.losses == 0 then c.allWins + 1 else c.allWins,
      allLosses := if !qualified && t.losses == settings.elimLosses && t.wins == 0 then c.allLosses + 1 else c.allLosses,
      wins := c.wins + t.wins,
      losses := c.losses + t.losses,
      opponents := TallyHistory(c.opponents, t.pastOpponents))
  }

  /** `categorizeResults`: the standings, one after the other, recorded under their
      team's name; a team seen for the first time starts from zero. */
  function CategorizeResults(all: ResultMap, results: seq<Standing>, settings: Settings): (r: ResultMap)
    requires WellFormed(all)
    ensures WellFormed(r)
    decreases results
  {
    if results == [] then all
    else
      var t := results[0];
      CategorizeResults(all.Set(t.name, RecordStanding(all.GetOr(t.name, NoResults), t, settings)), results[1..], settings)
  }

  /** The first entry of a history counted before the rest. */
  lemma TallyHistoryStep(opponents: OrderedMap<string, OpponentCounts>, history: seq<PastOpponent>, j: nat)
    requires opponents.Valid() && j < |history|
    ensures var o := history[j];
            TallyHistory(opponents, history[j..])
            == TallyHistory(opponents.Set(o.teamName, CountMeeting(opponents.GetOr(o.teamName, NoMeetings), o)),
                            history[j + 1..])
  {
    assert history[j..][1..] == history[j + 1..];
  }

  /** The first standing of a list recorded before the rest. */
  lemma CategorizeStep(all: ResultMap, results: seq<Standing>, settings: Settings, i: nat)
    requires WellFormed(all) && i < |results|
    ensures var t := results[i];
            CategorizeResults(all, results[i..], settings)
            == CategorizeResults(all.Set(t.name, RecordStanding(all.GetOr(t.name, NoResults), t, settings)),
                                 results[i + 1..], settings)
  {
    assert results[i..][1..] == results[i + 1..];
  }

  // ---------------------------------------------------------------------------
  // The fold, as the source runs it: one table updated in place
  // ---------------------------------------------------------------------------

  /** The callback of the inner `forEach` of `categorizeResults`: one history entry
      counted into the opponents map. */
  method CountOpponent(opponents: OrderedMap<string, OpponentCounts>, opponent: PastOpponent)
    returns (r: OrderedMap<string, OpponentCounts>)
    requires opponents.Valid()
    ensures r == opponents.Set(opponent.teamName, CountMeeting(opponents.GetOr(opponent.teamName, NoMeetings), opponent))
  {
    var opponentCounts := opponents.GetOr(opponent.teamName, NoMeetings);
    opponentCounts := opponentCounts.(total := opponentCounts.total + 1);
    if opponent.bestOf == Bo1 {
      opponentCounts := opponentCounts.(bo1 := opponentCounts.bo1 + 1);
    } else {
      opponentCounts := opponentCounts.(bo3 := opponentCounts.bo3 + 1);
    }
    if opponent.won {
      opponentCounts := opponentCounts.(won := opponentCounts.won + 1);
    }
    assert opponentCounts == CountMeeting(opponents.GetOr(opponent.teamName, NoMeetings), opponent);
    r := opponents.Set(opponent.teamName, opponentCounts);
  }

  /** The inner loop of `categorizeResults` over one team's history. */
  method CountOpponents(opponents: OrderedMap<string, OpponentCounts>, pastOpponents: seq<PastOpponent>)
    returns (r: OrderedMap<string, OpponentCounts>)
    requires opponents.Valid()
    ensures r == TallyHistory(opponents, pastOpponents)
  {
    r := opponents;
    var j := 0;
    while j < |pastOpponents|
      invariant 0 <= j <= |pastOpponents|
      invariant r.Valid()
      invariant TallyHistory(r, pastOpponents[j..]) == TallyHistory(opponents, pastOpponents)
    {
      TallyHistoryStep(r, pastOpponents, j);
      r := CountOpponent(r, pastOpponents[j]);
      j := j + 1;
    }
  }

  /** The body of the outer `forEach` of `categorizeResults`: one standing added to
      its team's counters. */
  method RecordTeamStanding(teamResult: TeamResultCounts, teamStanding: Standing, qualWins: nat, elimLosses: nat)
    returns (r: TeamResultCounts)
    requires teamResult.opponents.Valid()
    ensures r == RecordStanding(teamResult, teamStanding, Settings(qualWins, elimLosses))
  {
    r := teamResult.(wins := teamResult.wins + teamStanding.wins,
                     losses := teamResult.losses + teamStanding.losses);
    if teamStanding.wins == qualWins {
      r := r.(qualified := r.qualified + 1);
      if teamStanding.losses == 0 {
        r := r.(allWins := r.allWins + 1);
      }
    } else if teamStanding.losses == elimLosses && teamStanding.wins == 0 {
      r := r.(allLosses := r.allLosses + 1);
    }
    var opponents := CountOpponents(r.opponents, teamStanding.pastOpponents);
    r := r.(opponents := opponents);
  }

  /** The `allTeamResults` map a worker keeps and `categorizeResults` updates. */
  class ResultTable {
    var counts: ResultMap

    ghost predicate Valid()
      reads this
    {
      WellFormed(counts)
    }

    /** `new Map()`. */
    constructor ()
      ensures Valid() && counts == Empty()
    {
      counts := Empty();
    }

    /** `categorizeResults(results, qualWins, elimLosses, allTeamResults)`. */
    method Categorize(results: seq<Standing>, qualWins: nat, elimLosses: nat)
      requires Valid()
      modifies this
      ensures Valid()
      ensures counts == CategorizeResults(old(counts), results, Settings(qualWins, elimLosses))
    {
      var settings := Settings(qualWins, elimLosses);
      ghost var target := CategorizeResults(counts, results, settings);
      var i := 0;
      while i < |results|
        invariant 0 <= i <= |results|
        invariant Valid()
        invariant CategorizeResults(counts, results[i..], settings) == target
      {
        var teamStanding := results[i];
        var teamResult := RecordTeamStanding(counts.GetOr(teamStanding.name, NoResults), teamStanding,
                                             qualWins, elimLosses);
        CategorizeStep(counts, results, settings, i);
        SetKeepsWellFormed(counts, teamStanding.name, teamResult);
        counts := counts.Set(teamStanding.name, teamResult);
        i := i + 1;
      }
    }
  }

  // ---------------------------------------------------------------------------
  // The worker's loop over events
  // ---------------------------------------------------------------------------

  /** The outcome of each of a worker's events: event `i` is `simulateEvent`
      drawing its random numbers from `draw(i)`. */
  function EventOutcomes(seedOrder: seq<string>, probs: seq<MatchupProbability>, settings: Settings,
                         draw: nat -> nat -> real): nat -> Result<QualElimOutput>
  {
    (i: nat) => EventOutcome(seedOrder, probs, settings, draw(i))
  }

  /** Events `done` up to `iterations`, each one's qualified and eliminated teams
      categorized into `all`; the first event that cannot be scheduled ends the
      run with its error. */
  function CategorizeEvents(all: ResultMap, done: nat, iterations: nat, events: nat -> Result<QualElimOutput>,
                            settings: Settings): (r: Result<ResultMap>)
    requires WellFormed(all)
    ensures r.Ok? ==> WellFormed(r.value)
    decreases iterations - done
  {
    if done >= iterations then Ok(all)
    else match events(done)
      case Err(e) => Err(e)
      case Ok(out) =>
        CategorizeEvents(CategorizeResults(all, out.qualified + out.eliminated, settings), done + 1, iterations,
                         events, settings)
  }

  /** What a worker posts back: its `iterations` events folded into a fresh table. */
  function WorkerOutcome(iterations: nat, seedOrder: seq<string>, probs: seq<MatchupProbability>, settings: Settings,
                         draw: nat -> nat -> real): Result<ResultMap>
  {
    CategorizeEvents(Empty(), 0, iterations, EventOutcomes(seedOrder, probs, settings, draw), settings)
  }

  /** The first event that cannot be scheduled ends the run with its error: no
      later event is played and no table is posted. */
  lemma {:induction false} CategorizeEventsFails(all: ResultMap, done: nat, iterations: nat,
                                                 events: nat -> Result<QualElimOutput>, settings: Settings, k: nat)
    requires WellFormed(all) && done <= k < iterations && events(k).Err?
    requires forall j | done <= j < k :: events(j).Ok?
    ensures CategorizeEvents(all, done, iterations, events, settings) == Err(events(k).error)
    decreases k - done
  {
    if done < k {
      var out := events(done).value;
      CategorizeEventsFails(CategorizeResults(all, out.qualified + out.eliminated, settings), done + 1, iterations,
                            events, settings, k);
    }
  }

  /** A run in which every event can be scheduled posts a table. */
  lemma {:induction false} CategorizeEventsSucceeds(all: ResultMap, done: nat, iterations: nat,
                                                    events: nat -> Result<QualElimOutput>, settings: Settings)
    requires WellFormed(all)
    requires forall j | done <= j < iterations :: events(j).Ok?
    ensures CategorizeEvents(all, done, iterations, events, settings).Ok?
    decreases iterations - done
  {
    if done < iterations {
      var out := events(done).value;
      CategorizeEventsSucceeds(CategorizeResults(all, out.qualified + out.eliminated, settings), done + 1, iterations,
                               events, settings);
    }
  }

  /** The worker's `onMessage`: `iterations` events folded into one table; an event
      that cannot be scheduled throws out of the loop. */
  method OnMessage(iterations: nat, seedOrder: seq<string>, probabilities: seq<MatchupProbability>,
                   simSettings: Settings, draw: nat -> nat -> real) returns (r: Result<ResultMap>)
    ensures r == WorkerOutcome(iterations, seedOrder, probabilities, simSettings, draw)
  {
    ghost var events := EventOutcomes(seedOrder, probabilities, simSettings, draw);
    var allTeamResults := new ResultTable();
    for i := 0 to iterations
      invariant allTeamResults.Valid()
      invariant CategorizeEvents(allTeamResults.counts, i, iterations, events, simSettings)
                == WorkerOutcome(iterations, seedOrder, probabilities, simSettings, draw)
    {
      var event := SimulateEvent(seedOrder, probabilities, simSettings, draw(i));
      if event.Err? {
        return Err(event.error);
      }
      allTeamResults.Categorize(event.value.qualified + event.value.eliminated,
                                simSettings.qualWins, simSettings.elimLosses);
    }
    r := Ok(allTeamResults.counts);
  }

  // ---------------------------------------------------------------------------
  // What the counters count
  // ---------------------------------------------------------------------------

  /** History entries against `m`. */
  function Against(m: string): PastOpponent -> bool
  {
    (o: PastOpponent) => o.teamName == m
  }

  /** History entries against `m` in format `b`. */
  function AgainstIn(m: string, b: BestOf): PastOpponent -> bool
  {
    (o: PastOpponent) => o.teamName == m && o.bestOf == b
  }

  /** History entries that are wins against `m`. */
  function WonAgainst(m: string): PastOpponent -> bool
  {
    (o: PastOpponent) => o.teamName == m && o.won
  }

  /** `after` is `before` plus the meetings with `m` that `history` records. */
  ghost predicate TalliedFrom(after: OpponentCounts, before: OpponentCounts, history: seq<PastOpponent>, m: string)
  {
    && after.total == before.total + |Filter(history, Against(m))|
    && after.bo1 == before.bo1 + |Filter(history, AgainstIn(m, Bo1))|
    && after.bo3 == before.bo3 + |Filter(history, AgainstIn(m, Bo3))|
    && after.won == before.won + |Filter(history, WonAgainst(m))|
  }

  /** Counting a history adds, for every opponent, one meeting per entry naming it,
      in the entry's format, and one win per entry that was won; an opponent is
      listed afterwards exactly when it was listed before or the history names it. */
  lemma {:induction false} TallyHistoryCounts(opponents: OrderedMap<string, OpponentCounts>,
                                              history: seq<PastOpponent>, m: string)
    requires opponents.Valid()
    ensures TalliedFrom(TallyHistory(opponents, history).GetOr(m, NoMeetings), opponents.GetOr(m, NoMeetings),
                        history, m)
    ensures m in TallyHistory(opponents, history).values
            <==> m in opponents.values || |Filter(history, Against(m))| > 0
    decreases history
  {
    if history != [] {
      var o := history[0];
      var next := opponents.Set(o.teamName, CountMeeting(opponents.GetOr(o.teamName, NoMeetings), o));
      TallyHistoryCounts(next, history[1..], m);
      assert history == [o] + history[1..];
      FilterCons(o, history[1..], Against(m));
      FilterCons(o, history[1..], AgainstIn(m, Bo1));
      FilterCons(o, history[1..], AgainstIn(m, Bo3));
      FilterCons(o, history[1..], WonAgainst(m));
    }
  }

  /** Standings of team `n`. */
  function NamedAs(n: string): Standing -> bool
  {
    (t: Standing) => t.name == n
  }

  /** Standings of team `n` that qualified. */
  function QualifiedAs(n: string, settings: Settings): Standing -> bool
  {
    (t: Standing) => t.name == n && t.wins == settings.qualWins
  }

  /** Standings of team `n` that qualified without a loss. */
  function UnbeatenAs(n: string, settings: Settings): Standing -> bool
  {
    (t: Standing) => t.name == n && t.wins == settings.qualWins && t.losses == 0
  }

  /** Standings of team `n` that did not qualify and lost `elimLosses` games without a win. */
  function WinlessAs(n: string, settings: Settings): Standing -> bool
  {
    (t: Standing) => t.name == n && t.wins != settings.qualWins && t.losses == settings.elimLosses && t.wins == 0
  }

  /** Games won over a list of standings. */
  function WinsOf(ts: seq<Standing>): nat
  {
    if ts == [] then 0 else ts[0].wins + WinsOf(ts[1..])
  }

  /** Games lost over a list of standings. */
  function LossesOf(ts: seq<Standing>): nat
  {
    if ts == [] then 0 else ts[0].losses + LossesOf(ts[1..])
  }

  /** `after` is `before` plus what team `n`'s standings in `results` add. */
  ghost predicate CountedFrom(after: TeamResultCounts, before: TeamResultCounts, results: seq<Standing>,
                              settings: Settings, n: string)
  {
    && after.qualified == before.qualified + |Filter(results, QualifiedAs(n, settings))|
    && after.allWins == before.allWins + |Filter(results, UnbeatenAs(n, settings))|
    && after.allLosses == before.allLosses + |Filter(results, WinlessAs(n, settings))|
    && after.wins == before.wins + WinsOf(Filter(results, NamedAs(n)))
    && after.losses == before.losses + LossesOf(Filter(results, NamedAs(n)))
  }

  /** Sums over a concatenation. */
  lemma {:induction false} TotalsAppend(u: seq<Standing>, v: seq<Standing>)
    ensures WinsOf(u + v) == WinsOf(u) + WinsOf(v)
    ensures LossesOf(u + v) == LossesOf(u) + LossesOf(v)
  {
    if u == [] {
      assert u + v == v;
    } else {
      assert (u + v)[1..] == u[1..] + v;
      TotalsAppend(u[1..], v);
    }
  }

  /** Counting `u` and then `v` counts `u + v`. */
  lemma CountedFromAppend(after: TeamResultCounts, mid: TeamResultCounts, before: TeamResultCounts,
                          u: seq<Standing>, v: seq<Standing>, settings: Settings, n: string)
    requires CountedFrom(mid, before, u, settings, n) && CountedFrom(after, mid, v, settings, n)
    ensures CountedFrom(after, before, u + v, settings, n)
  {
    FilterAppend(u, v, QualifiedAs(n, settings));
    FilterAppend(u, v, UnbeatenAs(n, settings));
    FilterAppend(u, v, WinlessAs(n, settings));
    FilterAppend(u, v, NamedAs(n));
    TotalsAppend(Filter(u, NamedAs(n)), Filter(v, NamedAs(n)));
  }

  /** One standing of team `n` adds to `n`'s counters as `CountedFrom` says. */
  lemma RecordOwnCounts(c: TeamResultCounts, t: Standing, settings: Settings, n: string)
    requires c.opponents.Valid() && t.name == n
    ensures CountedFrom(RecordStanding(c, t, settings), c, [t], settings, n)
  {
    FilterOne(t, QualifiedAs(n, settings));
    FilterOne(t, UnbeatenAs(n, settings));
    FilterOne(t, WinlessAs(n, settings));
    FilterOne(t, NamedAs(n));
  }

  /** A standing of another team adds nothing to `n`'s counters. */
  lemma OtherCounts(c: TeamResultCounts, t: Standing, settings: Settings, n: string)
    requires t.name != n
    ensures CountedFrom(c, c, [t], settings, n)
  {
    FilterOne(t, QualifiedAs(n, settings));
    FilterOne(t, UnbeatenAs(n, settings));
    FilterOne(t, WinlessAs(n, settings));
    FilterOne(t, NamedAs(n));
  }

  /** One standing changes the counters of its own team only, as `CountedFrom` says. */
  lemma RecordOneCounts(all: ResultMap, t: Standing, settings: Settings, n: string)
    requires WellFormed(all)
    ensures CountedFrom(all.Set(t.name, RecordStanding(all.GetOr(t.name, NoResults), t, settings)).GetOr(n, NoResults),
                        all.GetOr(n, NoResults), [t], settings, n)
  {
    if t.name == n {
      RecordOwnCounts(all.GetOr(n, NoResults), t, settings, n);
    } else {
      OtherCounts(all.GetOr(n, NoResults), t, settings, n);
    }
  }

  /** Categorizing a list of standings adds, to each team's counters, one qualification
      per standing of that team with `qualWins` wins, one unbeaten run per such
      standing without a loss, one winless run per standing that did not qualify
      and has `elimLosses` losses and no win, and all its wins and losses. */
  lemma {:induction false} CategorizeCounts(all: ResultMap, results: seq<Standing>, settings: Settings, n: string)
    requires WellFormed(all)
    ensures CountedFrom(CategorizeResults(all, results, settings).GetOr(n, NoResults), all.GetOr(n, NoResults),
                        results, settings, n)
    decreases results
  {
    if results == [] {
      assert Filter(results, NamedAs(n)) == [];
    } else {
      var t := results[0];
      var next := all.Set(t.name, RecordStanding(all.GetOr(t.name, NoResults), t, settings));
      RecordOneCounts(all, t, settings, n);
      CategorizeCounts(next, results[1..], settings, n);
      CountedFromAppend(CategorizeResults(next, results[1..], settings).GetOr(n, NoResults), next.GetOr(n, NoResults),
                        all.GetOr(n, NoResults), [t], results[1..], settings, n);
      assert results == [t] + results[1..];
    }
  }

  /** A team that has no standing in `results` keeps its counters, and is listed
      afterwards exactly when it was listed before. */
  lemma {:induction false} CategorizeLeavesOthers(all: ResultMap, results: seq<Standing>, settings: Settings, n: string)
    requires WellFormed(all)
    requires forall t | t in results :: t.name != n
    ensures n in CategorizeResults(all, results, settings).values <==> n in all.values
    ensures CategorizeResults(all, results, settings).GetOr(n, NoResults) == all.GetOr(n, NoResults)
    decreases results
  {
    if results != [] {
      var t := results[0];
      var next := all.Set(t.name, RecordStanding(all.GetOr(t.name, NoResults), t, settings));
      assert t in results;
      CategorizeLeavesOthers(next, results[1..], settings, n);
    }
  }

  /** The histories of team `n`'s standings in `results`, one after the other. */
  function HistoryOf(results: seq<Standing>, n: string): seq<PastOpponent>
  {
    if results == [] then []
    else (if results[0].name == n then results[0].pastOpponents else []) + HistoryOf(results[1..], n)
  }

  lemma {:induction false} HistoryOfAppend(u: seq<Standing>, v: seq<Standing>, n: string)
    ensures HistoryOf(u + v, n) == HistoryOf(u, n) + HistoryOf(v, n)
  {
    if u == [] {
      assert u + v == v;
    } else {
      assert (u + v)[1..] == u[1..] + v;
      HistoryOfAppend(u[1..], v, n);
    }
  }

  /** Tallying `u` and then `v` tallies `u + v`. */
  lemma TalliedFromAppend(after: OpponentCounts, mid: OpponentCounts, before: OpponentCounts,
                          u: seq<PastOpponent>, v: seq<PastOpponent>, m: string)
    requires TalliedFrom(mid, before, u, m) && TalliedFrom(after, mid, v, m)
    ensures TalliedFrom(after, before, u + v, m)
  {
    FilterAppend(u, v, Against(m));
    FilterAppend(u, v, AgainstIn(m, Bo1));
    FilterAppend(u, v, AgainstIn(m, Bo3));
    FilterAppend(u, v, WonAgainst(m));
  }

  /** One standing tallies its history into its own team's opponents only. */
  lemma RecordOneTallies(all: ResultMap, t: Standing, settings: Settings, n: string, m: string)
    requires WellFormed(all)
    ensures TalliedFrom(all.Set(t.name, RecordStanding(all.GetOr(t.name, NoResults), t, settings))
                          .GetOr(n, NoResults).opponents.GetOr(m, NoMeetings),
                        all.GetOr(n, NoResults).opponents.GetOr(m, NoMeetings),
                        if t.name == n then t.pastOpponents else [], m)
  {
    if t.name == n {
      TallyHistoryCounts(all.GetOr(n, NoResults).opponents, t.pastOpponents, m);
    } else {
      assert Filter([], Against(m)) == [];
      assert Filter([], AgainstIn(m, Bo1)) == [];
      assert Filter([], AgainstIn(m, Bo3)) == [];
      assert Filter([], WonAgainst(m)) == [];
    }
  }

  /** Categorizing a list of standings adds, to each team's counters against each
      opponent, the meetings its histories in `results` record. */
  lemma {:induction false} CategorizeTallies(all: ResultMap, results: seq<Standing>, settings: Settings,
                                             n: string, m: string)
    requires WellFormed(all)
    ensures TalliedFrom(CategorizeResults(all, results, settings).GetOr(n, NoResults).opponents.GetOr(m, NoMeetings),
                        all.GetOr(n, NoResults).opponents.GetOr(m, NoMeetings), HistoryOf(results, n), m)
    decreases results
  {
    if results == [] {
      assert Filter([], Against(m)) == [];
      assert Filter([], AgainstIn(m, Bo1)) == [];
      assert Filter([], AgainstIn(m, Bo3)) == [];
      assert Filter([], WonAgainst(m)) == [];
    } else {
      var t := results[0];
      var next := all.Set(t.name, RecordStanding(all.GetOr(t.name, NoResults), t, settings));
      RecordOneTallies(all, t, settings, n, m);
      CategorizeTallies(next, results[1..], settings, n, m);
      TalliedFromAppend(CategorizeResults(next, results[1..], settings).GetOr(n, NoResults).opponents.GetOr(m, NoMeetings),
                        next.GetOr(n, NoResults).opponents.GetOr(m, NoMeetings),
                        all.GetOr(n, NoResults).opponents.GetOr(m, NoMeetings),
                        if t.name == n then t.pastOpponents else [], HistoryOf(results[1..], n), m);
    }
  }

  // ---------------------------------------------------------------------------
  // Invariants of the counters
  // ---------------------------------------------------------------------------

  /** Every meeting was played in exactly one format, and no more were won than played. */
  predicate Balanced(c: OpponentCounts)
  {
    c.bo1 + c.bo3 == c.total && c.won <= c.total
  }

  ghost predicate BalancedOpponents(o: OrderedMap<string, OpponentCounts>)
  {
    o.Valid() && forall m | m in o.values :: Balanced(o.values[m])
  }

  /** A team went unbeaten no more often than it qualified, and its opponents are balanced. */
  ghost predicate TeamConsistent(c: TeamResultCounts)
  {
    c.allWins <= c.qualified && BalancedOpponents(c.opponents)
  }

  /** The invariant the worker's table keeps. */
  ghost predicate Consistent(all: ResultMap)
  {
    all.Valid() && forall n | n in all.values :: TeamConsistent(all.values[n])
  }

  /** A balanced map yields balanced counters, also for an opponent it does not list. */
  lemma GetOrBalanced(opponents: OrderedMap<string, OpponentCounts>, m: string)
    requires BalancedOpponents(opponents)
    ensures Balanced(opponents.GetOr(m, NoMeetings))
  {
  }

  /** One more meeting keeps a counter balanced. */
  lemma CountMeetingBalanced(c: OpponentCounts, o: PastOpponent)
    requires Balanced(c)
    ensures Balanced(CountMeeting(c, o))
  {
  }

  /** Setting a balanced counter keeps a balanced map balanced. */
  lemma SetKeepsBalance(opponents: OrderedMap<string, OpponentCounts>, m: string, c: OpponentCounts)
    requires BalancedOpponents(opponents) && Balanced(c)
    ensures BalancedOpponents(opponents.Set(m, c))
  {
  }

  /** Counting one history entry keeps every opponent balanced. */
  lemma CountMeetingKeepsBalance(opponents: OrderedMap<string, OpponentCounts>, o: PastOpponent)
    requires BalancedOpponents(opponents)
    ensures BalancedOpponents(opponents.Set(o.teamName, CountMeeting(opponents.GetOr(o.teamName, NoMeetings), o)))
  {
    var before := opponents.GetOr(o.teamName, NoMeetings);
    GetOrBalanced(opponents, o.teamName);
    CountMeetingBalanced(before, o);
    SetKeepsBalance(opponents, o.teamName, CountMeeting(before, o));
  }

  /** Counting a history keeps every opponent balanced. */
  lemma {:induction false} TallyKeepsBalance(opponents: OrderedMap<string, OpponentCounts>, history: seq<PastOpponent>)
    requires BalancedOpponents(opponents)
    ensures BalancedOpponents(TallyHistory(opponents, history))
    decreases history
  {
    if history != [] {
      var o := history[0];
      CountMeetingKeepsBalance(opponents, o);
      TallyKeepsBalance(opponents.Set(o.teamName, CountMeeting(opponents.GetOr(o.teamName, NoMeetings), o)),
                        history[1..]);
    }
  }

  /** Categorizing keeps the table consistent. */
  lemma {:induction false} CategorizeKeepsConsistent(all: ResultMap, results: seq<Standing>, settings: Settings)
    requires Consistent(all)
    ensures WellFormed(all) && Consistent(CategorizeResults(all, results, settings))
    decreases results
  {
    if results != [] {
      var t := results[0];
      var c := all.GetOr(t.name, NoResults);
      assert TeamConsistent(c);
      TallyKeepsBalance(c.opponents, t.pastOpponents);
      var next := all.Set(t.name, RecordStanding(c, t, settings));
      CategorizeKeepsConsistent(next, results[1..], settings);
    }
  }

  // ---------------------------------------------------------------------------
  // A team is decided at most once per event
  // ---------------------------------------------------------------------------

  /** How often team `n` was decided either way: qualified or went winless. */
  function Decided(all: ResultMap, n: string): nat
  {
    all.GetOr(n, NoResults).qualified + all.GetOr(n, NoResults).allLosses
  }

  /** Categorizing decides a team no more often than it has standings. */
  lemma CategorizeDecidesOnce(all: ResultMap, results: seq<Standing>, settings: Settings, n: string)
    requires WellFormed(all)
    ensures Decided(CategorizeResults(all, results, settings), n) <= Decided(all, n) + |Filter(results, NamedAs(n))|
  {
    CategorizeCounts(all, results, settings, n);
    FilterDisjointBound(results, QualifiedAs(n, settings), WinlessAs(n, settings), NamedAs(n));
  }

  /** The standings of team `n` are as many as the times its name occurs. */
  lemma {:induction false} NamedCount(ts: seq<Standing>, n: string)
    ensures |Filter(ts, NamedAs(n))| == multiset(Names(ts))[n]
  {
    if ts != [] {
      var init := ts[..|ts| - 1];
      NamedCount(init, n);
      assert ts == init + [ts[|ts| - 1]];
      MapSeqAppend(init, [ts[|ts| - 1]], NameOf);
    }
  }

  /** No two entries of `s` are equal. */
  ghost predicate Distinct(s: seq<string>)
  {
    forall i, j | 0 <= i < j < |s| :: s[i] != s[j]
  }

  /** A name occurs at most once in a list without repeats. */
  lemma {:induction false} DistinctOnce(s: seq<string>, n: string)
    requires Distinct(s)
    ensures multiset(s)[n] <= 1
  {
    if s != [] {
      assert Distinct(s[1..]) by {
        forall i, j | 0 <= i < j < |s| - 1 ensures s[1..][i] != s[1..][j] {
          assert s[1..][i] == s[i + 1] && s[1..][j] == s[j + 1];
        }
      }
      DistinctOnce(s[1..], n);
      assert s == [s[0]] + s[1..];
      if s[0] == n {
        assert n !in s[1..] by {
          forall k | 0 <= k < |s| - 1 ensures s[1..][k] != n {
            assert s[1..][k] == s[k + 1];
          }
        }
      }
    }
  }

  /** An event that was scheduled ends with the seeded teams, by name, split
      between qualified and eliminated. */
  ghost predicate KeepsField(event: Result<QualElimOutput>, seedOrder: seq<string>)
  {
    event.Ok? ==> multiset(Names(event.value.qualified + event.value.eliminated)) == multiset(seedOrder)
  }

  /** Events `done` up to `iterations` all keep their field. */
  ghost predicate KeepFields(events: nat -> Result<QualElimOutput>, seedOrder: seq<string>, done: nat, iterations: nat)
    decreases iterations - done
  {
    done < iterations ==> KeepsField(events(done), seedOrder) && KeepFields(events, seedOrder, done + 1, iterations)
  }

  /** A worker's events keep their field. */
  lemma {:induction false} EventOutcomesKeepFields(seedOrder: seq<string>, probs: seq<MatchupProbability>,
                                                   settings: Settings, draw: nat -> nat -> real, done: nat,
                                                   iterations: nat)
    ensures KeepFields(EventOutcomes(seedOrder, probs, settings, draw), seedOrder, done, iterations)
    decreases iterations - done
  {
    if done < iterations {
      EventOutcomeKeepsTeams(seedOrder, probs, settings, draw(done));
      EventOutcomesKeepFields(seedOrder, probs, settings, draw, done + 1, iterations);
    }
  }

  /** With distinct team names, one event decides a team at most once. */
  lemma EventDecidesOnce(all: ResultMap, out: QualElimOutput, seedOrder: seq<string>, settings: Settings, n: string)
    requires WellFormed(all) && Distinct(seedOrder)
    requires multiset(Names(out.qualified + out.eliminated)) == multiset(seedOrder)
    ensures Decided(CategorizeResults(all, out.qualified + out.eliminated, settings), n) <= Decided(all, n) + 1
  {
    NamedCount(out.qualified + out.eliminated, n);
    DistinctOnce(seedOrder, n);
    CategorizeDecidesOnce(all, out.qualified + out.eliminated, settings, n);
  }

  /** A finished run decides team `n` at most `bound` times. */
  ghost predicate DecidedWithin(r: Result<ResultMap>, n: string, bound: int)
  {
    r.Ok? ==> Decided(r.value, n) <= bound
  }

  /** If the rest of a run decides team `n` at most once per remaining event, so
      does the run from one event earlier. */
  lemma DecidedWithinStep(all: ResultMap, done: nat, iterations: nat, events: nat -> Result<QualElimOutput>,
                          settings: Settings, seedOrder: seq<string>, n: string)
    requires WellFormed(all) && done < iterations && Distinct(seedOrder)
    requires events(done).Ok? && KeepsField(events(done), seedOrder)
    requires var out := events(done).value;
             var next := CategorizeResults(all, out.qualified + out.eliminated, settings);
             DecidedWithin(CategorizeEvents(next, done + 1, iterations, events, settings), n,
                           Decided(next, n) + (iterations - (done + 1)))
    ensures DecidedWithin(CategorizeEvents(all, done, iterations, events, settings), n,
                          Decided(all, n) + (iterations - done))
  {
    EventDecidesOnce(all, events(done).value, seedOrder, settings, n);
  }

  /** With distinct team names, each remaining event decides a team at most once. */
  lemma {:induction false} CategorizeEventsDecideOnce(all: ResultMap, done: nat, iterations: nat,
                                                      events: nat -> Result<QualElimOutput>, settings: Settings,
                                                      seedOrder: seq<string>, n: string)
    requires WellFormed(all) && done <= iterations && Distinct(seedOrder)
    requires KeepFields(events, seedOrder, done, iterations)
    ensures DecidedWithin(CategorizeEvents(all, done, iterations, events, settings), n,
                          Decided(all, n) + (iterations - done))
    decreases iterations - done
  {
    if done < iterations && events(done).Ok? {
      var out := events(done).value;
      CategorizeEventsDecideOnce(CategorizeResults(all, out.qualified + out.eliminated, settings), done + 1,
                                 iterations, events, settings, seedOrder, n);
      DecidedWithinStep(all, done, iterations, events, settings, seedOrder, n);
    }
  }

  /** With distinct team names, a worker's table never counts a team as qualified
      or winless more often than there were events. */
  lemma WorkerDecidesAtMostOncePerEvent(iterations: nat, seedOrder: seq<string>, probs: seq<MatchupProbability>,
                                        settings: Settings, draw: nat -> nat -> real)
    requires Distinct(seedOrder)
    ensures var r := WorkerOutcome(iterations, seedOrder, probs, settings, draw);
            r.Ok? ==> forall n | n in r.value.values ::
                        r.value.values[n].qualified + r.value.values[n].allLosses <= iterations
  {
    var r := WorkerOutcome(iterations, seedOrder, probs, settings, draw);
    EventOutcomesKeepFields(seedOrder, probs, settings, draw, 0, iterations);
    if r.Ok? {
      forall n | n in r.value.values
        ensures r.value.values[n].qualified + r.value.values[n].allLosses <= iterations
      {
        CategorizeEventsDecideOnce(Empty(), 0, iterations, EventOutcomes(seedOrder, probs, settings, draw), settings,
                                   seedOrder, n);
      }
    }
  }

  /** A run of events keeps the table consistent. */
  lemma {:induction false} CategorizeEventsKeepConsistent(all: ResultMap, done: nat, iterations: nat,
                                                          events: nat -> Result<QualElimOutput>, settings: Settings)
    requires Consistent(all)
    ensures WellFormed(all)
    ensures var r := CategorizeEvents(all, done, iterations, events, settings); r.Ok? ==> Consistent(r.value)
    decreases iterations - done
  {
    CategorizeKeepsConsistent(all, [], settings);
    if done < iterations && events(done).Ok? {
      var out := events(done).value;
      CategorizeKeepsConsistent(all, out.qualified + out.eliminated, settings);
      CategorizeEventsKeepConsistent(CategorizeResults(all, out.qualified + out.eliminated, settings), done + 1,
                                     iterations, events, settings);
    }
  }

  /** A worker's table is consistent: nobody went unbeaten more often than it
      qualified, and every opponent's meetings split exactly into Bo1 and Bo3 with
      no more wins than meetings. */
  lemma WorkerOutcomeConsistent(iterations: nat, seedOrder: seq<string>, probs: seq<MatchupProbability>,
                                settings: Settings, draw: nat -> nat -> real)
    ensures var r := WorkerOutcome(iterations, seedOrder, probs, settings, draw); r.Ok? ==> Consistent(r.value)
  {
    CategorizeEventsKeepConsistent(Empty(), 0, iterations, EventOutcomes(seedOrder, probs, settings, draw), settings);
  }
}
