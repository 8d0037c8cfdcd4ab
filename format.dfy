/** Turning the merged counters into the lists the result viewer shows
    (`formatResultsCounts`, `src/simulator.ts` lines 434-489), and reading the
    seed order off the seeding form (`getSeedOrder`, lines 192-195; the worker
    copy is `src/worker/simulation-worker.ts` lines 99-102).

    Every rate the formatter computes is a JavaScript division; it is kept here
    as the exact quotient `Ratio(num, den)`. All rates of one list share the
    denominator `iterations`, so the comparator `b.rate - a.rate` compares the
    numerators when `iterations > 0`. When `iterations == 0` every listed rate
    is `Infinity` (a listed count is non-zero) or `NaN`, every difference is
    `NaN`, and `Array.prototype.sort` treats `NaN` as a tie. */
module ResultFormat {
  import opened Collections
  import opened OrderedMaps
  import opened Aggregation
  import opened Standings

  /** The quotient `num / den` of a JavaScript division, kept exact. */
  datatype Ratio = Ratio(num: nat, den: nat)

  /** `OpponentRate`: meetings with one opponent per simulated event, by format, and the share won. */
  datatype OpponentRate = OpponentRate(
    teamName: string,
    totalRate: Ratio,
    bo1Rate: Ratio,
    bo3Rate: Ratio,
    winRate: Ratio)

  /** `TeamResults`: a team's entry in one of the result lists. */
  datatype TeamResults = TeamResults(
    teamName: string,
    rate: Ratio,
    opponents: seq<OpponentRate>,
    winRate: Ratio)

  /** `SimulationResults`: the three lists, the number of events asked for and the settings. */
  datatype SimulationResults = SimulationResults(
    qualified: seq<TeamResults>,
    allWins: seq<TeamResults>,
    allLosses: seq<TeamResults>,
    iterations: nat,
    qualWins: nat,
    elimLosses: nat)

  /** The three lists a team can be entered in. */
  datatype ListKind = QualifiedList | AllWinsList | AllLossesList

  /** The counter a list is built from. */
  function CountOf(c: TeamResultCounts, kind: ListKind): nat
  {
    match kind
    case QualifiedList => c.qualified
    case AllWinsList => c.allWins
    case AllLossesList => c.allLosses
  }

  function ListOf(r: SimulationResults, kind: ListKind): seq<TeamResults>
  {
    match kind
    case QualifiedList => r.qualified
    case AllWinsList => r.allWins
    case AllLossesList => r.allLosses
  }

  // ---------------------------------------------------------------------------
  // Opponent lists
  // ---------------------------------------------------------------------------

  /** One opponent's counters as rates over `iterations` events; the win rate is over the meetings. */
  function FormatOpponent(name: string, c: OpponentCounts, iterations: nat): OpponentRate
  {
    OpponentRate(name, Ratio(c.total, iterations), Ratio(c.bo1, iterations), Ratio(c.bo3, iterations),
                 Ratio(c.won, c.total))
  }

  /** The comparator `(a, b) => b.totalRate - a.totalRate` is negative: `a` was met more often. */
  function OpponentAhead(iterations: nat): (OpponentRate, OpponentRate) -> bool
  {
    (a: OpponentRate, b: OpponentRate) => iterations > 0 && a.totalRate.num > b.totalRate.num
  }

  lemma OpponentAheadOrders(iterations: nat)
    ensures StrictWeakOrder(OpponentAhead(iterations))
  {
  }

  /** A team's opponents map, formatted entry by entry and sorted by meetings, most first. */
  function FormatOpponents(opponents: OrderedMap<string, OpponentCounts>, iterations: nat): seq<OpponentRate>
    requires opponents.Valid()
  {
    OpponentAheadOrders(iterations);
    var formatted := MapSeq(opponents.Entries(),
                            (e: (string, OpponentCounts)) => FormatOpponent(e.0, e.1, iterations));
    InsertionSort(formatted, OpponentAhead(iterations))
  }

  /** The formatted opponents are exactly the opponents of the map, each formatted from its
      own counters, once per opponent, most often met first. */
  lemma FormatOpponentsContents(opponents: OrderedMap<string, OpponentCounts>, iterations: nat)
    requires opponents.Valid()
    ensures var r := FormatOpponents(opponents, iterations);
      && |r| == |opponents.keys|
      && (forall x | x in r :: x.teamName in opponents.values
                               && x == FormatOpponent(x.teamName, opponents.values[x.teamName], iterations))
      && (forall m | m in opponents.values :: FormatOpponent(m, opponents.values[m], iterations) in r)
      && (forall i, j | 0 <= i < j < |r| :: iterations > 0 ==> r[i].totalRate.num >= r[j].totalRate.num)
  {
    var es := opponents.Entries();
    var f := (e: (string, OpponentCounts)) => FormatOpponent(e.0, e.1, iterations);
    var formatted := MapSeq(es, f);
    var r := FormatOpponents(opponents, iterations);
    assert multiset(r) == multiset(formatted);
    assert |r| == |multiset(r)| == |formatted|;
    forall x | x in r
      ensures x.teamName in opponents.values
      ensures x == FormatOpponent(x.teamName, opponents.values[x.teamName], iterations)
    {
      assert x in multiset(formatted);
      MapSeqMember(es, f, x);
      var k :| 0 <= k < |es| && x == f(es[k]);
      assert es[k] == (opponents.keys[k], opponents.values[opponents.keys[k]]);
    }
    forall m | m in opponents.values
      ensures FormatOpponent(m, opponents.values[m], iterations) in r
    {
      var k :| 0 <= k < |opponents.keys| && opponents.keys[k] == m;
      MapSeqMember(es, f, f(es[k]));
      assert f(es[k]) in multiset(r);
    }
    forall i, j | 0 <= i < j < |r| ensures iterations > 0 ==> r[i].totalRate.num >= r[j].totalRate.num {
      assert !OpponentAhead(iterations)(r[j], r[i]);
    }
  }

  // ---------------------------------------------------------------------------
  // Team lists
  // ---------------------------------------------------------------------------

  /** A team's entry in a list: its count as a rate over `iterations`, its formatted
      opponents, and its share of matches won. */
  function TeamEntry(name: string, c: TeamResultCounts, kind: ListKind, iterations: nat): TeamResults
    requires c.opponents.Valid()
  {
    TeamResults(name, Ratio(CountOf(c, kind), iterations), FormatOpponents(c.opponents, iterations),
                Ratio(c.wins, c.wins + c.losses))
  }

  ghost predicate OpponentsValid(entries: seq<(string, TeamResultCounts)>)
  {
    forall k | 0 <= k < |entries| :: entries[k].1.opponents.Valid()
  }

  /** The `reduce` over the table's entries, as seen by one list: a team is pushed when its
      count for that list is non-zero (the `if (resultCounts.qualified)` tests). The three
      lists are built by the same pass and do not affect each other. */
  function Collect(entries: seq<(string, TeamResultCounts)>, kind: ListKind, iterations: nat): seq<TeamResults>
    requires OpponentsValid(entries)
  {
    if entries == [] then []
    else
      var init := entries[..|entries| - 1];
      var e := entries[|entries| - 1];
      assert forall k | 0 <= k < |init| :: init[k] == entries[k];
      Collect(init, kind, iterations) + (if CountOf(e.1, kind) != 0 then [TeamEntry(e.0, e.1, kind, iterations)] else [])
  }

  /** Every collected entry is the entry of a team whose count is non-zero. */
  lemma {:induction false} CollectSound(entries: seq<(string, TeamResultCounts)>, kind: ListKind, iterations: nat,
                                        t: TeamResults)
    requires OpponentsValid(entries) && t in Collect(entries, kind, iterations)
    ensures exists k | 0 <= k < |entries| ::
              CountOf(entries[k].1, kind) != 0 && t == TeamEntry(entries[k].0, entries[k].1, kind, iterations)
  {
    var init := entries[..|entries| - 1];
    assert forall k | 0 <= k < |init| :: init[k] == entries[k];
    var e := entries[|entries| - 1];
    if t in Collect(init, kind, iterations) {
      CollectSound(init, kind, iterations, t);
      var k :| 0 <= k < |init| && CountOf(init[k].1, kind) != 0 && t == TeamEntry(init[k].0, init[k].1, kind, iterations);
      assert entries[k] == init[k];
    } else {
      assert CountOf(e.1, kind) != 0 && t == TeamEntry(e.0, e.1, kind, iterations);
    }
  }

  /** Every team whose count is non-zero is collected. */
  lemma {:induction false} CollectComplete(entries: seq<(string, TeamResultCounts)>, kind: ListKind, iterations: nat,
                                           k: nat)
    requires OpponentsValid(entries) && k < |entries| && CountOf(entries[k].1, kind) != 0
    ensures TeamEntry(entries[k].0, entries[k].1, kind, iterations) in Collect(entries, kind, iterations)
  {
    var init := entries[..|entries| - 1];
    assert forall i | 0 <= i < |init| :: init[i] == entries[i];
    if k < |init| {
      CollectComplete(init, kind, iterations, k);
    }
  }

  /** The comparator `(a, b) => b.rate - a.rate` is negative: `a` has the higher rate. */
  function RateAhead(iterations: nat): (TeamResults, TeamResults) -> bool
  {
    (a: TeamResults, b: TeamResults) => iterations > 0 && a.rate.num > b.rate.num
  }

  lemma RateAheadOrders(iterations: nat)
    ensures StrictWeakOrder(RateAhead(iterations))
  {
  }

  lemma EntriesOpponentsValid(all: ResultMap)
    requires WellFormed(all)
    ensures OpponentsValid(all.Entries())
  {
    var es := all.Entries();
    forall k | 0 <= k < |es| ensures es[k].1.opponents.Valid() {
      assert all.keys[k] in all.values;
    }
  }

  /** One result list: the collected entries sorted by rate, highest first. */
  function FormatList(all: ResultMap, kind: ListKind, iterations: nat): seq<TeamResults>
    requires WellFormed(all)
  {
    EntriesOpponentsValid(all);
    RateAheadOrders(iterations);
    InsertionSort(Collect(all.Entries(), kind, iterations), RateAhead(iterations))
  }

  /** A result list is sorted by rate, highest first. */
  lemma FormatListSorted(all: ResultMap, kind: ListKind, iterations: nat)
    requires WellFormed(all)
    ensures var r := FormatList(all, kind, iterations);
      forall i, j | 0 <= i < j < |r| :: iterations > 0 ==> r[i].rate.num >= r[j].rate.num
  {
    var r := FormatList(all, kind, iterations);
    forall i, j | 0 <= i < j < |r| ensures iterations > 0 ==> r[i].rate.num >= r[j].rate.num {
      assert !RateAhead(iterations)(r[j], r[i]);
    }
  }

  /** `formatResultsCounts`. */
  function FormatResultsCounts(all: ResultMap, settings: Settings, iterations: nat): (r: SimulationResults)
    requires WellFormed(all)
    ensures r.iterations == iterations && r.qualWins == settings.qualWins && r.elimLosses == settings.elimLosses
    ensures forall kind: ListKind, i, j | 0 <= i < j < |ListOf(r, kind)| ::
              iterations > 0 ==> ListOf(r, kind)[i].rate.num >= ListOf(r, kind)[j].rate.num
  {
    FormatListSorted(all, QualifiedList, iterations);
    FormatListSorted(all, AllWinsList, iterations);
    FormatListSorted(all, AllLossesList, iterations);
    SimulationResults(
      FormatList(all, QualifiedList, iterations),
      FormatList(all, AllWinsList, iterations),
      FormatList(all, AllLossesList, iterations),
      iterations, settings.qualWins, settings.elimLosses)
  }

  /** A listed entry is the entry of a team of the table whose count is non-zero. */
  lemma FormatListSound(all: ResultMap, kind: ListKind, iterations: nat, t: TeamResults)
    requires WellFormed(all) && t in FormatList(all, kind, iterations)
    ensures t.teamName in all.values && CountOf(all.values[t.teamName], kind) != 0
    ensures t == TeamEntry(t.teamName, all.values[t.teamName], kind, iterations)
  {
    EntriesOpponentsValid(all);
    var es := all.Entries();
    assert t in multiset(Collect(es, kind, iterations));
    CollectSound(es, kind, iterations, t);
    var k :| 0 <= k < |es| && CountOf(es[k].1, kind) != 0 && t == TeamEntry(es[k].0, es[k].1, kind, iterations);
    assert es[k] == (all.keys[k], all.values[all.keys[k]]);
  }

  /** Every team of the table whose count is non-zero is listed. */
  lemma FormatListComplete(all: ResultMap, kind: ListKind, iterations: nat, n: string)
    requires WellFormed(all) && n in all.values && CountOf(all.values[n], kind) != 0
    ensures TeamEntry(n, all.values[n], kind, iterations) in FormatList(all, kind, iterations)
  {
    EntriesOpponentsValid(all);
    var es := all.Entries();
    var k :| 0 <= k < |all.keys| && all.keys[k] == n;
    assert es[k] == (n, all.values[n]);
    CollectComplete(es, kind, iterations, k);
    assert TeamEntry(n, all.values[n], kind, iterations) in multiset(FormatList(all, kind, iterations));
  }

  /** A team is entered in a list exactly when its count for that list is non-zero. */
  lemma FormatListsTeam(all: ResultMap, settings: Settings, iterations: nat, kind: ListKind, n: string)
    requires WellFormed(all)
    ensures (exists t | t in ListOf(FormatResultsCounts(all, settings, iterations), kind) :: t.teamName == n)
            <==> n in all.values && CountOf(all.values[n], kind) != 0
  {
    var r := FormatList(all, kind, iterations);
    assert ListOf(FormatResultsCounts(all, settings, iterations), kind) == r;
    if t :| t in r && t.teamName == n {
      FormatListSound(all, kind, iterations, t);
    }
    if n in all.values && CountOf(all.values[n], kind) != 0 {
      FormatListComplete(all, kind, iterations, n);
    }
  }

  /** A listed team's entry is made from its own counters: the list's count (non-zero) over
      `iterations`, its share of matches won, and its formatted opponents. */
  lemma FormatListedEntry(all: ResultMap, settings: Settings, iterations: nat, kind: ListKind, t: TeamResults)
    requires WellFormed(all)
    requires t in ListOf(FormatResultsCounts(all, settings, iterations), kind)
    ensures t.teamName in all.values
    ensures var c := all.values[t.teamName];
      && t.rate == Ratio(CountOf(c, kind), iterations) && t.rate.num != 0
      && t.winRate == Ratio(c.wins, c.wins + c.losses)
      && t.opponents == FormatOpponents(c.opponents, iterations)
  {
    assert ListOf(FormatResultsCounts(all, settings, iterations), kind) == FormatList(all, kind, iterations);
    FormatListSound(all, kind, iterations, t);
  }

  // ---------------------------------------------------------------------------
  // Seed order (`getSeedOrder`)
  // ---------------------------------------------------------------------------

  /** A seeding form entry: the seed, already read as an integer, and the team name. */
  type SeedEntry = (int, string)

  function TeamOf(e: SeedEntry): string
  {
    e.1
  }

  /** The comparator `parseInt(seedA) - parseInt(seedB)` is negative. */
  predicate SeedAhead(a: SeedEntry, b: SeedEntry)
  {
    a.0 < b.0
  }

  lemma SeedAheadOrders()
    ensures StrictWeakOrder(SeedAhead)
  {
  }

  /** The team names of the seeding form, lowest seed first. */
  function SeedOrder(seeding: seq<SeedEntry>): (r: seq<string>)
    ensures |r| == |seeding|
    ensures multiset(r) == multiset(MapSeq(seeding, TeamOf))
  {
    SeedAheadOrders();
    var sorted := InsertionSort(seeding, SeedAhead);
    MapSeqMultiset(sorted, seeding, TeamOf);
    MapSeq(sorted, TeamOf)
  }

  /** With distinct seeds, the seed order is the team names read off the seeding
      arranged by seed, whichever way that arrangement was obtained. */
  lemma SeedOrderBySeed(seeding: seq<SeedEntry>, bySeed: seq<SeedEntry>)
    requires forall i, j | 0 <= i < j < |seeding| :: seeding[i].0 != seeding[j].0
    requires multiset(bySeed) == multiset(seeding)
    requires forall i, j | 0 <= i < j < |bySeed| :: bySeed[i].0 < bySeed[j].0
    ensures SeedOrder(seeding) == MapSeq(bySeed, TeamOf)
  {
    SeedAheadOrders();
    var sorted := InsertionSort(seeding, SeedAhead);
    forall x, y | x in sorted && y in sorted && x != y ensures SeedAhead(x, y) || SeedAhead(y, x) {
      assert x in multiset(seeding) && y in multiset(seeding);
      var i :| 0 <= i < |seeding| && seeding[i] == x;
      var j :| 0 <= j < |seeding| && seeding[j] == y;
    }
    SortedRearrangementUnique(sorted, bySeed, SeedAhead);
  }
}
