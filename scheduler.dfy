/** The round scheduler (`src/simulator.ts`, lines 108-343; the worker copy in
    `src/worker/simulation-worker.ts`, lines 15-250): difficulty scores, record
    groups, the order inside a group, the six-team priority table, the greedy
    pairing of every other group size, and a whole round's matchups. */
module Scheduler {
  import opened Collections
  import opened OrderedMaps
  import opened Standings

  // ---------------------------------------------------------------------------
  // Difficulty scores (`calculateDifficulties`)
  // ---------------------------------------------------------------------------

  /** `teamsStandings.find(s => s.name === name)`, as the index of the first standing with that name. */
  function FirstNamed(s: seq<Standing>, name: string): (r: Option<nat>)
    ensures r.Some? ==> r.value < |s| && s[r.value].name == name
    ensures r.Some? ==> forall j | 0 <= j < r.value :: s[j].name != name
    ensures r.None? ==> forall j | 0 <= j < |s| :: s[j].name != name
  {
    if s == [] then None
    else if s[0].name == name then Some(0)
    else match FirstNamed(s[1..], name)
      case None => None
      case Some(j) => Some(j + 1)
  }

  /** What one past opponent adds to a difficulty score: its current wins minus
      losses as found in `s`, or nothing when no standing of `s` has its name. */
  function OpponentDifferential(s: seq<Standing>, name: string): int
  {
    match FirstNamed(s, name)
    case None => 0
    case Some(i) => Differential(s[i])
  }

  /** The `reduce` over a team's past opponents, from the first entry to the last. */
  function Difficulty(s: seq<Standing>, opponents: seq<PastOpponent>): int
  {
    if opponents == [] then 0
    else Difficulty(s, opponents[..|opponents| - 1]) + OpponentDifferential(s, opponents[|opponents| - 1].teamName)
  }

  /** A difficulty score is additive over the history: the scores of two parts of
      a history add up to the score of the whole. */
  lemma {:induction false} DifficultyAppend(s: seq<Standing>, a: seq<PastOpponent>, b: seq<PastOpponent>)
    ensures Difficulty(s, a + b) == Difficulty(s, a) + Difficulty(s, b)
  {
    if b != [] {
      var last := |b| - 1;
      assert (a + b)[..|a + b| - 1] == a + b[..last];
      DifficultyAppend(s, a, b[..last]);
    } else {
      assert a + b == a;
    }
  }

  /** An opponent that is not in the standings list adds nothing to the score. */
  lemma AbsentOpponentAddsNothing(s: seq<Standing>, opponents: seq<PastOpponent>, o: PastOpponent)
    requires forall j | 0 <= j < |s| :: s[j].name != o.teamName
    ensures Difficulty(s, opponents + [o]) == Difficulty(s, opponents)
  {
    assert FirstNamed(s, o.teamName) == None;
    assert (opponents + [o])[..|opponents|] == opponents;
  }

  /** An opponent found in the list adds its current wins minus losses, whatever
      the position of the entry in the history. */
  lemma PresentOpponentAddsDifferential(s: seq<Standing>, before: seq<PastOpponent>, o: PastOpponent,
                                        after: seq<PastOpponent>, i: nat)
    requires i < |s| && s[i].name == o.teamName
    requires forall j | 0 <= j < i :: s[j].name != o.teamName
    ensures Difficulty(s, before + [o] + after) == Difficulty(s, before) + Differential(s[i]) + Difficulty(s, after)
  {
    DifficultyAppend(s, before + [o], after);
    DifficultyAppend(s, before, [o]);
    assert [o][..0] == [];
  }

  /** `calculateDifficulties`: every standing, unchanged, with its difficulty
      score against the standings of the same list. */
  function CalculateDifficulties(s: seq<Standing>): (r: seq<RankedStanding>)
    ensures |r| == |s|
    ensures forall i | 0 <= i < |s| :: r[i].standing == s[i]
    ensures forall i | 0 <= i < |s| :: r[i].difficulty == Difficulty(s, s[i].pastOpponents)
  {
    seq(|s|, i requires 0 <= i < |s| => RankedStanding(s[i], Difficulty(s, s[i].pastOpponents)))
  }

  // ---------------------------------------------------------------------------
  // Record groups (`splitStandingsToRecordGroups`)
  // ---------------------------------------------------------------------------

  /** The key of a team's group. */
  function RecordKey(t: RankedStanding): int
  {
    Differential(t.standing)
  }

  /** Whether a team belongs to the group with record `k`. */
  function HasRecord(k: int): (RankedStanding -> bool)
  {
    t => RecordKey(t) == k
  }

  /** The `reduce` that fills the `Map` from record to group: a team joins the end
      of its record's group, and a record met for the first time opens a group. */
  function GroupByRecord(ts: seq<RankedStanding>): (m: OrderedMap<int, seq<RankedStanding>>)
    ensures m.Valid()
  {
    if ts == [] then Empty()
    else
      var m := GroupByRecord(ts[..|ts| - 1]);
      var t := ts[|ts| - 1];
      var k := RecordKey(t);
      if k in m.values then m.Set(k, m.values[k] + [t]) else m.Set(k, [t])
  }

  /** `splitStandingsToRecordGroups(...).values()`: the groups in the order their records first occur. */
  function SplitStandingsToRecordGroups(ts: seq<RankedStanding>): seq<seq<RankedStanding>>
  {
    GroupByRecord(ts).Values()
  }

  /** The map has a group for exactly the records some team has, and each group
      is the list of the teams with that record, in input order. */
  lemma {:induction false} GroupByRecordIsFilter(ts: seq<RankedStanding>)
    ensures forall k :: k in GroupByRecord(ts).values <==> exists t | t in ts :: RecordKey(t) == k
    ensures forall k | k in GroupByRecord(ts).values :: GroupByRecord(ts).values[k] == Filter(ts, HasRecord(k))
  {
    if ts != [] {
      var init, t := ts[..|ts| - 1], ts[|ts| - 1];
      GroupByRecordIsFilter(init);
      assert ts == init + [t];
      forall k ensures (exists u | u in ts :: RecordKey(u) == k) ==> k in GroupByRecord(ts).values {
        if u :| u in ts && RecordKey(u) == k {
          assert u == t || u in init;
        }
      }
      var m := GroupByRecord(init);
      if RecordKey(t) !in m.values {
        FilterNone(init, HasRecord(RecordKey(t)));
      }
    }
  }

  /** Every group of the map is non-empty. */
  lemma {:induction false} GroupValuesNonEmpty(ts: seq<RankedStanding>)
    ensures forall k | k in GroupByRecord(ts).values :: GroupByRecord(ts).values[k] != []
  {
    if ts != [] {
      GroupValuesNonEmpty(ts[..|ts| - 1]);
    }
  }

  /** Every group is non-empty. */
  lemma GroupsNonEmpty(ts: seq<RankedStanding>)
    ensures forall g | g in SplitStandingsToRecordGroups(ts) :: g != []
  {
    var m := GroupByRecord(ts);
    GroupValuesNonEmpty(ts);
    forall g | g in SplitStandingsToRecordGroups(ts) ensures g != [] {
      var i :| 0 <= i < |m.keys| && m.Values()[i] == g;
      var k := m.keys[i];
      assert k in m.values && g == m.values[k];
      assert m.values[k] != [];
    }
  }

  /** The `i`-th group holds the teams whose record is the `i`-th key, in input order. */
  lemma GroupAt(ts: seq<RankedStanding>, i: nat)
    requires i < |SplitStandingsToRecordGroups(ts)|
    ensures SplitStandingsToRecordGroups(ts)[i] == Filter(ts, HasRecord(GroupByRecord(ts).keys[i]))
    ensures forall t | t in SplitStandingsToRecordGroups(ts)[i] :: RecordKey(t) == GroupByRecord(ts).keys[i]
  {
    GroupByRecordIsFilter(ts);
  }

  /** Records are listed in the order they first occur: the records of a prefix of
      the input are a prefix of the records of the whole input. */
  lemma {:induction false} GroupKeysFollowFirstOccurrence(ts: seq<RankedStanding>, p: nat)
    requires p <= |ts|
    ensures GroupByRecord(ts[..p]).keys <= GroupByRecord(ts).keys
  {
    if p < |ts| {
      assert ts[..|ts| - 1][..p] == ts[..p];
      GroupKeysFollowFirstOccurrence(ts[..|ts| - 1], p);
    } else {
      assert ts[..p] == ts;
    }
  }

  /** Every team lands in exactly one group: the groups, one after the other,
      hold the input teams and nothing else. */
  lemma {:induction false} SplitIsPartition(ts: seq<RankedStanding>)
    ensures multiset(Flatten(SplitStandingsToRecordGroups(ts))) == multiset(ts)
  {
    if ts != [] {
      var init, t := ts[..|ts| - 1], ts[|ts| - 1];
      SplitIsPartition(init);
      assert ts == init + [t];
      var m := GroupByRecord(init);
      var k := RecordKey(t);
      if k in m.values {
        var i :| 0 <= i < |m.keys| && m.keys[i] == k;
        SetExistingValues(m, i, m.values[k] + [t]);
        FlattenAppendToGroup(m.Values(), i, t);
      } else {
        SetNewValues(m, k, [t]);
        var vs := m.Values() + [[t]];
        assert vs[..|vs| - 1] == m.Values();
      }
    }
  }

  // ---------------------------------------------------------------------------
  // The order inside a group (`sortRecordGroup`)
  // ---------------------------------------------------------------------------

  /** The comparator: `a` goes ahead of `b` when its difficulty is higher, or when
      the difficulties are equal and its seed is lower. */
  predicate RanksAhead(a: RankedStanding, b: RankedStanding)
  {
    b.difficulty < a.difficulty || (a.difficulty == b.difficulty && a.standing.seed < b.standing.seed)
  }

  /** The comparator is consistent, so the sort is well defined. */
  lemma RanksAheadIsStrictWeakOrder()
    ensures StrictWeakOrder(RanksAhead)
  {
  }

  /** `sortRecordGroup`: the group sorted by difficulty descending, then seed ascending. */
  function SortRecordGroup(g: seq<RankedStanding>): (r: seq<RankedStanding>)
    ensures multiset(r) == multiset(g)
    ensures forall i, j | 0 <= i < j < |r| ::
              r[j].difficulty < r[i].difficulty
              || (r[j].difficulty == r[i].difficulty && r[i].standing.seed <= r[j].standing.seed)
  {
    RanksAheadIsStrictWeakOrder();
    var r := InsertionSort(g, RanksAhead);
    assert SortedBy(r, RanksAhead);
    r
  }

  /** With distinct seeds the order is total: the sorted group is the only
      ordering of its teams that the comparator accepts. */
  lemma SortedGroupIsUnique(g: seq<RankedStanding>, other: seq<RankedStanding>)
    requires forall i, j | 0 <= i < j < |g| :: g[i].standing.seed != g[j].standing.seed
    requires multiset(other) == multiset(g)
    requires SortedBy(other, RanksAhead)
    ensures other == SortRecordGroup(g)
  {
    RanksAheadIsStrictWeakOrder();
    var r := SortRecordGroup(g);
    forall x, y | x in r && y in r && x != y ensures RanksAhead(x, y) || RanksAhead(y, x) {
      assert x in multiset(g) && y in multiset(g);
      var i :| 0 <= i < |g| && g[i] == x;
      var j :| 0 <= j < |g| && g[j] == y;
      assert i != j;
    }
    SortedRearrangementUnique(r, other, RanksAhead);
  }

  // ---------------------------------------------------------------------------
  // Six-team groups (`sixTeamMatchupPriority` and the first branch of `matchRecordGroup`)
  // ---------------------------------------------------------------------------

  /** A 1-based position in a sorted group of six. */
  type Position = i: nat | 1 <= i <= 6 witness 1

  /** A row of the priority table: three (high, low) position pairs. */
  type TableRow = ((Position, Position), (Position, Position), (Position, Position))

  /** The fifteen rows, most preferred first. */
  const SixTeamMatchupPriority: seq<TableRow> := [
    ((1, 6), (2, 5), (3, 4)),
    ((1, 6), (2, 4), (3, 5)),
    ((1, 5), (2, 6), (3, 4)),
    ((1, 5), (2, 4), (3, 6)),
    ((1, 4), (2, 6), (3, 5)),
    ((1, 4), (2, 5), (3, 6)),
    ((1, 6), (2, 3), (4, 5)),
    ((1, 5), (2, 3), (4, 6)),
    ((1, 3), (2, 6), (4, 5)),
    ((1, 3), (2, 5), (4, 6)),
    ((1, 4), (2, 3), (5, 6)),
    ((1, 3), (2, 4), (5, 6)),
    ((1, 2), (3, 6), (4, 5)),
    ((1, 2), (3, 5), (4, 6)),
    ((1, 2), (3, 4), (5, 6))
  ]

  /** The matchup a position pair names in the sorted group `g`. */
  function TableMatchup(g: seq<RankedStanding>, p: (Position, Position)): Matchup
    requires |g| == 6
  {
    Matchup(g[p.0 - 1], g[p.1 - 1])
  }

  /** The three matchups of a table row, in the row's order. */
  function RowMatchups(g: seq<RankedStanding>, row: TableRow): seq<Matchup>
    requires |g| == 6
  {
    [TableMatchup(g, row.0), TableMatchup(g, row.1), TableMatchup(g, row.2)]
  }

  /** Whether the high team of a matchup already lists the low team among its past opponents. */
  predicate IsRematch(m: Matchup)
  {
    HasPlayed(m.teamA.standing, m.teamB.standing.name)
  }

  /** `seedMatchups.every(...)`: none of the row's three pairs is a rematch. */
  predicate RowIsClean(g: seq<RankedStanding>, row: TableRow)
    requires |g| == 6
  {
    !IsRematch(TableMatchup(g, row.0)) && !IsRematch(TableMatchup(g, row.1)) && !IsRematch(TableMatchup(g, row.2))
  }

  /** `sixTeamMatchupPriority.some(...)`, starting at row `from`: the first clean row. */
  function FirstCleanRow(g: seq<RankedStanding>, from: nat): (r: Option<nat>)
    requires |g| == 6
    ensures r.Some? ==> from <= r.value < |SixTeamMatchupPriority| && RowIsClean(g, SixTeamMatchupPriority[r.value])
    ensures r.Some? ==> forall q | from <= q < r.value :: !RowIsClean(g, SixTeamMatchupPriority[q])
    ensures r.None? ==> forall q | from <= q < |SixTeamMatchupPriority| :: !RowIsClean(g, SixTeamMatchupPriority[q])
    decreases |SixTeamMatchupPriority| - from
  {
    if from >= |SixTeamMatchupPriority| then None
    else if RowIsClean(g, SixTeamMatchupPriority[from]) then Some(from)
    else FirstCleanRow(g, from + 1)
  }

  /** The six-team branch: the matchups of the first clean row, or "No valid matchups without rematches!". */
  function SixTeamMatchups(g: seq<RankedStanding>): Result<seq<Matchup>>
    requires |g| == 6
  {
    match FirstCleanRow(g, 0)
    case None => Err(NoValidMatchups)
    case Some(r) => Ok(RowMatchups(g, SixTeamMatchupPriority[r]))
  }

  /** The six positions a row names, pair after pair. */
  function RowPositions(row: TableRow): seq<int>
  {
    [row.0.0, row.0.1, row.1.0, row.1.1, row.2.0, row.2.1]
  }

  /** Every row of the table names each of the six positions exactly once. */
  lemma TableRowsNamePositionsOnce(r: nat, v: int)
    requires r < |SixTeamMatchupPriority| && 1 <= v <= 6
    ensures Count(RowPositions(SixTeamMatchupPriority[r]), v) == 1
  {
    var row := SixTeamMatchupPriority[r];
    CountSix(row.0.0, row.0.1, row.1.0, row.1.1, row.2.0, row.2.1, v);
  }

  /** `Count` over six values, spelled out. */
  lemma CountSix(a: int, b: int, c: int, d: int, e: int, f: int, v: int)
    ensures Count([a, b, c, d, e, f], v)
            == (if a == v then 1 else 0) + (if b == v then 1 else 0) + (if c == v then 1 else 0)
             + (if d == v then 1 else 0) + (if e == v then 1 else 0) + (if f == v then 1 else 0)
  {
    assert Count([f], v) == (if f == v then 1 else 0) + Count([], v);
    CountCons(e, [f], v);
    CountCons(d, [e, f], v);
    CountCons(c, [d, e, f], v);
    CountCons(b, [c, d, e, f], v);
    CountCons(a, [b, c, d, e, f], v);
  }

  /** The positions 1 to 6 name `v` once if it is one of them, and never otherwise. */
  lemma CountPositions(v: int)
    ensures Count([1, 2, 3, 4, 5, 6], v) == if 1 <= v <= 6 then 1 else 0
  {
    if v < 1 || 6 < v {
      CountAbsent([1, 2, 3, 4, 5, 6], v);
    }
  }

  /** A row names no value outside the positions 1 to 6. */
  lemma RowNamesOnlyPositions(row: TableRow, v: int)
    requires v < 1 || 6 < v
    ensures Count(RowPositions(row), v) == 0
  {
    CountAbsent(RowPositions(row), v);
  }

  /** A row that names each position once gives every value the multiplicity the
      positions 1 to 6 give it. */
  lemma RowMultiplicity(row: TableRow, v: int)
    requires forall w | 1 <= w <= 6 :: Count(RowPositions(row), w) == 1
    ensures multiset(RowPositions(row))[v] == multiset([1, 2, 3, 4, 5, 6])[v]
  {
    CountIsMultiplicity(RowPositions(row), v);
    CountIsMultiplicity([1, 2, 3, 4, 5, 6], v);
    CountPositions(v);
    if v < 1 || 6 < v {
      RowNamesOnlyPositions(row, v);
    }
  }

  /** Every row of the table names the positions 1 to 6, each once. */
  lemma TableRowsArePermutations(r: nat)
    requires r < |SixTeamMatchupPriority|
    ensures multiset(RowPositions(SixTeamMatchupPriority[r])) == multiset([1, 2, 3, 4, 5, 6])
  {
    var row := SixTeamMatchupPriority[r];
    forall w | 1 <= w <= 6 ensures Count(RowPositions(row), w) == 1 {
      TableRowsNamePositionsOnce(r, w);
    }
    forall v ensures multiset(RowPositions(row))[v] == multiset([1, 2, 3, 4, 5, 6])[v] {
      RowMultiplicity(row, v);
    }
  }

  /** The team at a 1-based position of a group of six. */
  function AtPosition(g: seq<RankedStanding>): (int -> RankedStanding)
    requires |g| == 6
  {
    i => if 1 <= i <= 6 then g[i - 1] else g[0]
  }

  /** The teams a row names, pair after pair, are its matchups flattened. */
  lemma RowTeams(g: seq<RankedStanding>, row: TableRow)
    requires |g| == 6
    ensures MapSeq(RowPositions(row), AtPosition(g)) == FlattenMatchups(RowMatchups(g, row))
  {
    var ps, ms := RowPositions(row), RowMatchups(g, row);
    forall k | 0 <= k < 6 ensures MapSeq(ps, AtPosition(g))[k] == FlattenMatchups(ms)[k] {
      MapSeqAt(ps, AtPosition(g), k);
      FlattenMatchupsHas(ms, k / 2);
    }
  }

  /** Positions 1 to 6 name the group in order. */
  lemma AllPositions(g: seq<RankedStanding>)
    requires |g| == 6
    ensures MapSeq([1, 2, 3, 4, 5, 6], AtPosition(g)) == g
  {
    forall k | 0 <= k < 6 ensures MapSeq([1, 2, 3, 4, 5, 6], AtPosition(g))[k] == g[k] {
      MapSeqAt([1, 2, 3, 4, 5, 6], AtPosition(g), k);
    }
  }

  /** A row that names each position once pairs every team of the group exactly once. */
  lemma RowOfPermutationIsPairing(g: seq<RankedStanding>, row: TableRow)
    requires |g| == 6
    requires multiset(RowPositions(row)) == multiset([1, 2, 3, 4, 5, 6])
    ensures multiset(FlattenMatchups(RowMatchups(g, row))) == multiset(g)
  {
    MapSeqMultiset(RowPositions(row), [1, 2, 3, 4, 5, 6], AtPosition(g));
    RowTeams(g, row);
    AllPositions(g);
  }

  /** Every row of the table is a pairing of the six teams: each team of the group
      is in exactly one of the row's three matchups. */
  lemma TableRowsArePairings(g: seq<RankedStanding>, r: nat)
    requires |g| == 6 && r < |SixTeamMatchupPriority|
    ensures multiset(FlattenMatchups(RowMatchups(g, SixTeamMatchupPriority[r]))) == multiset(g)
  {
    TableRowsArePermutations(r);
    RowOfPermutationIsPairing(g, SixTeamMatchupPriority[r]);
  }

  /** A value that does not occur is counted zero times. */
  lemma {:induction false} CountAbsent(s: seq<int>, v: int)
    requires v !in s
    ensures Count(s, v) == 0
  {
    if s != [] {
      CountAbsent(s[1..], v);
    }
  }

  // ---------------------------------------------------------------------------
  // Every other group size: the greedy loop of `matchRecordGroup`
  // ---------------------------------------------------------------------------

  /** Popping from the end until a team `high` has not played: the index of the
      last team of `rest` that `high` has not met, if any. */
  function LastUnplayed(high: Standing, rest: seq<RankedStanding>): (r: Option<nat>)
    ensures r.Some? ==> r.value < |rest| && !HasPlayed(high, rest[r.value].standing.name)
    ensures r.Some? ==> forall j | r.value < j < |rest| :: HasPlayed(high, rest[j].standing.name)
    ensures r.None? ==> forall j | 0 <= j < |rest| :: HasPlayed(high, rest[j].standing.name)
  {
    if rest == [] then None
    else if !HasPlayed(high, rest[|rest| - 1].standing.name) then Some(|rest| - 1)
    else LastUnplayed(high, rest[..|rest| - 1])
  }

  lemma PrependNothing(r: Result<seq<Matchup>>)
    ensures Prepend([], r) == r
  {
    if r.Ok? {
      assert [] + r.value == r.value;
    }
  }

  /** Puts `ms` ahead of a successful result; an error passes through. */
  function Prepend(ms: seq<Matchup>, r: Result<seq<Matchup>>): Result<seq<Matchup>>
  {
    match r
    case Ok(rest) => Ok(ms + rest)
    case Err(e) => Err(e)
  }

  /** The greedy pairing: the head plays the last team it has not met, the teams
      skipped on the way keep their order, and the rest is paired the same way.
      With no partner left the loop throws "Missing low seed team". */
  function GreedyMatchups(sorted: seq<RankedStanding>): Result<seq<Matchup>>
    decreases |sorted|
  {
    if sorted == [] then Ok([])
    else
      var high, rest := sorted[0], sorted[1..];
      match LastUnplayed(high.standing, rest)
      case None => Err(MissingLowSeedTeam)
      case Some(j) => Prepend([Matchup(high, rest[j])], GreedyMatchups(rest[..j] + rest[j + 1..]))
  }

  /** `matchRecordGroup`: sort, then take the six-team table or the greedy loop. */
  function PairRecordGroup(g: seq<RankedStanding>): Result<seq<Matchup>>
  {
    var sorted := SortRecordGroup(g);
    if |sorted| == 6 then SixTeamMatchups(sorted) else GreedyMatchups(sorted)
  }

  /** One step of the greedy pairing, when the head has a partner at index `j` of the rest. */
  lemma GreedyStep(sorted: seq<RankedStanding>, j: nat)
    requires sorted != [] && LastUnplayed(sorted[0].standing, sorted[1..]) == Some(j)
    ensures GreedyMatchups(sorted)
         == Prepend([Matchup(sorted[0], sorted[1..][j])], GreedyMatchups(sorted[1..][..j] + sorted[1..][j + 1..]))
  {
  }

  /** Putting `a` ahead of `b` ahead of a result is putting `a + b` ahead of it. */
  lemma PrependTwice(a: seq<Matchup>, b: seq<Matchup>, r: Result<seq<Matchup>>)
    ensures Prepend(a, Prepend(b, r)) == Prepend(a + b, r)
  {
    if r.Ok? {
      assert a + (b + r.value) == (a + b) + r.value;
    }
  }

  /** Splitting `rest` around index `j` at the point where the inner loop stops. */
  lemma SplitAround(rest: seq<RankedStanding>, front: seq<RankedStanding>, low: RankedStanding,
                    skipped: seq<RankedStanding>)
    requires front + [low] + skipped == rest
    ensures |front| < |rest| && rest[..|front|] == front && rest[|front|] == low && rest[|front| + 1..] == skipped
  {
    assert rest[..|front|] == (front + [low] + skipped)[..|front|];
  }

  /** The inner loop of `matchRecordGroup`: pops teams off the end of `sortedGroup`
      until one has not played `highTeam`, and puts the skipped teams back on the
      end in their order. `None` is the "Missing low seed team" throw. */
  method PopLowTeam(highTeam: RankedStanding, group: seq<RankedStanding>) returns (r: Option<(RankedStanding, seq<RankedStanding>)>)
    ensures LastUnplayed(highTeam.standing, group).None? ==> r.None?
    ensures LastUnplayed(highTeam.standing, group).Some? ==>
              var j := LastUnplayed(highTeam.standing, group).value;
              r == Some((group[j], group[..j] + group[j + 1..]))
  {
    var sortedGroup := group;
    var skippedTeams: seq<RankedStanding> := [];
    var validLowTeam := false;
    var lowTeam := highTeam;
    while !validLowTeam
      invariant sortedGroup + (if validLowTeam then [lowTeam] else []) + skippedTeams == group
      invariant !validLowTeam ==> LastUnplayed(highTeam.standing, group) == LastUnplayed(highTeam.standing, sortedGroup)
      invariant validLowTeam ==> LastUnplayed(highTeam.standing, group) == Some(|sortedGroup|)
      decreases |sortedGroup|, if validLowTeam then 0 else 1
    {
      if sortedGroup == [] {
        return None;
      }
      lowTeam := sortedGroup[|sortedGroup| - 1];
      sortedGroup := sortedGroup[..|sortedGroup| - 1];
      if !HasPlayed(highTeam.standing, lowTeam.standing.name) {
        validLowTeam := true;
      } else {
        skippedTeams := [lowTeam] + skippedTeams;
      }
    }
    SplitAround(group, sortedGroup, lowTeam, skippedTeams);
    r := Some((lowTeam, sortedGroup + skippedTeams));
  }

  /** `matchRecordGroup`: sorts the group; a group of six takes the first clean row
      of the priority table, any other group is paired by the greedy loop, which
      shifts the head off, pairs it with the team `PopLowTeam` finds, and repeats. */
  method MatchRecordGroup(recordGroup: seq<RankedStanding>) returns (r: Result<seq<Matchup>>)
    ensures r == PairRecordGroup(recordGroup)
  {
    var sortedGroup := SortRecordGroup(recordGroup);
    if |sortedGroup| == 6 {
      return SixTeamMatchups(sortedGroup);
    }
    ghost var sorted0 := sortedGroup;
    var matchups: seq<Matchup> := [];
    PrependNothing(GreedyMatchups(sortedGroup));
    while sortedGroup != []
      invariant GreedyMatchups(sorted0) == Prepend(matchups, GreedyMatchups(sortedGroup))
      decreases |sortedGroup|
    {
      ghost var before := sortedGroup;
      var highTeam := sortedGroup[0];
      var low := PopLowTeam(highTeam, sortedGroup[1..]);
      if low.None? {
        return Err(MissingLowSeedTeam);
      }
      var (lowTeam, remaining) := low.value;
      GreedyStep(before, LastUnplayed(highTeam.standing, sortedGroup[1..]).value);
      PrependTwice(matchups, [Matchup(highTeam, lowTeam)], GreedyMatchups(remaining));
      sortedGroup := remaining;
      matchups := matchups + [Matchup(highTeam, lowTeam)];
    }
    assert matchups + [] == matchups;
    r := Ok(matchups);
  }

  // ---------------------------------------------------------------------------
  // What a group's pairing guarantees
  // ---------------------------------------------------------------------------

  /** The greedy pairing, when it succeeds, places every team of the group in exactly one matchup. */
  lemma {:induction false} GreedyPairsEveryTeam(sorted: seq<RankedStanding>)
    requires GreedyMatchups(sorted).Ok?
    ensures multiset(FlattenMatchups(GreedyMatchups(sorted).value)) == multiset(sorted)
    decreases |sorted|
  {
    if sorted != [] {
      var high, rest := sorted[0], sorted[1..];
      var j := LastUnplayed(high.standing, rest).value;
      var remaining := rest[..j] + rest[j + 1..];
      GreedyStep(sorted, j);
      GreedyPairsEveryTeam(remaining);
      FlattenMatchupsCons(Matchup(high, rest[j]), GreedyMatchups(remaining).value);
      PairOffTwo(sorted, j);
    }
  }

  /** Taking the head and the team at index `j` of the rest leaves the others. */
  lemma PairOffTwo(sorted: seq<RankedStanding>, j: nat)
    requires sorted != [] && j < |sorted| - 1
    ensures multiset(sorted) == multiset([sorted[0], sorted[1..][j]]) + multiset(sorted[1..][..j] + sorted[1..][j + 1..])
  {
    var rest := sorted[1..];
    RemoveAt(rest, j);
    assert sorted == [sorted[0]] + rest;
  }

  /** No matchup of a successful greedy pairing is a rematch. */
  lemma {:induction false} GreedyAvoidsRematches(sorted: seq<RankedStanding>)
    requires GreedyMatchups(sorted).Ok?
    ensures forall m | m in GreedyMatchups(sorted).value :: !IsRematch(m)
    decreases |sorted|
  {
    if sorted != [] {
      var high, rest := sorted[0], sorted[1..];
      var j := LastUnplayed(high.standing, rest).value;
      GreedyAvoidsRematches(rest[..j] + rest[j + 1..]);
    }
  }

  /** A group's pairing, when it succeeds, places every team of the group in exactly one matchup. */
  lemma PairRecordGroupPairsEveryTeam(g: seq<RankedStanding>)
    requires PairRecordGroup(g).Ok?
    ensures multiset(FlattenMatchups(PairRecordGroup(g).value)) == multiset(g)
  {
    var sorted := SortRecordGroup(g);
    if |sorted| == 6 {
      TableRowsArePairings(sorted, FirstCleanRow(sorted, 0).value);
    } else {
      GreedyPairsEveryTeam(sorted);
    }
  }

  /** No matchup of a group's successful pairing is a rematch. */
  lemma PairRecordGroupAvoidsRematches(g: seq<RankedStanding>)
    requires PairRecordGroup(g).Ok?
    ensures forall m | m in PairRecordGroup(g).value :: !IsRematch(m)
  {
    var sorted := SortRecordGroup(g);
    if |sorted| != 6 {
      GreedyAvoidsRematches(sorted);
    }
  }

  /** An odd group cannot be paired: the scheduler throws for it. */
  lemma OddGroupFails(g: seq<RankedStanding>)
    requires |g| % 2 == 1
    ensures PairRecordGroup(g).Err?
  {
    PairedGroupSize(g);
    var r := PairRecordGroup(g);
    if r.Ok? {
      EvenIsNotOdd(|g|, |r.value|);
    }
  }

  /** A paired group has two teams per matchup. */
  lemma PairedGroupSize(g: seq<RankedStanding>)
    ensures PairRecordGroup(g).Ok? ==> |g| == 2 * |PairRecordGroup(g).value|
  {
    if PairRecordGroup(g).Ok? {
      PairRecordGroupPairsEveryTeam(g);
      var f := FlattenMatchups(PairRecordGroup(g).value);
      assert |f| == |multiset(f)| == |multiset(g)| == |g|;
    }
  }

  /** Both teams of every matchup come from the paired teams. */
  lemma MatchupTeamsFrom(ms: seq<Matchup>, g: seq<RankedStanding>)
    requires multiset(FlattenMatchups(ms)) == multiset(g)
    ensures forall m | m in ms :: m.teamA in g && m.teamB in g
  {
    forall m | m in ms ensures m.teamA in g && m.teamB in g {
      var i :| 0 <= i < |ms| && ms[i] == m;
      FlattenMatchupsHas(ms, i);
      assert m.teamA in multiset(FlattenMatchups(ms)) && m.teamB in multiset(FlattenMatchups(ms));
    }
  }

  // ---------------------------------------------------------------------------
  // A round (`calculateMatchups`)
  // ---------------------------------------------------------------------------

  /** The `reduce` that concatenates the groups' matchups; the first group that throws ends it. */
  function MatchGroups(groups: seq<seq<RankedStanding>>): Result<seq<Matchup>>
  {
    if groups == [] then Ok([])
    else match MatchGroups(groups[..|groups| - 1])
      case Err(e) => Err(e)
      case Ok(acc) => Prepend(acc, PairRecordGroup(groups[|groups| - 1]))
  }

  /** `calculateMatchups`: difficulty scores, record groups, then each group paired in turn. */
  function RoundPairings(standings: seq<Standing>): Result<seq<Matchup>>
  {
    MatchGroups(SplitStandingsToRecordGroups(CalculateDifficulties(standings)))
  }

  /** Once a prefix of the groups has failed, the whole round fails with the same error. */
  lemma {:induction false} MatchGroupsFirstErrorWins(groups: seq<seq<RankedStanding>>, p: nat)
    requires p <= |groups| && MatchGroups(groups[..p]).Err?
    ensures MatchGroups(groups) == MatchGroups(groups[..p])
  {
    if p < |groups| {
      assert groups[..|groups| - 1][..p] == groups[..p];
      MatchGroupsFirstErrorWins(groups[..|groups| - 1], p);
    } else {
      assert groups[..p] == groups;
    }
  }

  /** `calculateMatchups`, with its loop over the record groups. */
  method CalculateMatchups(teamsStandings: seq<Standing>) returns (r: Result<seq<Matchup>>)
    ensures r == RoundPairings(teamsStandings)
  {
    var teamsStandingsWithDifficulty := CalculateDifficulties(teamsStandings);
    var recordGroups := SplitStandingsToRecordGroups(teamsStandingsWithDifficulty);
    var matchups: seq<Matchup> := [];
    assert recordGroups[..0] == [];
    for i := 0 to |recordGroups|
      invariant MatchGroups(recordGroups[..i]) == Ok(matchups)
    {
      assert recordGroups[..i + 1][..i] == recordGroups[..i];
      var groupMatchups := MatchRecordGroup(recordGroups[i]);
      if groupMatchups.Err? {
        MatchGroupsFirstErrorWins(recordGroups, i + 1);
        return Err(groupMatchups.error);
      }
      matchups := matchups + groupMatchups.value;
    }
    assert recordGroups[..|recordGroups|] == recordGroups;
    r := Ok(matchups);
  }

  /** The matchups of successfully paired groups hold the groups' teams, each once. */
  lemma {:induction false} MatchGroupsPairsEveryTeam(groups: seq<seq<RankedStanding>>)
    requires MatchGroups(groups).Ok?
    ensures multiset(FlattenMatchups(MatchGroups(groups).value)) == multiset(Flatten(groups))
  {
    if groups != [] {
      var init, last := groups[..|groups| - 1], groups[|groups| - 1];
      MatchGroupsPairsEveryTeam(init);
      PairRecordGroupPairsEveryTeam(last);
      FlattenMatchupsAppend(MatchGroups(init).value, PairRecordGroup(last).value);
    }
  }

  /** Every matchup of successfully paired groups pairs two teams of one group. */
  lemma {:induction false} MatchGroupsPairWithinGroups(groups: seq<seq<RankedStanding>>)
    requires MatchGroups(groups).Ok?
    ensures forall m | m in MatchGroups(groups).value ::
              !IsRematch(m) && exists g | g in groups :: m.teamA in g && m.teamB in g
  {
    if groups != [] {
      var init, last := groups[..|groups| - 1], groups[|groups| - 1];
      MatchGroupsPairWithinGroups(init);
      PairRecordGroupPairsEveryTeam(last);
      PairRecordGroupAvoidsRematches(last);
      MatchupTeamsFrom(PairRecordGroup(last).value, last);
      forall m | m in MatchGroups(groups).value
        ensures !IsRematch(m) && exists g | g in groups :: m.teamA in g && m.teamB in g
      {
        if m in MatchGroups(init).value {
          var g :| g in init && m.teamA in g && m.teamB in g;
          assert g in groups;
        } else {
          assert last in groups;
        }
      }
    }
  }

  /** A successful round places every team in exactly one matchup. */
  lemma RoundPairsEveryTeam(standings: seq<Standing>)
    requires RoundPairings(standings).Ok?
    ensures multiset(FlattenMatchups(RoundPairings(standings).value)) == multiset(CalculateDifficulties(standings))
  {
    var ts := CalculateDifficulties(standings);
    MatchGroupsPairsEveryTeam(SplitStandingsToRecordGroups(ts));
    SplitIsPartition(ts);
  }

  /** In a successful round no pair has met before, and both teams of every
      matchup have the same wins minus losses. */
  lemma RoundPairsWithinRecordsWithoutRematches(standings: seq<Standing>)
    requires RoundPairings(standings).Ok?
    ensures forall m | m in RoundPairings(standings).value ::
              !IsRematch(m) && Differential(m.teamA.standing) == Differential(m.teamB.standing)
  {
    var ts := CalculateDifficulties(standings);
    var groups := SplitStandingsToRecordGroups(ts);
    MatchGroupsPairWithinGroups(groups);
    forall m | m in RoundPairings(standings).value
      ensures Differential(m.teamA.standing) == Differential(m.teamB.standing)
    {
      var g :| g in groups && m.teamA in g && m.teamB in g;
      var i :| 0 <= i < |groups| && groups[i] == g;
      GroupAt(ts, i);
    }
  }

  /** An odd number of teams can never be paired: the round throws. */
  lemma OddFieldFails(standings: seq<Standing>)
    requires |standings| % 2 == 1
    ensures RoundPairings(standings).Err?
  {
    PairedFieldSize(standings);
    var r := RoundPairings(standings);
    if r.Ok? {
      EvenIsNotOdd(|standings|, |r.value|);
    }
  }

  lemma EvenIsNotOdd(n: nat, half: nat)
    requires n == 2 * half
    ensures n % 2 == 0
  {
  }

  /** A paired round has two teams per matchup. */
  lemma PairedFieldSize(standings: seq<Standing>)
    ensures RoundPairings(standings).Ok? ==> |standings| == 2 * |RoundPairings(standings).value|
  {
    if RoundPairings(standings).Ok? {
      RoundPairsEveryTeam(standings);
      var f := FlattenMatchups(RoundPairings(standings).value);
      var ts := CalculateDifficulties(standings);
      assert |f| == |multiset(f)| == |multiset(ts)| == |ts|;
    }
  }
}
