/** One simulated event (`src/simulator.ts`, lines 345-432; the worker copy in
    `src/worker/simulation-worker.ts`, lines 252-339): a match decided by a draw
    against the listed win rate, a round of matches, the split into qualified,
    eliminated and still active teams, and the loop of rounds.

    `Math.random()` is an oracle: `draw(k)` is the number drawn for the `k`-th
    match of the event, counting from 0. */
module Event {
  import opened Collections
  import opened Standings
  import opened Scheduler

  // ---------------------------------------------------------------------------
  // One match (`simulateMatchup`)
  // ---------------------------------------------------------------------------

  /** A match is a best-of-three when team A is one win from qualifying or one
      loss from elimination. Only team A's record is consulted. */
  predicate IsQualElim(m: Matchup, settings: Settings)
  {
    m.teamA.standing.wins == settings.qualWins - 1 || m.teamA.standing.losses == settings.elimLosses - 1
  }

  function FormatOf(m: Matchup, settings: Settings): BestOf
  {
    if IsQualElim(m, settings) then Bo3 else Bo1
  }

  /** Whether a listing is about the two teams, in either order. */
  predicate Involves(p: MatchupProbability, a: string, b: string)
  {
    (p.teamA == a && p.teamB == b) || (p.teamA == b && p.teamB == a)
  }

  /** `matchupProbabilities.find(...)`: the index of the first listing about the two teams. */
  function FindListing(probs: seq<MatchupProbability>, a: string, b: string): (r: Option<nat>)
    ensures r.Some? ==> r.value < |probs| && Involves(probs[r.value], a, b)
    ensures r.Some? ==> forall j | 0 <= j < r.value :: !Involves(probs[j], a, b)
    ensures r.None? ==> forall j | 0 <= j < |probs| :: !Involves(probs[j], a, b)
  {
    if probs == [] then None
    else if Involves(probs[0], a, b) then Some(0)
    else match FindListing(probs[1..], a, b)
      case None => None
      case Some(j) => Some(j + 1)
  }

  /** Team `a`'s chance to beat `b`: the listed rate for the format, as `1 - rate`
      when the listing names `b` first, and one half without a listing. */
  function WinRate(probs: seq<MatchupProbability>, a: string, b: string, bo3: bool): real
  {
    match FindListing(probs, a, b)
    case None => 0.5
    case Some(i) =>
      var rate := if bo3 then probs[i].bo3TeamAWinrate else probs[i].bo1TeamAWinrate;
      if probs[i].teamA != a then 1.0 - rate else rate
  }

  /** The lookup finds the same listing whichever team is asked about first. */
  lemma FindListingSymmetric(probs: seq<MatchupProbability>, a: string, b: string)
    ensures FindListing(probs, a, b) == FindListing(probs, b, a)
  {
    if probs != [] {
      FindListingSymmetric(probs[1..], a, b);
    }
  }

  /** The two teams' chances are complementary, whichever order the listing uses. */
  lemma WinRatesAreComplementary(probs: seq<MatchupProbability>, a: string, b: string, bo3: bool)
    requires a != b
    ensures WinRate(probs, a, b, bo3) + WinRate(probs, b, a, bo3) == 1.0
  {
    FindListingSymmetric(probs, a, b);
  }

  /** `simulateMatchup`: team A wins when the draw `x` is at most its chance; the
      winner gains a win, the loser a loss, and each side's history gains one
      entry naming the other. The pair comes back as (team A, team B). */
  function SimulateMatchup(m: Matchup, probs: seq<MatchupProbability>, settings: Settings, x: real): (Standing, Standing)
  {
    var a, b := m.teamA.standing, m.teamB.standing;
    var bo3 := IsQualElim(m, settings);
    var teamAWins := x <= WinRate(probs, a.name, b.name, bo3);
    var bestOf := if bo3 then Bo3 else Bo1;
    var a' := Standing(a.name, a.seed, a.wins + (if teamAWins then 1 else 0), a.losses + (if teamAWins then 0 else 1),
                       a.pastOpponents + [PastOpponent(b.name, bestOf, teamAWins)]);
    var b' := Standing(b.name, b.seed, b.wins + (if teamAWins then 0 else 1), b.losses + (if teamAWins then 1 else 0),
                       b.pastOpponents + [PastOpponent(a.name, bestOf, !teamAWins)]);
    (a', b')
  }

  /** A match hands out exactly one win and one loss: team A gains the win exactly
      when the draw is at most its chance. Each side's history gains one entry,
      naming the other side, both under the format team A's record selects and
      with opposite outcomes; nothing else about either team changes. */
  lemma MatchIsZeroSum(m: Matchup, probs: seq<MatchupProbability>, settings: Settings, x: real)
    ensures var r := SimulateMatchup(m, probs, settings, x);
            var a, b := m.teamA.standing, m.teamB.standing;
            var aWins := x <= WinRate(probs, a.name, b.name, IsQualElim(m, settings));
            && r.0.name == a.name && r.0.seed == a.seed && r.1.name == b.name && r.1.seed == b.seed
            && (aWins ==> r.0.wins == a.wins + 1 && r.0.losses == a.losses && r.1.wins == b.wins && r.1.losses == b.losses + 1)
            && (!aWins ==> r.0.wins == a.wins && r.0.losses == a.losses + 1 && r.1.wins == b.wins + 1 && r.1.losses == b.losses)
            && Games(r.0) == Games(a) + 1 && Games(r.1) == Games(b) + 1
            && r.0.pastOpponents == a.pastOpponents + [PastOpponent(b.name, r.0.pastOpponents[|a.pastOpponents|].bestOf, aWins)]
            && r.1.pastOpponents == b.pastOpponents + [PastOpponent(a.name, r.0.pastOpponents[|a.pastOpponents|].bestOf, !aWins)]
            && (r.0.pastOpponents[|a.pastOpponents|].bestOf == Bo3 <==> IsQualElim(m, settings))
  {
  }

  // ---------------------------------------------------------------------------
  // A round of matches (`simulateMatchups`)
  // ---------------------------------------------------------------------------

  /** `matchups.flatMap(simulateMatchup)`; match `i` of the list uses draw `next + i`. */
  function SimulateMatchups(ms: seq<Matchup>, probs: seq<MatchupProbability>, settings: Settings,
                            draw: nat -> real, next: nat): (r: seq<Standing>)
    ensures |r| == 2 * |ms|
    decreases |ms|
  {
    if ms == [] then []
    else
      var pair := SimulateMatchup(ms[0], probs, settings, draw(next));
      [pair.0, pair.1] + SimulateMatchups(ms[1..], probs, settings, draw, next + 1)
  }

  /** The two standings produced by match `i`. */
  lemma {:induction false} SimulateMatchupsAt(ms: seq<Matchup>, probs: seq<MatchupProbability>, settings: Settings,
                                              draw: nat -> real, next: nat, i: nat)
    requires i < |ms|
    ensures var r := SimulateMatchups(ms, probs, settings, draw, next);
            var pair := SimulateMatchup(ms[i], probs, settings, draw(next + i));
            r[2 * i] == pair.0 && r[2 * i + 1] == pair.1
    decreases i
  {
    if i > 0 {
      SimulateMatchupsAt(ms[1..], probs, settings, draw, next + 1, i - 1);
    }
  }

  // ---------------------------------------------------------------------------
  // Qualified, eliminated, still active (`extractQualElims`)
  // ---------------------------------------------------------------------------

  function Qualifies(settings: Settings): (Standing -> bool)
  {
    (t: Standing) => t.wins >= settings.qualWins
  }

  function IsEliminated(settings: Settings): (Standing -> bool)
  {
    (t: Standing) => t.wins < settings.qualWins && t.losses >= settings.elimLosses
  }

  function StillActive(settings: Settings): (Standing -> bool)
  {
    (t: Standing) => t.wins < settings.qualWins && t.losses < settings.elimLosses
  }

  /** The `reduce` of `extractQualElims`: each team is pushed onto one of the three
      lists, qualification checked before elimination. */
  function ExtractQualElims(ts: seq<Standing>, settings: Settings): QualElimOutput
  {
    if ts == [] then QualElimOutput([], [], [])
    else
      var acc := ExtractQualElims(ts[..|ts| - 1], settings);
      var t := ts[|ts| - 1];
      if t.wins >= settings.qualWins then acc.(qualified := acc.qualified + [t])
      else if t.losses >= settings.elimLosses then acc.(eliminated := acc.eliminated + [t])
      else acc.(competitors := acc.competitors + [t])
  }

  /** Each list is the input filtered by its condition, in input order. */
  lemma {:induction false} ExtractQualElimsIsFilter(ts: seq<Standing>, settings: Settings)
    ensures ExtractQualElims(ts, settings).qualified == Filter(ts, Qualifies(settings))
    ensures ExtractQualElims(ts, settings).eliminated == Filter(ts, IsEliminated(settings))
    ensures ExtractQualElims(ts, settings).competitors == Filter(ts, StillActive(settings))
  {
    if ts != [] {
      ExtractQualElimsIsFilter(ts[..|ts| - 1], settings);
    }
  }

  /** The three lists split the input: every team is in exactly one of them. */
  lemma {:induction false} ExtractQualElimsPartitions(ts: seq<Standing>, settings: Settings)
    ensures var r := ExtractQualElims(ts, settings);
            multiset(r.qualified) + multiset(r.eliminated) + multiset(r.competitors) == multiset(ts)
  {
    if ts != [] {
      var init, t := ts[..|ts| - 1], ts[|ts| - 1];
      ExtractQualElimsPartitions(init, settings);
      assert multiset(ts) == multiset(init) + multiset{t} by {
        assert ts == init + [t];
      }
      var acc, r := ExtractQualElims(init, settings), ExtractQualElims(ts, settings);
      if t.wins >= settings.qualWins {
        assert r == acc.(qualified := acc.qualified + [t]);
      } else if t.losses >= settings.elimLosses {
        assert r == acc.(eliminated := acc.eliminated + [t]);
      } else {
        assert r == acc.(competitors := acc.competitors + [t]);
      }
    }
  }

  // ---------------------------------------------------------------------------
  // The loop of rounds (`simulateEvent`)
  // ---------------------------------------------------------------------------

  /** The field at the start of an event: seeds follow the seed order, from 1. */
  function InitialStandings(seedOrder: seq<string>): (r: seq<Standing>)
    ensures |r| == |seedOrder|
    ensures forall i | 0 <= i < |seedOrder| :: r[i] == Standing(seedOrder[i], i + 1, 0, 0, [])
  {
    seq(|seedOrder|, i requires 0 <= i < |seedOrder| => Standing(seedOrder[i], i + 1, 0, 0, []))
  }

  /** Every team of the field has played `round` matches. */
  ghost predicate SameRound(cs: seq<Standing>, round: nat)
  {
    forall i | 0 <= i < |cs| :: Games(cs[i]) == round
  }

  /** No team of the field has qualified or been eliminated. */
  ghost predicate Undecided(cs: seq<Standing>, settings: Settings)
  {
    forall i | 0 <= i < |cs| :: cs[i].wins < settings.qualWins && cs[i].losses < settings.elimLosses
  }

  /** What holds of the active field before each round. */
  ghost predicate FieldInvariant(cs: seq<Standing>, round: nat, settings: Settings)
  {
    SameRound(cs, round) && (round > 0 ==> Undecided(cs, settings))
  }

  /** A pairing rule whose matchups only ever take teams from the field it is given. */
  ghost predicate PairsFromField(pair: seq<Standing> -> Result<seq<Matchup>>)
  {
    forall cs: seq<Standing>, m: Matchup | pair(cs).Ok? && m in pair(cs).value ::
      m.teamA.standing in cs && m.teamB.standing in cs
  }

  /** The scheduler's pairing takes both teams of every matchup from the field. */
  lemma RoundPairingsFromField()
    ensures PairsFromField(RoundPairings)
  {
    forall cs: seq<Standing>, m: Matchup | RoundPairings(cs).Ok? && m in RoundPairings(cs).value
      ensures m.teamA.standing in cs && m.teamB.standing in cs
    {
      var ts := CalculateDifficulties(cs);
      RoundPairsEveryTeam(cs);
      MatchupTeamsFrom(RoundPairings(cs).value, ts);
      assert m.teamA in ts && m.teamB in ts;
      var i :| 0 <= i < |ts| && ts[i] == m.teamA;
      var j :| 0 <= j < |ts| && ts[j] == m.teamB;
    }
  }

  /** Matches between teams that have played `round` matches leave every team
      with `round + 1`. */
  lemma {:induction false} MatchesAdvance(ms: seq<Matchup>, round: nat, probs: seq<MatchupProbability>,
                                          settings: Settings, draw: nat -> real, next: nat)
    requires forall m | m in ms :: Games(m.teamA.standing) == round && Games(m.teamB.standing) == round
    ensures SameRound(SimulateMatchups(ms, probs, settings, draw, next), round + 1)
    decreases |ms|
  {
    if ms != [] {
      assert ms[0] in ms;
      assert forall m | m in ms[1..] :: m in ms;
      MatchIsZeroSum(ms[0], probs, settings, draw(next));
      MatchesAdvance(ms[1..], round, probs, settings, draw, next + 1);
    }
  }

  /** A paired round: the matches are played and the field is split. */
  function PlayRound(ms: seq<Matchup>, probs: seq<MatchupProbability>, settings: Settings,
                     draw: nat -> real, next: nat): QualElimOutput
  {
    ExtractQualElims(SimulateMatchups(ms, probs, settings, draw, next), settings)
  }

  /** The field a round leaves: every team has played one more match and is still undecided. */
  lemma NextFieldInvariant(cs: seq<Standing>, round: nat, ms: seq<Matchup>, probs: seq<MatchupProbability>,
                           settings: Settings, draw: nat -> real, next: nat)
    requires SameRound(cs, round)
    requires forall m | m in ms :: m.teamA.standing in cs && m.teamB.standing in cs
    ensures FieldInvariant(PlayRound(ms, probs, settings, draw, next).competitors, round + 1, settings)
  {
    var r := SimulateMatchups(ms, probs, settings, draw, next);
    MatchesAdvance(ms, round, probs, settings, draw, next);
    ExtractQualElimsIsFilter(r, settings);
    FilterMembers(r, StillActive(settings));
    var c := PlayRound(ms, probs, settings, draw, next).competitors;
    forall i | 0 <= i < |c| ensures Games(c[i]) == round + 1 && StillActive(settings)(c[i]) {
      assert c[i] in r;
    }
  }

  /** A non-empty field after the first round bounds the number of rounds played. */
  lemma RoundBound(cs: seq<Standing>, round: nat, settings: Settings)
    requires FieldInvariant(cs, round, settings) && cs != []
    ensures round + 2 <= settings.qualWins + settings.elimLosses || round == 0
  {
    if round > 0 {
      assert Games(cs[0]) == round;
    }
  }

  /** The rounds from a field on, with `pair` as the pairing rule: the field is
      paired, the matches are played, the decided teams leave, and the rest go on,
      until nobody is left or a round cannot be paired. `next` counts the matches
      played so far. */
  function PlayEvent(cs: seq<Standing>, qualified: seq<Standing>, eliminated: seq<Standing>, round: nat,
                     probs: seq<MatchupProbability>, settings: Settings, draw: nat -> real, next: nat,
                     pair: seq<Standing> -> Result<seq<Matchup>>): Result<QualElimOutput>
    requires PairsFromField(pair) && FieldInvariant(cs, round, settings)
    decreases settings.qualWins + settings.elimLosses + 1 - round
  {
    if cs == [] then Ok(QualElimOutput(qualified, eliminated, cs))
    else match pair(cs)
      case Err(e) => Err(e)
      case Ok(ms) =>
        var out := PlayRound(ms, probs, settings, draw, next);
        NextFieldInvariant(cs, round, ms, probs, settings, draw, next);
        RoundBound(cs, round, settings);
        PlayEvent(out.competitors, qualified + out.qualified, eliminated + out.eliminated, round + 1,
                  probs, settings, draw, next + |ms|, pair)
  }

  /** `simulateEvent`: the rounds from the seeded field, with nobody decided yet,
      paired by `calculateMatchups`. */
  function EventOutcome(seedOrder: seq<string>, probs: seq<MatchupProbability>, settings: Settings,
                        draw: nat -> real): Result<QualElimOutput>
  {
    RoundPairingsFromField();
    PlayEvent(InitialStandings(seedOrder), [], [], 0, probs, settings, draw, 0, RoundPairings)
  }

  /** One round of `PlayEvent` when the field is paired as `ms`. */
  lemma PlayEventStep(cs: seq<Standing>, qualified: seq<Standing>, eliminated: seq<Standing>, round: nat,
                      probs: seq<MatchupProbability>, settings: Settings, draw: nat -> real, next: nat,
                      pair: seq<Standing> -> Result<seq<Matchup>>, ms: seq<Matchup>)
    requires PairsFromField(pair) && FieldInvariant(cs, round, settings) && cs != [] && pair(cs) == Ok(ms)
    ensures FieldInvariant(PlayRound(ms, probs, settings, draw, next).competitors, round + 1, settings)
    ensures var out := PlayRound(ms, probs, settings, draw, next);
            PlayEvent(cs, qualified, eliminated, round, probs, settings, draw, next, pair)
            == PlayEvent(out.competitors, qualified + out.qualified, eliminated + out.eliminated, round + 1,
                         probs, settings, draw, next + |ms|, pair)
  {
    NextFieldInvariant(cs, round, ms, probs, settings, draw, next);
  }

  /** A round that cannot be paired ends the event with the pairing's error. */
  lemma PlayEventFails(cs: seq<Standing>, qualified: seq<Standing>, eliminated: seq<Standing>, round: nat,
                       probs: seq<MatchupProbability>, settings: Settings, draw: nat -> real, next: nat,
                       pair: seq<Standing> -> Result<seq<Matchup>>)
    requires PairsFromField(pair) && FieldInvariant(cs, round, settings) && cs != [] && pair(cs).Err?
    ensures PlayEvent(cs, qualified, eliminated, round, probs, settings, draw, next, pair) == Err(pair(cs).error)
  {
  }

  /** One pass of `simulateEvent`'s loop: the field is paired, the matches are
      played from match number `played` on, and the decided teams are pushed onto
      `qualified` and `eliminated`; a pairing error is passed on. */
  method PlayNextRound(competitors: seq<Standing>, qualified: seq<Standing>, eliminated: seq<Standing>,
                       ghost round: nat, probabilities: seq<MatchupProbability>, simSettings: Settings,
                       draw: nat -> real, played: nat, pair: seq<Standing> -> Result<seq<Matchup>>)
    returns (r: Result<(QualElimOutput, nat)>)
    requires PairsFromField(pair) && FieldInvariant(competitors, round, simSettings) && competitors != []
    ensures r.Err? ==> PlayEvent(competitors, qualified, eliminated, round, probabilities, simSettings, draw, played, pair)
                       == Err(r.error)
    ensures r.Ok? ==> FieldInvariant(r.value.0.competitors, round + 1, simSettings)
    ensures r.Ok? ==> PlayEvent(competitors, qualified, eliminated, round, probabilities, simSettings, draw, played, pair)
                      == PlayEvent(r.value.0.competitors, r.value.0.qualified, r.value.0.eliminated, round + 1,
                                   probabilities, simSettings, draw, r.value.1, pair)
  {
    var matchups := pair(competitors);
    if matchups.Err? {
      PlayEventFails(competitors, qualified, eliminated, round, probabilities, simSettings, draw, played, pair);
      return Err(matchups.error);
    }
    var standings := SimulateMatchups(matchups.value, probabilities, simSettings, draw, played);
    var qualElimResult := ExtractQualElims(standings, simSettings);
    PlayEventStep(competitors, qualified, eliminated, round, probabilities, simSettings, draw, played,
                  pair, matchups.value);
    r := Ok((QualElimOutput(qualified + qualElimResult.qualified, eliminated + qualElimResult.eliminated,
                            qualElimResult.competitors), played + |matchups.value|));
  }

  /** The loop of `simulateEvent`, with `pair` as the pairing rule. */
  method PlayRounds(seedOrder: seq<string>, probabilities: seq<MatchupProbability>, simSettings: Settings,
                    draw: nat -> real, pair: seq<Standing> -> Result<seq<Matchup>>) returns (r: Result<QualElimOutput>)
    requires PairsFromField(pair)
    ensures r == PlayEvent(InitialStandings(seedOrder), [], [], 0, probabilities, simSettings, draw, 0, pair)
  {
    var competitors := InitialStandings(seedOrder);
    var qualified: seq<Standing> := [];
    var eliminated: seq<Standing> := [];
    ghost var round: nat := 0;
    var played: nat := 0;
    ghost var outcome := PlayEvent(competitors, qualified, eliminated, round, probabilities, simSettings, draw, played, pair);
    while competitors != []
      invariant FieldInvariant(competitors, round, simSettings)
      invariant outcome == PlayEvent(competitors, qualified, eliminated, round, probabilities, simSettings, draw, played, pair)
      decreases simSettings.qualWins + simSettings.elimLosses + 1 - round
    {
      RoundBound(competitors, round, simSettings);
      var step := PlayNextRound(competitors, qualified, eliminated, round, probabilities, simSettings, draw, played, pair);
      if step.Err? {
        return Err(step.error);
      }
      competitors, qualified, eliminated, played := step.value.0.competitors, step.value.0.qualified, step.value.0.eliminated, step.value.1;
      round := round + 1;
    }
    r := Ok(QualElimOutput(qualified, eliminated, competitors));
  }

  /** `simulateEvent`: the loop of rounds, paired by `calculateMatchups`. */
  method SimulateEvent(seedOrder: seq<string>, probabilities: seq<MatchupProbability>, simSettings: Settings,
                       draw: nat -> real) returns (r: Result<QualElimOutput>)
    ensures r == EventOutcome(seedOrder, probabilities, simSettings, draw)
  {
    RoundPairingsFromField();
    r := PlayRounds(seedOrder, probabilities, simSettings, draw, RoundPairings);
  }

  // ---------------------------------------------------------------------------
  // What an event guarantees
  // ---------------------------------------------------------------------------

  /** The standings of a list of matchups, pair after pair (`teamA` first). */
  function MatchupStandings(ms: seq<Matchup>): (r: seq<Standing>)
    ensures |r| == 2 * |ms|
  {
    if ms == [] then [] else [ms[0].teamA.standing, ms[0].teamB.standing] + MatchupStandings(ms[1..])
  }

  /** A pairing rule that, when it succeeds, puts every team of the field in exactly one matchup. */
  ghost predicate PairsWholeField(pair: seq<Standing> -> Result<seq<Matchup>>)
  {
    forall cs: seq<Standing> | pair(cs).Ok? :: multiset(MatchupStandings(pair(cs).value)) == multiset(cs)
  }

  /** A pairing rule that only pairs teams with the same wins minus losses. */
  ghost predicate PairsWithinRecords(pair: seq<Standing> -> Result<seq<Matchup>>)
  {
    forall cs: seq<Standing>, m: Matchup | pair(cs).Ok? && m in pair(cs).value ::
      Differential(m.teamA.standing) == Differential(m.teamB.standing)
  }

  lemma {:induction false} MatchupStandingsIsMap(ms: seq<Matchup>)
    ensures MatchupStandings(ms) == MapSeq(FlattenMatchups(ms), StandingOf)
  {
    if ms != [] {
      MatchupStandingsIsMap(ms[1..]);
      var f := FlattenMatchups(ms);
      MapSeqAppend([ms[0].teamA, ms[0].teamB], FlattenMatchups(ms[1..]), StandingOf);
    }
  }

  /** The scheduler's pairing puts every team of the field in exactly one matchup. */
  lemma RoundPairingsWholeField()
    ensures PairsWholeField(RoundPairings)
  {
    forall cs: seq<Standing> | RoundPairings(cs).Ok?
      ensures multiset(MatchupStandings(RoundPairings(cs).value)) == multiset(cs)
    {
      var ms := RoundPairings(cs).value;
      var ts := CalculateDifficulties(cs);
      RoundPairsEveryTeam(cs);
      MatchupStandingsIsMap(ms);
      MapSeqMultiset(FlattenMatchups(ms), ts, StandingOf);
      DifficultiesKeepStandings(cs);
    }
  }

  /** Dropping the difficulty scores gives the field back. */
  lemma DifficultiesKeepStandings(cs: seq<Standing>)
    ensures MapSeq(CalculateDifficulties(cs), StandingOf) == cs
  {
    var ts := CalculateDifficulties(cs);
    forall i | 0 <= i < |cs| ensures MapSeq(ts, StandingOf)[i] == cs[i] {
      MapSeqAt(ts, StandingOf, i);
    }
  }

  /** The scheduler's pairing only pairs teams with the same wins minus losses. */
  lemma RoundPairingsWithinRecords()
    ensures PairsWithinRecords(RoundPairings)
  {
    forall cs: seq<Standing>, m: Matchup | RoundPairings(cs).Ok? && m in RoundPairings(cs).value
      ensures Differential(m.teamA.standing) == Differential(m.teamB.standing)
    {
      RoundPairsWithinRecordsWithoutRematches(cs);
    }
  }

  /** Names of a concatenation, as multisets. */
  lemma NamesAppend(u: seq<Standing>, v: seq<Standing>)
    ensures multiset(Names(u + v)) == multiset(Names(u)) + multiset(Names(v))
  {
    MapSeqAppend(u, v, NameOf);
  }

  /** Playing a round keeps every team's name: the standings come back in the order of the matchups. */
  lemma {:induction false} RoundKeepsNames(ms: seq<Matchup>, probs: seq<MatchupProbability>, settings: Settings,
                                           draw: nat -> real, next: nat)
    ensures Names(SimulateMatchups(ms, probs, settings, draw, next)) == Names(MatchupStandings(ms))
    decreases |ms|
  {
    if ms != [] {
      var p := SimulateMatchup(ms[0], probs, settings, draw(next));
      var rest := SimulateMatchups(ms[1..], probs, settings, draw, next + 1);
      RoundKeepsNames(ms[1..], probs, settings, draw, next + 1);
      MatchIsZeroSum(ms[0], probs, settings, draw(next));
      MapSeqAppend([p.0, p.1], rest, NameOf);
      MapSeqAppend([ms[0].teamA.standing, ms[0].teamB.standing], MatchupStandings(ms[1..]), NameOf);
      assert Names([p.0, p.1]) == Names([ms[0].teamA.standing, ms[0].teamB.standing]);
    }
  }

  /** A round that pairs every team of the field once hands the same teams, by
      name, to the three lists. */
  lemma RoundKeepsTeams(cs: seq<Standing>, ms: seq<Matchup>, probs: seq<MatchupProbability>, settings: Settings,
                        draw: nat -> real, next: nat)
    requires multiset(MatchupStandings(ms)) == multiset(cs)
    ensures var out := PlayRound(ms, probs, settings, draw, next);
            multiset(Names(out.qualified)) + multiset(Names(out.eliminated)) + multiset(Names(out.competitors))
            == multiset(Names(cs))
  {
    var r := SimulateMatchups(ms, probs, settings, draw, next);
    var out := PlayRound(ms, probs, settings, draw, next);
    ExtractQualElimsPartitions(r, settings);
    assert multiset(out.qualified + out.eliminated + out.competitors) == multiset(r);
    MapSeqMultiset(out.qualified + out.eliminated + out.competitors, r, NameOf);
    NamesAppend(out.qualified + out.eliminated, out.competitors);
    NamesAppend(out.qualified, out.eliminated);
    RoundKeepsNames(ms, probs, settings, draw, next);
    MapSeqMultiset(MatchupStandings(ms), cs, NameOf);
  }

  /** What a finished event keeps: no active team is left, and the qualified and
      eliminated teams are, by name, the multiset `names`. */
  ghost predicate KeepsTeams(r: Result<QualElimOutput>, names: multiset<string>)
  {
    r.Ok? ==> r.value.competitors == [] && multiset(Names(r.value.qualified)) + multiset(Names(r.value.eliminated)) == names
  }

  /** From any field on, a finished event has no active team left, and the
      qualified and eliminated teams are, by name, the ones decided before plus the field. */
  lemma {:induction false} EventKeepsTeams(cs: seq<Standing>, qualified: seq<Standing>, eliminated: seq<Standing>,
                                           round: nat, probs: seq<MatchupProbability>, settings: Settings,
                                           draw: nat -> real, next: nat, pair: seq<Standing> -> Result<seq<Matchup>>)
    requires PairsFromField(pair) && PairsWholeField(pair) && FieldInvariant(cs, round, settings)
    ensures KeepsTeams(PlayEvent(cs, qualified, eliminated, round, probs, settings, draw, next, pair),
                       multiset(Names(qualified)) + multiset(Names(eliminated)) + multiset(Names(cs)))
    decreases settings.qualWins + settings.elimLosses + 1 - round
  {
    if cs == [] {
      assert Names(cs) == [];
    } else if pair(cs).Err? {
      PlayEventFails(cs, qualified, eliminated, round, probs, settings, draw, next, pair);
    } else {
      var ms := pair(cs).value;
      var out := PlayRound(ms, probs, settings, draw, next);
      PlayEventStep(cs, qualified, eliminated, round, probs, settings, draw, next, pair, ms);
      RoundBound(cs, round, settings);
      EventKeepsTeams(out.competitors, qualified + out.qualified, eliminated + out.eliminated, round + 1,
                      probs, settings, draw, next + |ms|, pair);
      RoundKeepsTeams(cs, ms, probs, settings, draw, next);
      Regroup(qualified, eliminated, out, cs);
    }
  }

  /** Moving a round's teams onto the decided lists keeps the names, as multisets. */
  lemma Regroup(qualified: seq<Standing>, eliminated: seq<Standing>, out: QualElimOutput, cs: seq<Standing>)
    requires multiset(Names(out.qualified)) + multiset(Names(out.eliminated)) + multiset(Names(out.competitors))
             == multiset(Names(cs))
    ensures multiset(Names(qualified + out.qualified)) + multiset(Names(eliminated + out.eliminated))
            + multiset(Names(out.competitors))
            == multiset(Names(qualified)) + multiset(Names(eliminated)) + multiset(Names(cs))
  {
    NamesAppend(qualified, out.qualified);
    NamesAppend(eliminated, out.eliminated);
  }

  /** The names of the seeded field are the seed order. */
  lemma InitialNames(seedOrder: seq<string>)
    ensures Names(InitialStandings(seedOrder)) == seedOrder
  {
    var cs := InitialStandings(seedOrder);
    forall i | 0 <= i < |cs| ensures Names(cs)[i] == seedOrder[i] {
      MapSeqAt(cs, NameOf, i);
    }
  }

  /** A finished event leaves no active team, and its qualified and eliminated
      teams are, by name, a rearrangement of the seed order. */
  lemma EventOutcomeKeepsTeams(seedOrder: seq<string>, probs: seq<MatchupProbability>, settings: Settings,
                               draw: nat -> real)
    ensures var r := EventOutcome(seedOrder, probs, settings, draw);
            r.Ok? ==> r.value.competitors == []
                      && multiset(Names(r.value.qualified + r.value.eliminated)) == multiset(seedOrder)
  {
    RoundPairingsFromField();
    RoundPairingsWholeField();
    EventKeepsTeams(InitialStandings(seedOrder), [], [], 0, probs, settings, draw, 0, RoundPairings);
    InitialNames(seedOrder);
    var r := EventOutcome(seedOrder, probs, settings, draw);
    if r.Ok? {
      NamesAppend(r.value.qualified, r.value.eliminated);
    }
  }

  /** A team that has neither qualified nor been eliminated. */
  predicate Pending(t: Standing, settings: Settings)
  {
    t.wins < settings.qualWins && t.losses < settings.elimLosses
  }

  /** A team at most one result past undecided: it may have just reached the
      qualifying wins or the eliminating losses, but not both. */
  predicate AtMostJustDecided(t: Standing, settings: Settings)
  {
    t.wins <= settings.qualWins && t.losses <= settings.elimLosses
    && (t.wins < settings.qualWins || t.losses < settings.elimLosses)
  }

  /** Matches between undecided teams leave every team at most one result past undecided. */
  lemma {:induction false} MatchesStepOnce(ms: seq<Matchup>, probs: seq<MatchupProbability>, settings: Settings,
                                           draw: nat -> real, next: nat)
    requires forall m | m in ms :: Pending(m.teamA.standing, settings) && Pending(m.teamB.standing, settings)
    ensures forall t | t in SimulateMatchups(ms, probs, settings, draw, next) :: AtMostJustDecided(t, settings)
    decreases |ms|
  {
    if ms != [] {
      assert ms[0] in ms;
      assert forall m | m in ms[1..] :: m in ms;
      MatchIsZeroSum(ms[0], probs, settings, draw(next));
      MatchesStepOnce(ms[1..], probs, settings, draw, next + 1);
    }
  }

  /** Every qualified team has exactly the qualifying wins and fewer than the eliminating losses. */
  ghost predicate QualifiedExactly(qs: seq<Standing>, settings: Settings)
  {
    forall t | t in qs :: t.wins == settings.qualWins && t.losses < settings.elimLosses
  }

  /** Every eliminated team has exactly the eliminating losses and fewer than the qualifying wins. */
  ghost predicate EliminatedExactly(es: seq<Standing>, settings: Settings)
  {
    forall t | t in es :: t.losses == settings.elimLosses && t.wins < settings.qualWins
  }

  /** A round played by undecided teams decides teams exactly at the thresholds. */
  lemma RoundDecidesExactly(cs: seq<Standing>, ms: seq<Matchup>, probs: seq<MatchupProbability>, settings: Settings,
                            draw: nat -> real, next: nat)
    requires Undecided(cs, settings)
    requires forall m | m in ms :: m.teamA.standing in cs && m.teamB.standing in cs
    ensures QualifiedExactly(PlayRound(ms, probs, settings, draw, next).qualified, settings)
    ensures EliminatedExactly(PlayRound(ms, probs, settings, draw, next).eliminated, settings)
  {
    forall m | m in ms ensures Pending(m.teamA.standing, settings) && Pending(m.teamB.standing, settings) {
      var i :| 0 <= i < |cs| && cs[i] == m.teamA.standing;
      var j :| 0 <= j < |cs| && cs[j] == m.teamB.standing;
    }
    var r := SimulateMatchups(ms, probs, settings, draw, next);
    MatchesStepOnce(ms, probs, settings, draw, next);
    ExtractQualElimsIsFilter(r, settings);
    FilterMembers(r, Qualifies(settings));
    FilterMembers(r, IsEliminated(settings));
  }

  /** What a finished event decides: teams qualify and are eliminated exactly at the thresholds. */
  ghost predicate DecidesExactly(r: Result<QualElimOutput>, settings: Settings)
  {
    r.Ok? ==> QualifiedExactly(r.value.qualified, settings) && EliminatedExactly(r.value.eliminated, settings)
  }

  /** From an undecided field on, every team the event decides is decided exactly at the thresholds. */
  lemma {:induction false} EventDecidesExactly(cs: seq<Standing>, qualified: seq<Standing>, eliminated: seq<Standing>,
                                               round: nat, probs: seq<MatchupProbability>, settings: Settings,
                                               draw: nat -> real, next: nat, pair: seq<Standing> -> Result<seq<Matchup>>)
    requires PairsFromField(pair) && FieldInvariant(cs, round, settings) && Undecided(cs, settings)
    requires QualifiedExactly(qualified, settings) && EliminatedExactly(eliminated, settings)
    ensures DecidesExactly(PlayEvent(cs, qualified, eliminated, round, probs, settings, draw, next, pair), settings)
    decreases settings.qualWins + settings.elimLosses + 1 - round
  {
    if cs == [] {
    } else if pair(cs).Err? {
      PlayEventFails(cs, qualified, eliminated, round, probs, settings, draw, next, pair);
    } else {
      var ms := pair(cs).value;
      var out := PlayRound(ms, probs, settings, draw, next);
      PlayEventStep(cs, qualified, eliminated, round, probs, settings, draw, next, pair, ms);
      RoundBound(cs, round, settings);
      RoundDecidesExactly(cs, ms, probs, settings, draw, next);
      assert QualifiedExactly(qualified + out.qualified, settings);
      assert EliminatedExactly(eliminated + out.eliminated, settings);
      EventDecidesExactly(out.competitors, qualified + out.qualified, eliminated + out.eliminated, round + 1,
                          probs, settings, draw, next + |ms|, pair);
    }
  }

  /** With at least one win to qualify and one loss to be eliminated, every team
      of a finished event qualified with exactly the qualifying wins or was
      eliminated with exactly the eliminating losses and fewer wins. */
  lemma EventOutcomeDecidesExactly(seedOrder: seq<string>, probs: seq<MatchupProbability>, settings: Settings,
                                   draw: nat -> real)
    requires settings.qualWins > 0 && settings.elimLosses > 0
    ensures DecidesExactly(EventOutcome(seedOrder, probs, settings, draw), settings)
  {
    RoundPairingsFromField();
    EventDecidesExactly(InitialStandings(seedOrder), [], [], 0, probs, settings, draw, 0, RoundPairings);
  }

  /** Paired teams of a field where everybody has played the same number of
      matches have identical records when the pairing keeps to record groups. */
  lemma PairedTeamsShareRecord(cs: seq<Standing>, round: nat, pair: seq<Standing> -> Result<seq<Matchup>>)
    requires PairsFromField(pair) && PairsWithinRecords(pair) && SameRound(cs, round) && pair(cs).Ok?
    ensures forall m | m in pair(cs).value ::
              m.teamA.standing.wins == m.teamB.standing.wins && m.teamA.standing.losses == m.teamB.standing.losses
  {
    forall m | m in pair(cs).value
      ensures m.teamA.standing.wins == m.teamB.standing.wins && m.teamA.standing.losses == m.teamB.standing.losses
    {
      var i :| 0 <= i < |cs| && cs[i] == m.teamA.standing;
      var j :| 0 <= j < |cs| && cs[j] == m.teamB.standing;
    }
  }

  /** Consulting only team A's record for the format is harmless in an event:
      every round's field has played the same number of matches, so team B's
      record would select the same format. */
  lemma FormatFromEitherSide(cs: seq<Standing>, round: nat, settings: Settings)
    requires SameRound(cs, round) && RoundPairings(cs).Ok?
    ensures forall m | m in RoundPairings(cs).value ::
              IsQualElim(m, settings) <==> IsQualElim(Matchup(m.teamB, m.teamA), settings)
  {
    RoundPairingsFromField();
    RoundPairingsWithinRecords();
    PairedTeamsShareRecord(cs, round, RoundPairings);
  }
}
