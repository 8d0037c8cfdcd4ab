/** The records the tournament engine passes around (`src/simulator.ts`,
    lines 1-80): a team's standing within one event, its history of past
    opponents, the matchups of a round, the pairwise win-rate listings and the
    event's format settings. */
module Standings {
  import opened Collections

  /** Match format. The worker copy of the engine writes these as the literals 1 and 3. */
  datatype BestOf = Bo1 | Bo3

  /** One match already played, from the point of view of the team that keeps the entry. */
  datatype PastOpponent = PastOpponent(teamName: string, bestOf: BestOf, won: bool)

  /** A team's standing in the current event; `seed` is its 1-based initial rank. */
  datatype Standing = Standing(
    name: string,
    seed: nat,
    wins: nat,
    losses: nat,
    pastOpponents: seq<PastOpponent>)

  /** `TeamStandingWithDifficulty`: a standing plus this round's difficulty score. */
  datatype RankedStanding = RankedStanding(standing: Standing, difficulty: int)

  /** One game of a round: `teamA` is the higher-placed team of the pair. */
  datatype Matchup = Matchup(teamA: RankedStanding, teamB: RankedStanding)

  /** Wins that qualify a team, losses that eliminate it. */
  datatype Settings = Settings(qualWins: nat, elimLosses: nat)

  /** A listing of the win-rate table: the rates are `teamA`'s chance to beat `teamB`. */
  datatype MatchupProbability = MatchupProbability(
    teamA: string,
    teamB: string,
    bo1TeamAWinrate: real,
    bo3TeamAWinrate: real)

  /** The two errors the scheduler throws: "No valid matchups without rematches!"
      (six-team table exhausted) and "Missing low seed team" (no partner left). */
  datatype ScheduleError = NoValidMatchups | MissingLowSeedTeam

  /** A value, or the error a scheduler `throw` carries up to the caller. */
  datatype Result<T> = Ok(value: T) | Err(error: ScheduleError)

  /** `QualElimOutput`: an event's (or one round's) teams split three ways. */
  datatype QualElimOutput = QualElimOutput(
    qualified: seq<Standing>,
    eliminated: seq<Standing>,
    competitors: seq<Standing>)

  /** The record a team is grouped by: wins minus losses. */
  function Differential(t: Standing): int
  {
    t.wins - t.losses
  }

  /** Matches a team has played. */
  function Games(t: Standing): nat
  {
    t.wins + t.losses
  }

  /** Whether `team`'s history names `name`, i.e. the two have met in this event. */
  predicate HasPlayed(team: Standing, name: string)
  {
    exists k | 0 <= k < |team.pastOpponents| :: team.pastOpponents[k].teamName == name
  }

  function NameOf(t: Standing): string
  {
    t.name
  }

  function StandingOf(t: RankedStanding): Standing
  {
    t.standing
  }

  function RankedNameOf(t: RankedStanding): string
  {
    t.standing.name
  }

  /** The team names of a list of standings, in order. */
  function Names(s: seq<Standing>): seq<string>
  {
    MapSeq(s, NameOf)
  }

  /** The teams of a list of matchups, pair after pair (`teamA` first). */
  function FlattenMatchups(ms: seq<Matchup>): (r: seq<RankedStanding>)
    ensures |r| == 2 * |ms|
  {
    if ms == [] then [] else [ms[0].teamA, ms[0].teamB] + FlattenMatchups(ms[1..])
  }

  /** The teams of a leading matchup come first. */
  lemma FlattenMatchupsCons(m: Matchup, ms: seq<Matchup>)
    ensures FlattenMatchups([m] + ms) == [m.teamA, m.teamB] + FlattenMatchups(ms)
  {
    assert ([m] + ms)[1..] == ms;
  }

  lemma {:induction false} FlattenMatchupsAppend(a: seq<Matchup>, b: seq<Matchup>)
    ensures FlattenMatchups(a + b) == FlattenMatchups(a) + FlattenMatchups(b)
  {
    if a == [] {
      assert a + b == b;
    } else {
      assert (a + b)[1..] == a[1..] + b;
      FlattenMatchupsAppend(a[1..], b);
    }
  }

  /** Both teams of every matchup occur in the flattened list. */
  lemma {:induction false} FlattenMatchupsHas(ms: seq<Matchup>, i: nat)
    requires i < |ms|
    ensures FlattenMatchups(ms)[2 * i] == ms[i].teamA
    ensures FlattenMatchups(ms)[2 * i + 1] == ms[i].teamB
  {
    if i > 0 {
      FlattenMatchupsHas(ms[1..], i - 1);
    }
  }
}
