/** What the histories of an event's teams record (`src/simulator.ts`, lines
    275-343 and 345-432): every meeting is written down on both sides, no team
    meets itself, and, because the scheduler never pairs a team with one already
    in its history, no team meets the same opponent twice in one event. */
module Meetings {
  import opened Collections
  import opened Standings
  import opened Scheduler
  import opened Event
  import opened Aggregation

  /** No opponent occurs twice in the team's history. */
  ghost predicate NeverMetTwice(t: Standing)
  {
    forall i, j | 0 <= i < j < |t.pastOpponents| :: t.pastOpponents[i].teamName != t.pastOpponents[j].teamName
  }

  /** The histories of `s` record meetings consistently: no team has met the
      same opponent twice or met itself, and a team lists another exactly when
      the other lists it. */
  ghost predicate MeetingsConsistent(s: seq<Standing>)
  {
    && (forall t {:trigger NeverMetTwice(t)} | t in s :: NeverMetTwice(t))
    && (forall t {:trigger HasPlayed(t, t.name)} | t in s :: !HasPlayed(t, t.name))
    && (forall x, y {:trigger HasPlayed(x, y.name)} | x in s && y in s :: HasPlayed(x, y.name) <==> HasPlayed(y, x.name))
  }

  /** No name is carried by two teams of `s`. */
  ghost predicate UniqueNames(s: seq<Standing>)
  {
    forall n :: multiset(Names(s))[n] <= 1
  }

  /** A pairing rule that never pairs a team with one its history already names. */
  ghost predicate AvoidsRematches(pair: seq<Standing> -> Result<seq<Matchup>>)
  {
    forall cs: seq<Standing>, m: Matchup | pair(cs).Ok? && m in pair(cs).value :: !IsRematch(m)
  }

  /** The scheduler's pairing never pairs a team with one its history already names. */
  lemma RoundPairingsAvoidRematches()
    ensures AvoidsRematches(RoundPairings)
  {
    forall cs: seq<Standing>, m: Matchup | RoundPairings(cs).Ok? && m in RoundPairings(cs).value
      ensures !IsRematch(m)
    {
      RoundPairsWithinRecordsWithoutRematches(cs);
    }
  }

  // ---------------------------------------------------------------------------
  // One round
  // ---------------------------------------------------------------------------

  /** The position of the other team of the same matchup, in a list of matchups laid out pair after pair. */
  function Partner(p: nat): nat
  {
    if p % 2 == 0 then p + 1 else p - 1
  }

  /** Two equal entries of a list at different positions occur twice in its multiset. */
  lemma {:induction false} RepeatedEntry<T>(s: seq<T>, p: nat, q: nat)
    requires p < q < |s|
    ensures s[p] == s[q] ==> multiset(s)[s[p]] >= 2
  {
    assert s == s[..p] + [s[p]] + s[p + 1..q] + [s[q]] + s[q + 1..];
  }

  /** In a list without repeated names, different positions hold different names. */
  lemma NamesDifferAt(s: seq<Standing>, p: nat, q: nat)
    requires UniqueNames(s) && p < |s| && q < |s| && p != q
    ensures s[p].name != s[q].name
  {
    MapSeqAt(s, NameOf, p);
    MapSeqAt(s, NameOf, q);
    if p < q {
      RepeatedEntry(Names(s), p, q);
    } else {
      RepeatedEntry(Names(s), q, p);
    }
  }

  /** The standings of matchup `i` sit at positions `2 i` and `2 i + 1`. */
  lemma {:induction false} MatchupStandingsAt(ms: seq<Matchup>, i: nat)
    requires i < |ms|
    ensures MatchupStandings(ms)[2 * i] == ms[i].teamA.standing
    ensures MatchupStandings(ms)[2 * i + 1] == ms[i].teamB.standing
  {
    if i > 0 {
      MatchupStandingsAt(ms[1..], i - 1);
    }
  }

  /** Position `p` belongs to matchup `p / 2`: it is team A's side or team B's. */
  lemma PairOf(p: nat) returns (i: nat)
    ensures (p == 2 * i && Partner(p) == 2 * i + 1) || (p == 2 * i + 1 && Partner(p) == 2 * i)
  {
    i := p / 2;
  }

  /** `after` is `before` with one more match, against `opponent`. */
  ghost predicate Gained(before: Standing, after: Standing, opponent: string)
  {
    && after.name == before.name
    && |after.pastOpponents| == |before.pastOpponents| + 1
    && after.pastOpponents[..|before.pastOpponents|] == before.pastOpponents
    && after.pastOpponents[|before.pastOpponents|].teamName == opponent
  }

  /** After the round both teams of matchup `i` keep their names, and each
      history gains one entry naming the other team. */
  lemma AfterMatch(ms: seq<Matchup>, probs: seq<MatchupProbability>, settings: Settings,
                   draw: nat -> real, next: nat, i: nat)
    requires i < |ms|
    ensures var f, r := MatchupStandings(ms), SimulateMatchups(ms, probs, settings, draw, next);
            Gained(f[2 * i], r[2 * i], f[2 * i + 1].name) && Gained(f[2 * i + 1], r[2 * i + 1], f[2 * i].name)
  {
    SimulateMatchupsAt(ms, probs, settings, draw, next, i);
    MatchIsZeroSum(ms[i], probs, settings, draw(next + i));
    MatchupStandingsAt(ms, i);
  }

  /** A history that gains one entry names exactly what it named before plus the
      new opponent, and stays free of repeats when the new opponent is not yet in it. */
  lemma {:induction false} AppendOpponent(t: Standing, t': Standing, opponent: string)
    requires Gained(t, t', opponent)
    ensures forall n :: HasPlayed(t', n) <==> HasPlayed(t, n) || n == opponent
    ensures NeverMetTwice(t) && !HasPlayed(t, opponent) ==> NeverMetTwice(t')
  {
    var h, h', last := t.pastOpponents, t'.pastOpponents, |t.pastOpponents|;
    assert forall k | 0 <= k < last :: h'[k] == h[k] by {
      forall k | 0 <= k < last ensures h'[k] == h[k] {
        assert h'[..last][k] == h'[k];
      }
    }
    forall n ensures HasPlayed(t', n) <==> HasPlayed(t, n) || n == h'[last].teamName {
      if HasPlayed(t', n) && n != h'[last].teamName {
        var k :| 0 <= k < |h'| && h'[k].teamName == n;
        assert h[k].teamName == n;
      }
    }
  }

  /** Meeting is mutual between two teams of a list with consistent histories. */
  lemma Mutual(s: seq<Standing>, x: Standing, y: Standing)
    requires MeetingsConsistent(s) && x in s && y in s
    ensures HasPlayed(x, y.name) <==> HasPlayed(y, x.name)
  {
  }

  /** Neither side of a matchup of the round has met the other: the scheduler
      checked the high team's history, and meeting is mutual. */
  lemma NoRematchAt(ms: seq<Matchup>, i: nat)
    requires i < |ms| && !IsRematch(ms[i])
    requires HasPlayed(ms[i].teamB.standing, ms[i].teamA.standing.name)
             ==> HasPlayed(ms[i].teamA.standing, ms[i].teamB.standing.name)
    ensures var f := MatchupStandings(ms);
            !HasPlayed(f[2 * i], f[2 * i + 1].name) && !HasPlayed(f[2 * i + 1], f[2 * i].name)
  {
    MatchupStandingsAt(ms, i);
  }

  /** Both teams of matchup `i` are in the decided teams followed by the round's teams. */
  lemma MatchupInList(d: seq<Standing>, ms: seq<Matchup>, i: nat)
    requires i < |ms|
    ensures ms[i].teamA.standing in d + MatchupStandings(ms) && ms[i].teamB.standing in d + MatchupStandings(ms)
  {
    MatchupStandingsAt(ms, i);
    assert (d + MatchupStandings(ms))[|d| + 2 * i] == ms[i].teamA.standing;
    assert (d + MatchupStandings(ms))[|d| + 2 * i + 1] == ms[i].teamB.standing;
  }

  /** What the round did to position `k`, comparing the list after it, `h`, with
      the list before, `g`, whose first `n` teams sat the round out: those are
      unchanged; every other team keeps its name, has newly met the team at its
      partner position, whom it had not met before, and still never met anyone twice. */
  ghost predicate Advanced(g: seq<Standing>, h: seq<Standing>, n: nat, k: nat)
    requires |g| == |h| && k < |h|
  {
    if k < n then h[k] == g[k]
    else
      && n + Partner(k - n) < |g|
      && h[k].name == g[k].name
      && (forall nm :: HasPlayed(h[k], nm) <==> HasPlayed(g[k], nm) || nm == g[n + Partner(k - n)].name)
      && !HasPlayed(g[k], g[n + Partner(k - n)].name)
      && NeverMetTwice(h[k])
  }

  /** Every position of the decided teams followed by the round's results is advanced. */
  lemma RoundAdvances(d: seq<Standing>, ms: seq<Matchup>, probs: seq<MatchupProbability>, settings: Settings,
                      draw: nat -> real, next: nat)
    requires forall m | m in ms :: !IsRematch(m)
    requires MeetingsConsistent(d + MatchupStandings(ms))
    ensures var g, h := d + MatchupStandings(ms), d + SimulateMatchups(ms, probs, settings, draw, next);
            forall k | 0 <= k < |h| :: Advanced(g, h, |d|, k)
  {
    var f, r := MatchupStandings(ms), SimulateMatchups(ms, probs, settings, draw, next);
    var g, h, n := d + f, d + r, |d|;
    forall k | 0 <= k < |h| ensures Advanced(g, h, n, k) {
      if n <= k {
        var p := k - n;
        var i := PairOf(p);
        AfterMatch(ms, probs, settings, draw, next, i);
        AppendOpponent(f[p], r[p], f[Partner(p)].name);
        assert ms[i] in ms;
        MatchupInList(d, ms, i);
        Mutual(g, ms[i].teamA.standing, ms[i].teamB.standing);
        NoRematchAt(ms, i);
        assert g[k] == f[p] && h[k] == r[p] && g[n + Partner(p)] == f[Partner(p)];
        assert g[k] in g;
      }
    }
  }

  /** An advanced position has met neither itself nor anyone twice. */
  lemma PositionConsistent(g: seq<Standing>, h: seq<Standing>, n: nat, k: nat)
    requires |g| == |h| && k < |h| && Advanced(g, h, n, k)
    requires UniqueNames(g) && MeetingsConsistent(g)
    ensures NeverMetTwice(h[k]) && !HasPlayed(h[k], h[k].name)
  {
    assert g[k] in g;
    if n <= k {
      NamesDifferAt(g, k, n + Partner(k - n));
    }
  }

  /** Meeting stays mutual through the round: position `k` has met position `l`
      afterwards exactly when it had before or the two were just paired, and
      being paired is mutual. */
  lemma SymmetricAt(g: seq<Standing>, h: seq<Standing>, n: nat, k: nat, l: nat)
    requires |g| == |h| && k < |h| && l < |h| && Advanced(g, h, n, k) && Advanced(g, h, n, l)
    requires UniqueNames(g) && MeetingsConsistent(g)
    ensures HasPlayed(h[k], h[l].name) <==> HasPlayed(h[l], h[k].name)
  {
    assert g[k] in g && g[l] in g;
    if n <= k {
      var m := n + Partner(k - n);
      if l != m {
        NamesDifferAt(g, l, m);
      }
    }
    if n <= l {
      var m := n + Partner(l - n);
      if k != m {
        NamesDifferAt(g, k, m);
      }
    }
  }

  /** Two lists holding the same teams agree on unique names and consistent histories. */
  lemma SameTeams(s: seq<Standing>, t: seq<Standing>)
    requires multiset(s) == multiset(t)
    requires UniqueNames(t) && MeetingsConsistent(t)
    ensures UniqueNames(s) && MeetingsConsistent(s)
  {
    MapSeqMultiset(s, t, NameOf);
    assert multiset(Names(s)) == multiset(Names(t));
    forall x | x in s ensures x in t {
      assert x in multiset(s);
    }
  }

  /** Before the round, the decided teams `d` and the field `cs` carry different
      names and consistent histories; the round pairs the whole field without a
      rematch. Then the decided teams and the round's results still carry
      different names and consistent histories. */
  lemma RoundKeepsMeetingsConsistent(d: seq<Standing>, cs: seq<Standing>, ms: seq<Matchup>,
                                     probs: seq<MatchupProbability>, settings: Settings,
                                     draw: nat -> real, next: nat)
    requires multiset(MatchupStandings(ms)) == multiset(cs)
    requires forall m | m in ms :: !IsRematch(m)
    requires UniqueNames(d + cs) && MeetingsConsistent(d + cs)
    ensures var r := SimulateMatchups(ms, probs, settings, draw, next);
            UniqueNames(d + r) && MeetingsConsistent(d + r)
  {
    var f, r := MatchupStandings(ms), SimulateMatchups(ms, probs, settings, draw, next);
    var g, h, n := d + f, d + r, |d|;
    SameTeams(g, d + cs);
    RoundAdvances(d, ms, probs, settings, draw, next);
    RoundKeepsNames(ms, probs, settings, draw, next);
    MapSeqAppend(d, r, NameOf);
    MapSeqAppend(d, f, NameOf);
    assert Names(h) == Names(g);
    forall t | t in h ensures NeverMetTwice(t) && !HasPlayed(t, t.name) {
      var k :| 0 <= k < |h| && h[k] == t;
      PositionConsistent(g, h, n, k);
    }
    forall x, y | x in h && y in h ensures HasPlayed(x, y.name) <==> HasPlayed(y, x.name) {
      var k :| 0 <= k < |h| && h[k] == x;
      var l :| 0 <= l < |h| && h[l] == y;
      SymmetricAt(g, h, n, k, l);
    }
  }

  /** The lists a round leaves hold the decided teams and the round's results. */
  lemma RoundRegroups(qualified: seq<Standing>, eliminated: seq<Standing>, ms: seq<Matchup>,
                      probs: seq<MatchupProbability>, settings: Settings, draw: nat -> real, next: nat)
    ensures var out := PlayRound(ms, probs, settings, draw, next);
            multiset((qualified + out.qualified) + (eliminated + out.eliminated) + out.competitors)
            == multiset(qualified + eliminated + SimulateMatchups(ms, probs, settings, draw, next))
  {
    ExtractQualElimsPartitions(SimulateMatchups(ms, probs, settings, draw, next), settings);
  }

  // ---------------------------------------------------------------------------
  // The whole event
  // ---------------------------------------------------------------------------

  /** One round of the event keeps the names unique and the histories consistent
      across the decided teams and the field. */
  lemma NextRoundConsistent(cs: seq<Standing>, qualified: seq<Standing>, eliminated: seq<Standing>,
                            pair: seq<Standing> -> Result<seq<Matchup>>, ms: seq<Matchup>,
                            probs: seq<MatchupProbability>, settings: Settings, draw: nat -> real, next: nat)
    requires PairsWholeField(pair) && AvoidsRematches(pair) && pair(cs) == Ok(ms)
    requires UniqueNames(qualified + eliminated + cs) && MeetingsConsistent(qualified + eliminated + cs)
    ensures var out := PlayRound(ms, probs, settings, draw, next);
            var after := (qualified + out.qualified) + (eliminated + out.eliminated) + out.competitors;
            UniqueNames(after) && MeetingsConsistent(after)
  {
    var out := PlayRound(ms, probs, settings, draw, next);
    RoundKeepsMeetingsConsistent(qualified + eliminated, cs, ms, probs, settings, draw, next);
    RoundRegroups(qualified, eliminated, ms, probs, settings, draw, next);
    SameTeams((qualified + out.qualified) + (eliminated + out.eliminated) + out.competitors,
              qualified + eliminated + SimulateMatchups(ms, probs, settings, draw, next));
  }

  /** The decided teams and the field after a round that ended as `out`. */
  function After(qualified: seq<Standing>, eliminated: seq<Standing>, out: QualElimOutput): seq<Standing>
  {
    (qualified + out.qualified) + (eliminated + out.eliminated) + out.competitors
  }

  /** `inv`, a property of the decided teams followed by the field, holds after
      every round the pairing rule `pair` can pair, whenever it held before. */
  ghost predicate RoundsPreserve(inv: seq<Standing> -> bool, pair: seq<Standing> -> Result<seq<Matchup>>,
                                 probs: seq<MatchupProbability>, settings: Settings, draw: nat -> real)
  {
    forall cs: seq<Standing>, qualified: seq<Standing>, eliminated: seq<Standing>, ms: seq<Matchup>, next: nat
      {:trigger inv(qualified + eliminated + cs), After(qualified, eliminated, PlayRound(ms, probs, settings, draw, next))}
      | pair(cs) == Ok(ms) && inv(qualified + eliminated + cs) ::
      inv(After(qualified, eliminated, PlayRound(ms, probs, settings, draw, next)))
  }

  /** `inv` holds of the teams an event has decided, if it finished. */
  ghost predicate DecidedHold(inv: seq<Standing> -> bool, r: Result<QualElimOutput>)
  {
    r.Ok? ==> inv(r.value.qualified + r.value.eliminated)
  }

  /** Induction over the rounds of an event: a property of the decided teams
      and the field that every round preserves holds of the teams a finished
      event has decided. */
  lemma {:induction false} EventKeepsInvariant(cs: seq<Standing>, qualified: seq<Standing>, eliminated: seq<Standing>,
                                               round: nat, probs: seq<MatchupProbability>, settings: Settings,
                                               draw: nat -> real, next: nat,
                                               pair: seq<Standing> -> Result<seq<Matchup>>,
                                               inv: seq<Standing> -> bool)
    requires PairsFromField(pair) && FieldInvariant(cs, round, settings)
    requires RoundsPreserve(inv, pair, probs, settings, draw) && inv(qualified + eliminated + cs)
    ensures DecidedHold(inv, PlayEvent(cs, qualified, eliminated, round, probs, settings, draw, next, pair))
    decreases settings.qualWins + settings.elimLosses + 1 - round
  {
    if cs == [] {
      assert qualified + eliminated + cs == qualified + eliminated;
      assert PlayEvent(cs, qualified, eliminated, round, probs, settings, draw, next, pair)
             == Ok(QualElimOutput(qualified, eliminated, cs));
    } else if pair(cs).Err? {
      PlayEventFails(cs, qualified, eliminated, round, probs, settings, draw, next, pair);
    } else {
      var ms := pair(cs).value;
      var out := PlayRound(ms, probs, settings, draw, next);
      PlayEventStep(cs, qualified, eliminated, round, probs, settings, draw, next, pair, ms);
      RoundBound(cs, round, settings);
      assert inv(After(qualified, eliminated, out));
      EventKeepsInvariant(out.competitors, qualified + out.qualified, eliminated + out.eliminated, round + 1,
                          probs, settings, draw, next + |ms|, pair, inv);
    }
  }

  /** Names unique and histories consistent: what every round of an event keeps. */
  ghost predicate Consistent(s: seq<Standing>)
  {
    UniqueNames(s) && MeetingsConsistent(s)
  }

  /** Every round the Swiss scheduler pairs keeps `Consistent`. */
  lemma ConsistencyRoundsPreserve(probs: seq<MatchupProbability>, settings: Settings, draw: nat -> real)
    ensures RoundsPreserve(Consistent, RoundPairings, probs, settings, draw)
  {
    RoundPairingsWholeField();
    RoundPairingsAvoidRematches();
    forall cs: seq<Standing>, qualified: seq<Standing>, eliminated: seq<Standing>, ms: seq<Matchup>, next: nat
      | RoundPairings(cs) == Ok(ms) && Consistent(qualified + eliminated + cs)
      ensures Consistent(After(qualified, eliminated, PlayRound(ms, probs, settings, draw, next)))
    {
      NextRoundConsistent(cs, qualified, eliminated, RoundPairings, ms, probs, settings, draw, next);
    }
  }

  /** The opening field of a seed order without repeated names is `Consistent`:
      the names are those of the seed order and nobody has met anybody. */
  lemma InitialConsistent(seedOrder: seq<string>)
    requires Distinct(seedOrder)
    ensures Consistent(InitialStandings(seedOrder))
  {
    var cs := InitialStandings(seedOrder);
    InitialNames(seedOrder);
    forall nm ensures multiset(Names(cs))[nm] <= 1 {
      DistinctOnce(seedOrder, nm);
    }
    forall t | t in cs ensures t.pastOpponents == [] {
      var i :| 0 <= i < |cs| && cs[i] == t;
    }
  }

  /** `simulateEvent` over a seed order without repeated names: when the event
      finishes, every team's history records each meeting once, nobody has met
      itself, and a team lists another exactly when the other lists it. The
      scheduler recognises a past opponent by name only, so two teams sharing a
      name could meet a third twice; the seed order is required to be free of repeats. */
  lemma EventOutcomeRecordsMeetings(seedOrder: seq<string>, probs: seq<MatchupProbability>, settings: Settings,
                                   draw: nat -> real)
    requires Distinct(seedOrder)
    ensures var r := EventOutcome(seedOrder, probs, settings, draw);
            r.Ok? ==> MeetingsConsistent(r.value.qualified + r.value.eliminated)
  {
    var cs := InitialStandings(seedOrder);
    RoundPairingsFromField();
    ConsistencyRoundsPreserve(probs, settings, draw);
    InitialConsistent(seedOrder);
    assert [] + [] + cs == cs;
    EventKeepsInvariant(cs, [], [], 0, probs, settings, draw, 0, RoundPairings, Consistent);
  }
}
