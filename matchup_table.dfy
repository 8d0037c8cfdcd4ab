/** The upper-triangular win-rate grid the matchup table shows and edits
    (`matchupProbabilitiesToGridItems`, `src/matchup-table.ts` lines 14-37):
    one row per team of the seed order, one slot per team, and a slot filled
    only above the diagonal, with the rates of the listing about the two teams. */
module MatchupGrid {
  import opened Collections
  import opened Standings
  import opened Event

  /** `MatchupGridRowCell`: the two rates of a listing, copied as listed. */
  datatype GridCell = GridCell(bo1TeamAWinrate: real, bo3TeamAWinrate: real)

  /** `[prob.teamA, prob.teamB].includes(team)`. */
  predicate Mentions(p: MatchupProbability, team: string)
  {
    p.teamA == team || p.teamB == team
  }

  function MentionsTeam(team: string): MatchupProbability -> bool
  {
    (p: MatchupProbability) => Mentions(p, team)
  }

  /** `Array.prototype.find` for the first listing that mentions `team`. */
  function FindMentioning(ps: seq<MatchupProbability>, team: string): (r: Option<MatchupProbability>)
    ensures r.Some? ==> r.value in ps && Mentions(r.value, team)
  {
    if ps == [] then None
    else if Mentions(ps[0], team) then Some(ps[0])
    else FindMentioning(ps[1..], team)
  }

  /** A slot: empty for `undefined` and for the empty name (both falsy); otherwise the rates
      of the first listing found, each 0 when there is no listing. */
  function Slot(rowListings: seq<MatchupProbability>, opposingTeam: Option<string>): Option<GridCell>
  {
    match opposingTeam
    case None => None
    case Some(name) =>
      if name == "" then None
      else match FindMentioning(rowListings, name)
        case None => Some(GridCell(0.0, 0.0))
        case Some(p) => Some(GridCell(p.bo1TeamAWinrate, p.bo3TeamAWinrate))
  }

  /** `opposingTeams`: the seed order with every name up to the row's own position blanked. */
  function OpposingTeams(seedOrder: seq<string>, rowIndex: nat): (r: seq<Option<string>>)
    ensures |r| == |seedOrder|
  {
    seq(|seedOrder|, colIndex requires 0 <= colIndex < |seedOrder| =>
      if colIndex <= rowIndex then None else Some(seedOrder[colIndex]))
  }

  /** The row of team `seedOrder[rowIndex]`, looked up among the listings that mention it. */
  function GridRow(probs: seq<MatchupProbability>, seedOrder: seq<string>, rowIndex: nat): seq<Option<GridCell>>
    requires rowIndex < |seedOrder|
  {
    var rowListings := Filter(probs, MentionsTeam(seedOrder[rowIndex]));
    MapSeq(OpposingTeams(seedOrder, rowIndex), (o: Option<string>) => Slot(rowListings, o))
  }

  /** `matchupProbabilitiesToGridItems`: one row per team, one slot per team in each row. */
  function GridItems(probs: seq<MatchupProbability>, seedOrder: seq<string>): (r: seq<seq<Option<GridCell>>>)
    ensures |r| == |seedOrder|
    ensures forall i | 0 <= i < |r| :: |r[i]| == |seedOrder|
  {
    seq(|seedOrder|, i requires 0 <= i < |seedOrder| => GridRow(probs, seedOrder, i))
  }

  /** The slot in row `i`, column `j`. */
  lemma SlotAt(probs: seq<MatchupProbability>, seedOrder: seq<string>, i: nat, j: nat)
    requires i < |seedOrder| && j < |seedOrder|
    ensures GridItems(probs, seedOrder)[i][j]
            == Slot(Filter(probs, MentionsTeam(seedOrder[i])), if j <= i then None else Some(seedOrder[j]))
  {
    var rowListings := Filter(probs, MentionsTeam(seedOrder[i]));
    MapSeqAt(OpposingTeams(seedOrder, i), (o: Option<string>) => Slot(rowListings, o), j);
  }

  /** A slot is empty exactly on and below the diagonal, and where the column's name is empty. */
  lemma GridSlotEmpty(probs: seq<MatchupProbability>, seedOrder: seq<string>, i: nat, j: nat)
    requires i < |seedOrder| && j < |seedOrder|
    ensures GridItems(probs, seedOrder)[i][j].None? <==> j <= i || seedOrder[j] == ""
  {
    SlotAt(probs, seedOrder, i, j);
  }

  /** For two different teams, a listing mentions both exactly when it is about the two of them. */
  lemma MentionsBoth(p: MatchupProbability, a: string, b: string)
    requires a != b
    ensures Mentions(p, a) && Mentions(p, b) <==> Involves(p, a, b)
  {
  }

  /** The listing the simulator's lookup finds for the two teams, if any. */
  function ListingFor(ps: seq<MatchupProbability>, a: string, b: string): Option<MatchupProbability>
  {
    match FindListing(ps, a, b)
    case None => None
    case Some(k) => Some(ps[k])
  }

  lemma ListingForCons(ps: seq<MatchupProbability>, a: string, b: string)
    requires ps != []
    ensures ListingFor(ps, a, b) == if Involves(ps[0], a, b) then Some(ps[0]) else ListingFor(ps[1..], a, b)
  {
    if !Involves(ps[0], a, b) {
      match FindListing(ps[1..], a, b)
      case None =>
      case Some(k) => assert ps[1..][k] == ps[k + 1];
    }
  }

  lemma FindMentioningCons(x: MatchupProbability, rest: seq<MatchupProbability>, b: string)
    ensures FindMentioning([x] + rest, b) == if Mentions(x, b) then Some(x) else FindMentioning(rest, b)
  {
    assert ([x] + rest)[0] == x && ([x] + rest)[1..] == rest;
  }

  /** Searching the listings that mention `a` for one that mentions `b` finds the first
      listing about the two teams, the one the simulator's lookup finds. */
  lemma {:induction false} FindInRowListings(ps: seq<MatchupProbability>, a: string, b: string)
    requires a != b
    ensures FindMentioning(Filter(ps, MentionsTeam(a)), b) == ListingFor(ps, a, b)
  {
    if ps != [] {
      var x, rest := ps[0], ps[1..];
      assert ps == [x] + rest;
      FilterCons(x, rest, MentionsTeam(a));
      FindInRowListings(rest, a, b);
      ListingForCons(ps, a, b);
      MentionsBoth(x, a, b);
      assert MentionsTeam(a)(x) == Mentions(x, a);
      if Mentions(x, a) {
        assert Filter(ps, MentionsTeam(a)) == [x] + Filter(rest, MentionsTeam(a));
        FindMentioningCons(x, Filter(rest, MentionsTeam(a)), b);
      } else {
        assert Filter(ps, MentionsTeam(a)) == Filter(rest, MentionsTeam(a));
      }
    }
  }

  /** A filled slot copies the rates of the first listing about the row team and the
      column team, as listed whichever team it names first, and 0 without a listing. */
  lemma GridSlotListing(probs: seq<MatchupProbability>, seedOrder: seq<string>, i: nat, j: nat)
    requires i < j < |seedOrder| && seedOrder[j] != "" && seedOrder[i] != seedOrder[j]
    ensures GridItems(probs, seedOrder)[i][j]
            == match FindListing(probs, seedOrder[i], seedOrder[j])
               case None => Some(GridCell(0.0, 0.0))
               case Some(k) => Some(GridCell(probs[k].bo1TeamAWinrate, probs[k].bo3TeamAWinrate))
  {
    SlotAt(probs, seedOrder, i, j);
    FindInRowListings(probs, seedOrder[i], seedOrder[j]);
  }
}
