/**
 * Differential picks: the best value-for-credits players whose name appears
 * in none of the suggested teams.
 */
module Differentials {
  import opened Seqs
  import opened Players
  import opened Optimizer
  import opened Pitch

  const DifferentialCount: nat := 5

  /** Every name that occurs in some team. */
  function TeamNames(teams: seq<Team>): (names: set<string>)
    ensures forall t <- teams, p <- t.players :: p.name in names
    ensures forall n <- names :: exists t <- teams :: exists p <- t.players :: p.name == n
  {
    set t, p | t in teams && p in t.players :: p.name
  }

  /** The players whose name is not in `names`, in their original order. */
  function Unpicked(players: seq<Player>, names: set<string>): (r: seq<Player>)
    ensures forall p :: p in r <==> p in players && p.name !in names
    ensures multiset(r) <= multiset(players)
    ensures forall p :: multiset(r)[p] == if p.name in names then 0 else multiset(players)[p]
    ensures IsSubseq(r, players)
  {
    if players == [] then []
    else
      var rest := Unpicked(players[1..], names);
      assert players == [players[0]] + players[1..];
      assert multiset(players) == multiset{players[0]} + multiset(players[1..]);
      if players[0].name in names then
        assert IsSubseq(rest, players) by {
          if rest != [] { assert IsSubseq(rest, players[1..]); }
        }
        rest
      else
        assert ([players[0]] + rest)[1..] == rest;
        [players[0]] + rest
  }

  /** Score per credit. */
  function Value(p: Player): real
    requires p.credits != 0.0
  {
    p.score / p.credits
  }

  /**
   * The unpicked players ranked by score per credit, best first, cut to
   * five. Names, not records, decide who is unpicked.
   */
  function IdentifyDifferentials(players: seq<Player>, teams: seq<Team>): (r: seq<Player>)
    requires forall p <- players :: p.name !in TeamNames(teams) ==> p.credits != 0.0
    ensures |r| <= DifferentialCount
    ensures multiset(r) <= multiset(players)
    ensures forall p <- r :: p.name !in TeamNames(teams) && p.credits != 0.0
    ensures forall p <- r, t <- teams :: p !in t.players
    ensures SortedDesc(r, Value)
    ensures forall p <- players :: p.name !in TeamNames(teams) ==>
      p in r || (|r| > 0 && Value(p) <= Value(r[|r| - 1]))
    ensures |r| == Min(DifferentialCount, |Unpicked(players, TeamNames(teams))|)
    ensures |r| < DifferentialCount ==> forall p <- players :: p.name !in TeamNames(teams) ==> p in r
  {
    var pool := Unpicked(players, TeamNames(teams));
    assert forall p <- players :: p.name !in TeamNames(teams) ==> p in pool;
    TopK(pool, Value, DifferentialCount)
  }

  /**
   * The cut copy by copy: a candidate that occurs more often in the unpicked
   * pool than among the differentials has a ratio no higher than the last
   * differential's.
   */
  lemma DifferentialsCopies(players: seq<Player>, teams: seq<Team>)
    requires forall p <- players :: p.name !in TeamNames(teams) ==> p.credits != 0.0
    ensures var r := IdentifyDifferentials(players, teams);
      var pool := Unpicked(players, TeamNames(teams));
      forall p <- pool :: multiset(r)[p] < multiset(pool)[p] ==> |r| > 0 && Value(p) <= Value(r[|r| - 1])
  {
    TopKCopies(Unpicked(players, TeamNames(teams)), Value, DifferentialCount);
  }

  /**
   * Players built from sheet rows, scored and pitch-adjusted, always satisfy
   * the ratio's precondition: credits are at least 7.5.
   */
  lemma SheetPlayersHaveValue(rows: seq<Row>, pitch: string, teams: seq<Team>)
    ensures var players := ApplyPitchEffects(CalculateScores(ProcessData(rows)), pitch);
      forall p <- players :: p.credits >= 7.5 && (p.name !in TeamNames(teams) ==> p.credits != 0.0)
  {
  }
}
