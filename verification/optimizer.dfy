/**
 * Brute-force team optimiser: every 11-player combination of the
 * (pitch-adjusted) pool is checked against the credit cap and the role
 * bounds, scored with captain and vice-captain bonuses, and the three best
 * are returned.
 */
module Optimizer {
  import opened Results
  import opened Seqs
  import opened Roles
  import opened Players
  import opened Pitch

  const TeamSize: nat := 11
  const CreditCap: real := 100.0
  /** Extra multiple of the captain's score added on top of the plain sum. */
  const CaptainBonus: real := 1.5
  /** Extra multiple of the vice-captain's score added on top of the plain sum. */
  const ViceCaptainBonus: real := 1.25
  const TopTeams: nat := 3

  /** Counting a role that has no counter raises `KeyError` with that role's name. */
  datatype OptError = KeyError(key: string)

  datatype Team = Team(players: seq<Player>, totalScore: real, captain: Player, viceCaptain: Player)

  /** What the optimiser does with one combination. */
  datatype Verdict = Skipped | Raises | Accepted(team: Team)

  function TotalCredits(team: seq<Player>): real
  {
    if team == [] then 0.0 else team[0].credits + TotalCredits(team[1..])
  }

  function TotalScore(team: seq<Player>): real
  {
    if team == [] then 0.0 else team[0].score + TotalScore(team[1..])
  }

  function CountRole(team: seq<Player>, role: Role): nat
  {
    if team == [] then 0
    else (if team[0].role == role then 1 else 0) + CountRole(team[1..], role)
  }

  predicate HasUnknown(team: seq<Player>)
  {
    exists i :: 0 <= i < |team| && team[i].role == UNK
  }

  /** At least one wicketkeeper (no upper bound), 3-5 batters, 3-5 bowlers, 1-4 all-rounders. */
  predicate RolesBalanced(team: seq<Player>)
  {
    && CountRole(team, WK) >= 1
    && 3 <= CountRole(team, BAT) <= 5
    && 3 <= CountRole(team, BOWL) <= 5
    && 1 <= CountRole(team, AR) <= 4
  }

  /** A combination the optimiser keeps. */
  predicate ValidTeam(team: seq<Player>)
  {
    && |team| == TeamSize
    && TotalCredits(team) <= CreditCap
    && !HasUnknown(team)
    && RolesBalanced(team)
  }

  /**
   * The best-scoring position among the first `n` of `team`, other than
   * `skip`, the earliest one on ties; `None` when there is no candidate.
   */
  function BestIn(team: seq<Player>, skip: int, n: nat): (b: Option<nat>)
    requires n <= |team|
    ensures b.None? <==> n == 0 || (n == 1 && skip == 0)
    ensures b.Some? ==> b.value < n && b.value != skip
    ensures b.Some? ==> forall i :: 0 <= i < n && i != skip ==> team[i].score <= team[b.value].score
    ensures b.Some? ==> forall i :: 0 <= i < b.value && i != skip ==> team[i].score < team[b.value].score
  {
    if n == 0 then None
    else
      var b := BestIn(team, skip, n - 1);
      if n - 1 == skip then b
      else if b.None? || team[n - 1].score > team[b.value].score then Some(n - 1)
      else b
  }

  /**
   * Position of the first highest score other than `skip`: the element a
   * stable descending sort puts first once `skip` is set aside.
   */
  function FirstMax(team: seq<Player>, skip: int): (k: nat)
    requires |team| >= 2
    ensures k < |team| && k != skip
    ensures forall i :: 0 <= i < |team| && i != skip ==> team[i].score <= team[k].score
    ensures forall i :: 0 <= i < k && i != skip ==> team[i].score < team[k].score
  {
    var b := BestIn(team, skip, |team|);
    b.value
  }

  /** Captain and vice-captain are two different members, the two best-scoring ones. */
  predicate CaptainsChosen(t: Team)
  {
    exists c, v ::
      && 0 <= c < |t.players| && 0 <= v < |t.players| && c != v
      && t.players[c] == t.captain && t.players[v] == t.viceCaptain
      && (forall i :: 0 <= i < |t.players| ==> t.players[i].score <= t.captain.score)
      && (forall i :: 0 <= i < |t.players| && i != c ==> t.players[i].score <= t.viceCaptain.score)
  }

  /** The team total: every score once, plus the captain's and vice-captain's bonuses. */
  predicate ScoredWithBonus(t: Team)
  {
    t.totalScore == TotalScore(t.players) + t.captain.score * CaptainBonus + t.viceCaptain.score * ViceCaptainBonus
  }

  /** No other choice of two distinct members as captain and vice-captain gives a higher total. */
  predicate BonusMaximal(t: Team)
  {
    forall i, j :: 0 <= i < |t.players| && 0 <= j < |t.players| && i != j ==>
      TotalScore(t.players) + t.players[i].score * CaptainBonus + t.players[j].score * ViceCaptainBonus
        <= t.totalScore
  }

  /**
   * Two scores, one of them no higher than the second-best, earn at most the
   * bonuses of the best and the second-best.
   */
  lemma BonusPairBound(a: real, b: real, best: real, second: real)
    requires a <= best && b <= best && second <= best
    requires a <= second || b <= second
    ensures a * CaptainBonus + b * ViceCaptainBonus <= best * CaptainBonus + second * ViceCaptainBonus
  {
  }

  /** Scores a combination: captain is the top scorer, vice-captain the next. */
  function MakeTeam(team: seq<Player>): (t: Team)
    requires |team| >= 2
    ensures t.players == team
    ensures CaptainsChosen(t)
    ensures ScoredWithBonus(t)
    ensures BonusMaximal(t)
  {
    var c := FirstMax(team, -1);
    var v := FirstMax(team, c);
    var t := Team(team, TotalScore(team) + team[c].score * CaptainBonus + team[v].score * ViceCaptainBonus,
                  team[c], team[v]);
    TopTwoChosen(t, c, v);
    TopTwoMaximal(t, c, v);
    t
  }

  /** The positions picked by `FirstMax` witness `CaptainsChosen`. */
  lemma TopTwoChosen(t: Team, c: nat, v: nat)
    requires c < |t.players| && v < |t.players| && c != v
    requires t.captain == t.players[c] && t.viceCaptain == t.players[v]
    requires forall i :: 0 <= i < |t.players| ==> t.players[i].score <= t.players[c].score
    requires forall i :: 0 <= i < |t.players| && i != c ==> t.players[i].score <= t.players[v].score
    ensures CaptainsChosen(t)
  {
  }

  /** Captaincy by the two best scorers maximises the bonus total. */
  lemma TopTwoMaximal(t: Team, c: nat, v: nat)
    requires c < |t.players| && v < |t.players| && c != v
    requires t.captain == t.players[c] && t.viceCaptain == t.players[v]
    requires forall i :: 0 <= i < |t.players| ==> t.players[i].score <= t.players[c].score
    requires forall i :: 0 <= i < |t.players| && i != c ==> t.players[i].score <= t.players[v].score
    requires ScoredWithBonus(t)
    ensures BonusMaximal(t)
  {
    var team := t.players;
    forall i, j | 0 <= i < |team| && 0 <= j < |team| && i != j
      ensures team[i].score * CaptainBonus + team[j].score * ViceCaptainBonus
        <= team[c].score * CaptainBonus + team[v].score * ViceCaptainBonus
    {
      BonusPairBound(team[i].score, team[j].score, team[c].score, team[v].score);
    }
  }

  /**
   * One combination, in the order the source checks it: over the credit cap
   * is skipped; otherwise an unknown role raises; otherwise an unbalanced
   * team is skipped; otherwise the team is scored.
   */
  function Evaluate(combo: seq<Player>): (v: Verdict)
    requires |combo| == TeamSize
    ensures v.Raises? <==> TotalCredits(combo) <= CreditCap && HasUnknown(combo)
    ensures v.Accepted? <==> ValidTeam(combo)
    ensures v.Accepted? ==> v.team == MakeTeam(combo)
  {
    if TotalCredits(combo) > CreditCap then Skipped
    else if HasUnknown(combo) then Raises
    else if !RolesBalanced(combo) then Skipped
    else Accepted(MakeTeam(combo))
  }

  /** The verdict on every combination, in enumeration order. */
  function EvaluateAll(cs: seq<seq<Player>>): (vs: seq<Verdict>)
    requires forall c <- cs :: |c| == TeamSize
    ensures |vs| == |cs|
    ensures forall i :: 0 <= i < |cs| ==> vs[i] == Evaluate(cs[i])
  {
    seq(|cs|, i requires 0 <= i < |cs| => Evaluate(cs[i]))
  }

  /**
   * The enumeration loop over the verdicts: collects the accepted teams in
   * order and stops with `KeyError('UNK')` at the first combination that raises.
   */
  function Collect(vs: seq<Verdict>): (r: Result<seq<Team>, OptError>)
    ensures r.Failure? <==> exists i :: 0 <= i < |vs| && vs[i].Raises?
    ensures r.Failure? ==> r.error == KeyError(RoleLabel(UNK))
    ensures r.Success? ==> forall t <- r.value :: Accepted(t) in vs
    ensures r.Success? ==> forall v <- vs :: v.Accepted? ==> v.team in r.value
    ensures r.Success? ==> forall t :: multiset(r.value)[t] == multiset(vs)[Accepted(t)]
  {
    if vs == [] then Success([])
    else
      assert forall i :: 1 <= i < |vs| ==> vs[i] == vs[1..][i - 1];
      assert vs == [vs[0]] + vs[1..];
      assert multiset(vs) == multiset{vs[0]} + multiset(vs[1..]);
      match vs[0]
      case Raises => Failure(KeyError(RoleLabel(UNK)))
      case Skipped => Collect(vs[1..])
      case Accepted(t) =>
        var rest :- Collect(vs[1..]);
        Success([t] + rest)
  }

  /** The enumeration over every 11-player combination of the pool. */
  function CollectValid(pool: seq<Player>): (r: Result<seq<Team>, OptError>)
  {
    Collect(EvaluateAll(Combos(pool, TeamSize)))
  }

  /** Each verdict is on an 11-player subsequence of the pool. */
  lemma VerdictOnSubseq(pool: seq<Player>, v: Verdict) returns (c: seq<Player>)
    requires v in EvaluateAll(Combos(pool, TeamSize))
    ensures IsSubseq(c, pool) && |c| == TeamSize && v == Evaluate(c)
  {
    var cs := Combos(pool, TeamSize);
    var vs := EvaluateAll(cs);
    CombosSound(pool, TeamSize);
    var i :| 0 <= i < |vs| && vs[i] == v;
    c := cs[i];
    assert c in cs;
  }

  /** Each 11-player subsequence of the pool gets a verdict. */
  lemma SubseqGetsVerdict(pool: seq<Player>, c: seq<Player>)
    requires IsSubseq(c, pool) && |c| == TeamSize
    ensures Evaluate(c) in EvaluateAll(Combos(pool, TeamSize))
  {
    var cs := Combos(pool, TeamSize);
    CombosComplete(pool, TeamSize, c);
    var i :| 0 <= i < |cs| && cs[i] == c;
    assert EvaluateAll(cs)[i] == Evaluate(c);
  }

  /** A raise in the enumeration comes from an affordable combination holding an unknown role. */
  lemma RaiseHasWitness(pool: seq<Player>) returns (c: seq<Player>)
    requires CollectValid(pool).Failure?
    ensures IsSubseq(c, pool) && |c| == TeamSize && TotalCredits(c) <= CreditCap && HasUnknown(c)
  {
    var vs := EvaluateAll(Combos(pool, TeamSize));
    var i :| 0 <= i < |vs| && vs[i].Raises?;
    c := VerdictOnSubseq(pool, vs[i]);
  }

  /** An affordable combination holding an unknown role makes the enumeration raise. */
  lemma WitnessRaises(pool: seq<Player>, c: seq<Player>)
    requires IsSubseq(c, pool) && |c| == TeamSize && TotalCredits(c) <= CreditCap && HasUnknown(c)
    ensures CollectValid(pool).Failure?
  {
    SubseqGetsVerdict(pool, c);
  }

  /** The enumeration raises exactly when an affordable combination holds an unknown role. */
  lemma CollectValidFails(pool: seq<Player>)
    ensures CollectValid(pool).Failure? <==>
      exists c :: IsSubseq(c, pool) && |c| == TeamSize && TotalCredits(c) <= CreditCap && HasUnknown(c)
  {
    if CollectValid(pool).Failure? {
      var c := RaiseHasWitness(pool);
    }
    forall c | IsSubseq(c, pool) && |c| == TeamSize && TotalCredits(c) <= CreditCap && HasUnknown(c)
      ensures CollectValid(pool).Failure?
    {
      WitnessRaises(pool, c);
    }
  }

  /** The enumeration keeps exactly the scored valid combinations of the pool. */
  lemma {:induction false} CollectValidTeams(pool: seq<Player>)
    ensures var r := CollectValid(pool);
      r.Success? ==>
        && (forall t <- r.value :: IsSubseq(t.players, pool) && ValidTeam(t.players) && t == MakeTeam(t.players))
        && (forall c :: IsSubseq(c, pool) && ValidTeam(c) ==> MakeTeam(c) in r.value)
  {
    var vs := EvaluateAll(Combos(pool, TeamSize));
    var r := CollectValid(pool);
    if r.Success? {
      forall t <- r.value
        ensures IsSubseq(t.players, pool) && ValidTeam(t.players) && t == MakeTeam(t.players)
      {
        var c := VerdictOnSubseq(pool, Accepted(t));
      }
      forall c | IsSubseq(c, pool) && ValidTeam(c)
        ensures MakeTeam(c) in r.value
      {
        SubseqGetsVerdict(pool, c);
      }
    }
  }

  /** How many of the combinations are valid teams, counted by position. */
  function CountValid(cs: seq<seq<Player>>): nat
  {
    if cs == [] then 0
    else (if ValidTeam(cs[0]) then 1 else 0) + CountValid(cs[1..])
  }

  /** How many verdicts accept a team. */
  function CountAccepted(vs: seq<Verdict>): nat
  {
    if vs == [] then 0
    else (if vs[0].Accepted? then 1 else 0) + CountAccepted(vs[1..])
  }

  /** A successful collection keeps one team per accepting verdict. */
  lemma {:induction false} CollectCount(vs: seq<Verdict>)
    ensures Collect(vs).Success? ==> |Collect(vs).value| == CountAccepted(vs)
  {
    if vs != [] {
      CollectCount(vs[1..]);
    }
  }

  /** Verdicts taken position by position accept exactly the valid combinations. */
  lemma {:induction false} AcceptedAreValid(cs: seq<seq<Player>>, vs: seq<Verdict>)
    requires forall c <- cs :: |c| == TeamSize
    requires |vs| == |cs| && forall i :: 0 <= i < |cs| ==> vs[i] == Evaluate(cs[i])
    ensures CountAccepted(vs) == CountValid(cs)
  {
    if cs != [] {
      assert forall i :: 0 <= i < |cs| - 1 ==> vs[1..][i] == vs[i + 1] && cs[1..][i] == cs[i + 1];
      AcceptedAreValid(cs[1..], vs[1..]);
    }
  }

  function TeamTotal(t: Team): real
  {
    t.totalScore
  }

  /**
   * The optimiser: adjust scores for the pitch, keep every valid 11-player
   * combination, and return the three with the highest totals.
   */
  function OptimizeTeam(players: seq<Player>, pitch: string): (r: Result<seq<Team>, OptError>)
    ensures r.Success? ==> |r.value| <= TopTeams
    ensures r.Success? ==> SortedDesc(r.value, TeamTotal)
  {
    var adjusted := ApplyPitchEffects(players, pitch);
    var valid :- CollectValid(adjusted);
    Success(TopK(valid, TeamTotal, TopTeams))
  }

  /** With fewer than eleven players there is no combination and hence no team. */
  lemma ShortPoolGivesNoTeams(players: seq<Player>, pitch: string)
    requires |players| < TeamSize
    ensures OptimizeTeam(players, pitch) == Success([])
  {
  }

  /**
   * The run raises exactly when some combination within the credit cap
   * contains a player whose role was not recognised.
   */
  lemma FailsIffAffordableUnknown(players: seq<Player>, pitch: string)
    ensures var adjusted := ApplyPitchEffects(players, pitch);
      OptimizeTeam(players, pitch).Failure? <==>
        exists c :: IsSubseq(c, adjusted) && |c| == TeamSize && TotalCredits(c) <= CreditCap && HasUnknown(c)
  {
    CollectValidFails(ApplyPitchEffects(players, pitch));
  }

  /**
   * Every returned team is eleven players drawn in order from the adjusted
   * pool, within the credit cap and the role bounds, with the two best
   * scorers as captain and vice-captain and the bonus total.
   */
  lemma ReturnedTeamsValid(players: seq<Player>, pitch: string)
    ensures var r := OptimizeTeam(players, pitch);
      r.Success? ==> forall t <- r.value ::
        && ValidTeam(t.players)
        && IsSubseq(t.players, ApplyPitchEffects(players, pitch))
        && CaptainsChosen(t) && ScoredWithBonus(t) && BonusMaximal(t)
  {
    var adjusted := ApplyPitchEffects(players, pitch);
    var r := OptimizeTeam(players, pitch);
    if r.Success? {
      var valid := CollectValid(adjusted).value;
      CollectValidTeams(adjusted);
      assert r.value == TopK(valid, TeamTotal, TopTeams);
    }
  }

  /**
   * No valid team is left out in favour of a worse one: every valid
   * combination's team is returned or totals no more than the last team
   * returned, and fewer than three teams come back only when every valid
   * team is among them.
   */
  lemma ReturnedTeamsBest(players: seq<Player>, pitch: string)
    ensures var r := OptimizeTeam(players, pitch);
      r.Success? ==> forall c :: IsSubseq(c, ApplyPitchEffects(players, pitch)) && ValidTeam(c) ==>
        && |r.value| > 0
        && (MakeTeam(c) in r.value || MakeTeam(c).totalScore <= r.value[|r.value| - 1].totalScore)
        && (|r.value| == TopTeams || MakeTeam(c) in r.value)
  {
    var adjusted := ApplyPitchEffects(players, pitch);
    var r := OptimizeTeam(players, pitch);
    if r.Success? {
      var valid := CollectValid(adjusted).value;
      CollectValidTeams(adjusted);
      assert r.value == TopK(valid, TeamTotal, TopTeams);
      forall c | IsSubseq(c, adjusted) && ValidTeam(c)
        ensures |r.value| > 0
        ensures MakeTeam(c) in r.value || MakeTeam(c).totalScore <= r.value[|r.value| - 1].totalScore
        ensures |r.value| == TopTeams || MakeTeam(c) in r.value
      {
        assert MakeTeam(c) in valid;
      }
    }
  }

  /**
   * The run returns three teams, or every valid combination's team when
   * there are fewer than three valid combinations.
   */
  lemma ReturnedTeamsCount(players: seq<Player>, pitch: string)
    ensures var r := OptimizeTeam(players, pitch);
      r.Success? ==> |r.value| == Min(TopTeams, CountValid(Combos(ApplyPitchEffects(players, pitch), TeamSize)))
  {
    var adjusted := ApplyPitchEffects(players, pitch);
    var cs := Combos(adjusted, TeamSize);
    var vs := EvaluateAll(cs);
    if OptimizeTeam(players, pitch).Success? {
      CollectCount(vs);
      AcceptedAreValid(cs, vs);
    }
  }

  /**
   * The same copy by copy: a team that the valid combinations produce more
   * often than it is returned totals no more than the last team returned.
   */
  lemma ReturnedCopiesBest(players: seq<Player>, pitch: string)
    ensures var r := OptimizeTeam(players, pitch);
      var verdicts := EvaluateAll(Combos(ApplyPitchEffects(players, pitch), TeamSize));
      r.Success? ==> forall t :: multiset(r.value)[t] < multiset(verdicts)[Accepted(t)] ==>
        |r.value| > 0 && t.totalScore <= r.value[|r.value| - 1].totalScore
  {
    var verdicts := EvaluateAll(Combos(ApplyPitchEffects(players, pitch), TeamSize));
    var collected := Collect(verdicts);
    if collected.Success? {
      CopiesOfTop(collected.value, verdicts);
    }
  }

  /** The top teams of a collection, counted against the verdicts it was collected from. */
  lemma CopiesOfTop(valid: seq<Team>, verdicts: seq<Verdict>)
    requires forall t :: multiset(valid)[t] == multiset(verdicts)[Accepted(t)]
    ensures var r := TopK(valid, TeamTotal, TopTeams);
      forall t :: multiset(r)[t] < multiset(verdicts)[Accepted(t)] ==>
        |r| > 0 && t.totalScore <= r[|r| - 1].totalScore
  {
    var r := TopK(valid, TeamTotal, TopTeams);
    TopKCopies(valid, TeamTotal, TopTeams);
    forall t | multiset(r)[t] < multiset(verdicts)[Accepted(t)]
      ensures |r| > 0 && t.totalScore <= r[|r| - 1].totalScore
    {
      assert multiset(valid)[t] == multiset(verdicts)[Accepted(t)];
      assert t in valid;
      assert TeamTotal(t) == t.totalScore;
    }
  }
}
