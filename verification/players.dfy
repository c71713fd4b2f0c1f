/**
 * Player records: the per-row mapping of the input sheet (with the mock
 * performance figures derived from the role string) and the score formula.
 */
module Players {
  import opened Text
  import opened Roles

  /** One row of the input sheet, every cell as text. */
  datatype Row = Row(
    playerName: string,
    role: string,
    captain: string,
    wicketkeeper: string,
    impactPlayer: string,
    team: string)

  /** Batting average, strike rate and bowling average. */
  datatype Stats = Stats(batAvg: real, strikeRate: real, bowlAvg: real)

  /** A processed row, before any score has been computed. */
  datatype Profile = Profile(
    name: string,
    role: Role,
    isCaptain: bool,
    isWicketkeeper: bool,
    isImpact: bool,
    team: string,
    stats: Stats,
    credits: real)

  /** A scored player: the profile's fields plus the current and the base score. */
  datatype Player = Player(
    name: string,
    role: Role,
    isCaptain: bool,
    isWicketkeeper: bool,
    isImpact: bool,
    team: string,
    stats: Stats,
    credits: real,
    score: real,
    baseScore: real)

  /**
   * Mock figures: batter-like rows bat at 35 with strike rate 130 (else 15
   * and 100); bowler-like rows bowl at 20 (else 30). The tests are on the raw
   * role string, not on the classified role.
   */
  function MockStats(role: string): (st: Stats)
    ensures st.batAvg == 35.0 || st.batAvg == 15.0
    ensures st.batAvg == 35.0 <==> st.strikeRate == 130.0
    ensures st.strikeRate == 130.0 || st.strikeRate == 100.0
    ensures st.batAvg == 35.0 <==> Contains(role, Batter)
    ensures st.bowlAvg == 20.0 <==> Contains(role, Bowler)
    ensures st.bowlAvg == 20.0 || st.bowlAvg == 30.0
  {
    Stats(
      if Contains(role, Batter) then 35.0 else 15.0,
      if Contains(role, Batter) then 130.0 else 100.0,
      if Contains(role, Bowler) then 20.0 else 30.0)
  }

  /** The record built from one input row. */
  function ProcessRow(row: Row): (p: Profile)
    ensures p.name == row.playerName && p.team == row.team
    ensures p.role == ClassifyRole(row.role)
    ensures p.credits == AssignCredits(row.role)
    ensures p.stats == MockStats(row.role)
    ensures p.isCaptain <==> row.captain == "Yes"
    ensures p.isWicketkeeper <==> row.wicketkeeper == "Yes"
    ensures p.isImpact <==> row.impactPlayer == "Yes"
    ensures p.role == BAT ==> p.stats.batAvg == 35.0 && p.stats.strikeRate == 130.0
    ensures p.role == BOWL ==> p.stats.batAvg == 15.0 && p.stats.bowlAvg == 20.0
    ensures p.role == AR || p.role == UNK ==> p.stats == Stats(15.0, 100.0, 30.0)
    ensures p.role == AR ==> p.credits == 9.0
    ensures p.credits >= 7.5
  {
    Profile(
      row.playerName,
      ClassifyRole(row.role),
      row.captain == "Yes",
      row.wicketkeeper == "Yes",
      row.impactPlayer == "Yes",
      row.team,
      MockStats(row.role),
      AssignCredits(row.role))
  }

  /** The rows of the sheet, in order. */
  function ProcessData(rows: seq<Row>): (ps: seq<Profile>)
    ensures |ps| == |rows|
    ensures forall i :: 0 <= i < |rows| ==> ps[i] == ProcessRow(rows[i])
  {
    seq(|rows|, i requires 0 <= i < |rows| => ProcessRow(rows[i]))
  }

  /** Batting component: half the average plus three tenths of the strike rate. */
  function BatScore(st: Stats): real
  {
    st.batAvg * 0.5 + st.strikeRate * 0.3
  }

  /** Bowling component: how far the bowling average is below 25, times 0.6. */
  function BowlScore(st: Stats): real
  {
    (25.0 - st.bowlAvg) * 0.6
  }

  /** Role weighting: batters 1.3 x batting, bowlers 1.4 x bowling, everyone else 0.7 x both. */
  function RoleScore(role: Role, st: Stats): real
  {
    if role == BAT then BatScore(st) * 1.3
    else if role == BOWL then BowlScore(st) * 1.4
    else BatScore(st) * 0.7 + BowlScore(st) * 0.7
  }

  /** A lower bowling average never lowers a score; a higher batting average or strike rate never does. */
  lemma ScoreMonotone(role: Role, st: Stats, st': Stats)
    requires st'.batAvg >= st.batAvg && st'.strikeRate >= st.strikeRate && st'.bowlAvg <= st.bowlAvg
    ensures RoleScore(role, st') >= RoleScore(role, st)
  {
  }

  /** Scores every profile, recording the result as both current and base score. */
  function CalculateScores(ps: seq<Profile>): (r: seq<Player>)
    ensures |r| == |ps|
    ensures forall i :: 0 <= i < |ps| ==>
      && r[i].name == ps[i].name && r[i].role == ps[i].role && r[i].team == ps[i].team
      && r[i].isCaptain == ps[i].isCaptain && r[i].isWicketkeeper == ps[i].isWicketkeeper
      && r[i].isImpact == ps[i].isImpact && r[i].stats == ps[i].stats && r[i].credits == ps[i].credits
      && r[i].score == RoleScore(ps[i].role, ps[i].stats)
      && r[i].baseScore == r[i].score
  {
    seq(|ps|, i requires 0 <= i < |ps| => Score(ps[i]))
  }

  function Score(p: Profile): Player
  {
    var s := RoleScore(p.role, p.stats);
    Player(p.name, p.role, p.isCaptain, p.isWicketkeeper, p.isImpact, p.team, p.stats, p.credits, s, s)
  }

  /**
   * With the mock figures every score is one of six values fixed by the
   * role string, and all of them are positive.
   */
  lemma MockScores(row: Row)
    ensures var p := Score(ProcessRow(row));
      && (p.role == BAT ==> p.score == 73.45)
      && (p.role == BOWL ==> p.score == 4.2)
      && (p.role == AR || p.role == UNK ==> p.score == 24.15)
      && (p.role == WK ==> p.score in {24.15, 28.35, 37.45, 41.65})
      && p.score > 0.0
  {
  }

  /** Every scored mock player has positive credits, so its score-to-credit ratio is defined. */
  lemma ProcessedCreditsPositive(rows: seq<Row>)
    ensures forall p <- CalculateScores(ProcessData(rows)) :: p.credits >= 7.5
  {
  }
}
