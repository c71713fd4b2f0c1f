/** Pitch conditions scale each player's score by a factor that depends on the role. */
module Pitch {
  import opened Roles
  import opened Players

  /**
   * The multiplier table: a batting pitch favours batters (1.2) over
   * all-rounders (1.1) over bowlers (0.8); a bowling pitch favours bowlers
   * (1.3), then all-rounders (1.1), then batters (0.7). Roles missing from
   * a table, and every role on any other pitch, keep factor 1.
   */
  function PitchFactor(pitch: string, role: Role): (f: real)
    ensures 0.7 <= f <= 1.3
    ensures pitch != "batting" && pitch != "bowling" ==> f == 1.0
    ensures role == WK || role == UNK ==> f == 1.0
    ensures pitch == "batting" ==>
      (role == BAT ==> f == 1.2) && (role == AR ==> f == 1.1) && (role == BOWL ==> f == 0.8)
    ensures pitch == "bowling" ==>
      (role == BOWL ==> f == 1.3) && (role == AR ==> f == 1.1) && (role == BAT ==> f == 0.7)
  {
    if pitch == "batting" then
      match role
      case BAT => 1.2
      case AR => 1.1
      case BOWL => 0.8
      case _ => 1.0
    else if pitch == "bowling" then
      match role
      case BOWL => 1.3
      case AR => 1.1
      case BAT => 0.7
      case _ => 1.0
    else 1.0
  }

  /**
   * A batting pitch ranks the factors BOWL < 1 < AR < BAT and a bowling pitch
   * ranks them BAT < 1 < AR < BOWL: each favours its own specialists.
   */
  lemma PitchFavoursSpecialists(pitch: string)
    ensures pitch == "batting" ==>
      PitchFactor(pitch, BOWL) < 1.0 < PitchFactor(pitch, AR) < PitchFactor(pitch, BAT)
    ensures pitch == "bowling" ==>
      PitchFactor(pitch, BAT) < 1.0 < PitchFactor(pitch, AR) < PitchFactor(pitch, BOWL)
  {
  }

  /** Scales every player's current score; nothing else about the players changes. */
  function ApplyPitchEffects(players: seq<Player>, pitch: string): (r: seq<Player>)
    ensures |r| == |players|
    ensures forall i :: 0 <= i < |players| ==> r[i].(score := players[i].score) == players[i]
    ensures forall i :: 0 <= i < |players| ==>
      r[i].score == players[i].score * PitchFactor(pitch, players[i].role)
    ensures pitch != "batting" && pitch != "bowling" ==> r == players
    ensures forall i :: 0 <= i < |players| && players[i].role in {WK, UNK} ==> r[i] == players[i]
  {
    seq(|players|, i requires 0 <= i < |players| =>
      players[i].(score := players[i].score * PitchFactor(pitch, players[i].role)))
  }

  /**
   * The adjustment keeps each score's sign and, within one role, the order of
   * scores: it never makes one batter overtake another.
   */
  lemma PitchPreservesRanking(players: seq<Player>, pitch: string, i: int, j: int)
    requires 0 <= i < |players| && 0 <= j < |players|
    requires players[i].role == players[j].role
    ensures var r := ApplyPitchEffects(players, pitch);
      && (players[i].score <= players[j].score ==> r[i].score <= r[j].score)
      && (players[i].score > 0.0 <==> r[i].score > 0.0)
  {
  }
}
