/**
 * Role classification and credit assignment from a free-text role string
 * (the "Role" column of the input sheet). Both scan for the same four
 * keywords, but in different priority orders.
 */
module Roles {
  import opened Text

  const Wicketkeeper: string := "Wicketkeeper"
  const Batter: string := "Batter"
  const Bowler: string := "Bowler"
  const AllRounder: string := "All-rounder"

  /** The standardised slot categories; `UNK` is what a role string with no keyword maps to. */
  datatype Role = WK | BAT | BOWL | AR | UNK

  /** Classification: first keyword found in the order Wicketkeeper, Batter, Bowler, All-rounder. */
  function ClassifyRole(s: string): (r: Role)
    ensures r == WK <==> Contains(s, Wicketkeeper)
    ensures r == BAT <==> !Contains(s, Wicketkeeper) && Contains(s, Batter)
    ensures r == BOWL <==> !Contains(s, Wicketkeeper) && !Contains(s, Batter) && Contains(s, Bowler)
    ensures r == AR <==>
      !Contains(s, Wicketkeeper) && !Contains(s, Batter) && !Contains(s, Bowler) && Contains(s, AllRounder)
    ensures r == UNK <==>
      !Contains(s, Wicketkeeper) && !Contains(s, Batter) && !Contains(s, Bowler) && !Contains(s, AllRounder)
  {
    if Contains(s, Wicketkeeper) then WK
    else if Contains(s, Batter) then BAT
    else if Contains(s, Bowler) then BOWL
    else if Contains(s, AllRounder) then AR
    else UNK
  }

  /** Credits: 9.0 for an all-rounder, else 8.5 for a batter, else 8.0 for a bowler, else 7.5. */
  function AssignCredits(s: string): (r: real)
    ensures r == 9.0 || r == 8.5 || r == 8.0 || r == 7.5
    ensures 7.5 <= r <= 9.0
    ensures r == 9.0 <==> Contains(s, AllRounder)
    ensures r == 8.5 <==> !Contains(s, AllRounder) && Contains(s, Batter)
    ensures r == 8.0 <==> !Contains(s, AllRounder) && !Contains(s, Batter) && Contains(s, Bowler)
    ensures r == 7.5 <==> !Contains(s, AllRounder) && !Contains(s, Batter) && !Contains(s, Bowler)
  {
    if Contains(s, AllRounder) then 9.0
    else if Contains(s, Batter) then 8.5
    else if Contains(s, Bowler) then 8.0
    else 7.5
  }

  /** The canonical keyword of each category; "UNK" for the unknown one. */
  function RoleLabel(r: Role): string
  {
    match r
    case WK => Wicketkeeper
    case BAT => Batter
    case BOWL => Bowler
    case AR => AllRounder
    case UNK => "UNK"
  }

  /** No other keyword (nor "UNK") contains "Wicketkeeper". */
  lemma WicketkeeperNowhereElse()
    ensures !Contains(Batter, Wicketkeeper) && !Contains(Bowler, Wicketkeeper)
    ensures !Contains(AllRounder, Wicketkeeper) && !Contains("UNK", Wicketkeeper)
  {
    NotContainedWhenLonger(Batter, Wicketkeeper);
    NotContainedWhenLonger(Bowler, Wicketkeeper);
    NotContainedWhenLonger(AllRounder, Wicketkeeper);
    NotContainedWhenLonger("UNK", Wicketkeeper);
  }

  /** No other keyword (nor "UNK") contains "Batter". */
  lemma BatterNowhereElse()
    ensures !Contains(Wicketkeeper, Batter) && !Contains(Bowler, Batter)
    ensures !Contains(AllRounder, Batter) && !Contains("UNK", Batter)
  {
    CapitalsOfKeywords();
    NotContainedWithoutFirstChar(AllRounder, Batter);
    NotContainedWithoutFirstChar(Wicketkeeper, Batter);
    NotContainedWhenDifferent(Bowler, Batter);
    NotContainedWhenLonger("UNK", Batter);
  }

  /** No other keyword (nor "UNK") contains "Bowler". */
  lemma BowlerNowhereElse()
    ensures !Contains(Wicketkeeper, Bowler) && !Contains(Batter, Bowler)
    ensures !Contains(AllRounder, Bowler) && !Contains("UNK", Bowler)
  {
    CapitalsOfKeywords();
    NotContainedWithoutFirstChar(AllRounder, Bowler);
    NotContainedWithoutFirstChar(Wicketkeeper, Bowler);
    NotContainedWhenDifferent(Batter, Bowler);
    NotContainedWhenLonger("UNK", Bowler);
  }

  /** No other keyword (nor "UNK") contains "All-rounder". */
  lemma AllRounderNowhereElse()
    ensures !Contains(Wicketkeeper, AllRounder) && !Contains(Batter, AllRounder)
    ensures !Contains(Bowler, AllRounder) && !Contains("UNK", AllRounder)
  {
    NotContainedWithoutFirstChar(Wicketkeeper, AllRounder);
    NotContainedWhenLonger(Batter, AllRounder);
    NotContainedWhenLonger(Bowler, AllRounder);
    NotContainedWhenLonger("UNK", AllRounder);
  }

  /** The only capital letters in the keywords are their first characters. */
  lemma CapitalsOfKeywords()
    ensures Batter[0] == 'B' && Bowler[0] == 'B'
    ensures 'B' !in Wicketkeeper && 'B' !in AllRounder
  {
    assert Wicketkeeper == ['W'] + "icketkeeper";
    assert AllRounder == ['A'] + "ll-rounder";
  }

  lemma NotContainedWhenLonger(s: string, sub: string)
    requires |s| < |sub|
    ensures !Contains(s, sub)
  {
    if Contains(s, sub) {
      ContainsShorter(s, sub);
    }
  }

  lemma NotContainedWithoutFirstChar(s: string, sub: string)
    requires |sub| > 0 && sub[0] !in s
    ensures !Contains(s, sub)
  {
    if Contains(s, sub) {
      ContainsFirstChar(s, sub);
    }
  }

  lemma NotContainedWhenDifferent(s: string, sub: string)
    requires |s| == |sub| && s != sub
    ensures !Contains(s, sub)
  {
    if Contains(s, sub) && !(sub <= s) {
      ContainsShorter(s[1..], sub);
    }
  }

  /** Classifying a category's own keyword gives that category back. */
  lemma {:induction false} ClassifyLabel(r: Role)
    ensures ClassifyRole(RoleLabel(r)) == r
  {
    WicketkeeperNowhereElse();
    BatterNowhereElse();
    BowlerNowhereElse();
    AllRounderNowhereElse();
    ContainsSelf(RoleLabel(r));
  }

  /**
   * What the two priority orders imply jointly: a string classified as a
   * batter, bowler or all-rounder is charged at least that keyword's credits.
   */
  lemma CreditsFollowRole(s: string)
    ensures ClassifyRole(s) == AR ==> AssignCredits(s) == 9.0
    ensures ClassifyRole(s) == BAT ==> AssignCredits(s) in {9.0, 8.5}
    ensures ClassifyRole(s) == BOWL ==> AssignCredits(s) in {9.0, 8.0}
    ensures ClassifyRole(s) == UNK ==> AssignCredits(s) == 7.5
  {
  }
}
