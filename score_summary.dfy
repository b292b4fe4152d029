/**
 * Deciding a match from the two alliances' summaries (game/score_summary.go):
 * the score decides, and in playoffs ties fall to the opponent-major-foul
 * count, then auto points, then park points.
 */
module MatchOutcome {
  import opened GameScore

  datatype MatchStatus = MatchScheduled | MatchHidden | RedWonMatch | BlueWonMatch | TieMatch

  /** comparePoints: the larger total wins, equal totals tie. */
  function ComparePoints(redPoints: int, bluePoints: int): (status: MatchStatus)
    ensures status == RedWonMatch <==> redPoints > bluePoints
    ensures status == BlueWonMatch <==> redPoints < bluePoints
    ensures status == TieMatch <==> redPoints == bluePoints
  {
    if redPoints > bluePoints then RedWonMatch
    else if redPoints < bluePoints then BlueWonMatch
    else TieMatch
  }

  /** The same result seen from the other alliance's side. */
  function Swap(status: MatchStatus): MatchStatus {
    match status
    case RedWonMatch => BlueWonMatch
    case BlueWonMatch => RedWonMatch
    case other => other
  }

  /** DetermineMatchStatus. */
  function DetermineMatchStatus(red: ScoreSummary, blue: ScoreSummary, applyPlayoffTiebreakers: bool): (status: MatchStatus)
    ensures status != MatchScheduled && status != MatchHidden
    ensures red.score != blue.score ==> status == ComparePoints(red.score, blue.score)
    ensures !applyPlayoffTiebreakers ==> status == ComparePoints(red.score, blue.score)
  {
    var byScore := ComparePoints(red.score, blue.score);
    if byScore != TieMatch then byScore
    else if !applyPlayoffTiebreakers then TieMatch
    else
      var byFouls := ComparePoints(red.numOpponentMajorFouls, blue.numOpponentMajorFouls);
      if byFouls != TieMatch then byFouls
      else
        var byAuto := ComparePoints(red.autoPoints, blue.autoPoints);
        if byAuto != TieMatch then byAuto
        else
          var byPark := ComparePoints(red.parkPoints, blue.parkPoints);
          if byPark != TieMatch then byPark
          else TieMatch
  }

  /** Swapping the alliances swaps the winner and keeps a tie. */
  lemma ComparePointsAntisymmetric(redPoints: int, bluePoints: int)
    ensures ComparePoints(bluePoints, redPoints) == Swap(ComparePoints(redPoints, bluePoints))
  {
  }

  // ---------------------------------------------------------------------------
  // The playoff order as a lexicographic comparison

  /** The playoff ranking key: score, opponent major fouls, auto points, park points. */
  function PlayoffKey(s: ScoreSummary): seq<int> {
    [s.score, s.numOpponentMajorFouls, s.autoPoints, s.parkPoints]
  }

  /** Lexicographic comparison of equal-length keys, larger first entry winning. */
  function LexCompare(a: seq<int>, b: seq<int>): (status: MatchStatus)
    requires |a| == |b|
    ensures status == TieMatch || status == RedWonMatch || status == BlueWonMatch
    decreases |a|
  {
    if a == [] then TieMatch
    else if a[0] > b[0] then RedWonMatch
    else if a[0] < b[0] then BlueWonMatch
    else LexCompare(a[1..], b[1..])
  }

  /** With tiebreakers the match is decided by the lexicographic order of the playoff keys. */
  lemma DetermineIsLexicographic(red: ScoreSummary, blue: ScoreSummary)
    ensures DetermineMatchStatus(red, blue, true) == LexCompare(PlayoffKey(red), PlayoffKey(blue))
  {
    var a, b := PlayoffKey(red), PlayoffKey(blue);
    var a1, b1 := a[1..], b[1..];
    var a2, b2 := a1[1..], b1[1..];
    var a3, b3 := a2[1..], b2[1..];
    assert a3[1..] == [] && b3[1..] == [];
    assert LexCompare(a3, b3) == ComparePoints(red.parkPoints, blue.parkPoints);
    assert LexCompare(a2, b2) == if red.autoPoints != blue.autoPoints then ComparePoints(red.autoPoints, blue.autoPoints) else LexCompare(a3, b3);
  }

  /** Keys tie exactly when they are equal. */
  lemma {:induction false} LexTieIffEqual(a: seq<int>, b: seq<int>)
    requires |a| == |b|
    ensures LexCompare(a, b) == TieMatch <==> a == b
    decreases |a|
  {
    if a != [] {
      LexTieIffEqual(a[1..], b[1..]);
      if a[0] == b[0] && a[1..] == b[1..] {
        assert a == [a[0]] + a[1..] && b == [b[0]] + b[1..];
      }
    }
  }

  /** Comparing the other way round swaps the result. */
  lemma {:induction false} LexAntisymmetric(a: seq<int>, b: seq<int>)
    requires |a| == |b|
    ensures LexCompare(b, a) == Swap(LexCompare(a, b))
    decreases |a|
  {
    if a != [] && a[0] == b[0] {
      LexAntisymmetric(a[1..], b[1..]);
    }
  }

  /** The lexicographic order is transitive. */
  lemma {:induction false} LexTransitive(a: seq<int>, b: seq<int>, c: seq<int>)
    requires |a| == |b| == |c|
    requires LexCompare(a, b) == RedWonMatch && LexCompare(b, c) == RedWonMatch
    ensures LexCompare(a, c) == RedWonMatch
    decreases |a|
  {
    if a[0] == b[0] && b[0] == c[0] {
      LexTransitive(a[1..], b[1..], c[1..]);
    }
  }

  /** A playoff match ties only when all four playoff fields are equal. */
  lemma PlayoffTieIffAllEqual(red: ScoreSummary, blue: ScoreSummary)
    ensures DetermineMatchStatus(red, blue, true) == TieMatch <==>
      red.score == blue.score && red.numOpponentMajorFouls == blue.numOpponentMajorFouls
      && red.autoPoints == blue.autoPoints && red.parkPoints == blue.parkPoints
  {
    DetermineIsLexicographic(red, blue);
    LexTieIffEqual(PlayoffKey(red), PlayoffKey(blue));
  }

  /** Without tiebreakers, equal scores always tie. */
  lemma EqualScoresTieWithoutTiebreakers(red: ScoreSummary, blue: ScoreSummary)
    requires red.score == blue.score
    ensures DetermineMatchStatus(red, blue, false) == TieMatch
  {
  }

  /** Swapping the alliances swaps the winner, with or without tiebreakers. */
  lemma DetermineAntisymmetric(red: ScoreSummary, blue: ScoreSummary, applyPlayoffTiebreakers: bool)
    ensures DetermineMatchStatus(blue, red, applyPlayoffTiebreakers) == Swap(DetermineMatchStatus(red, blue, applyPlayoffTiebreakers))
  {
    if applyPlayoffTiebreakers {
      DetermineIsLexicographic(red, blue);
      DetermineIsLexicographic(blue, red);
      LexAntisymmetric(PlayoffKey(red), PlayoffKey(blue));
    }
  }

  /** "Beats" is transitive across three alliances' summaries. */
  lemma DetermineTransitive(a: ScoreSummary, b: ScoreSummary, c: ScoreSummary, applyPlayoffTiebreakers: bool)
    requires DetermineMatchStatus(a, b, applyPlayoffTiebreakers) == RedWonMatch
    requires DetermineMatchStatus(b, c, applyPlayoffTiebreakers) == RedWonMatch
    ensures DetermineMatchStatus(a, c, applyPlayoffTiebreakers) == RedWonMatch
  {
    if applyPlayoffTiebreakers {
      DetermineIsLexicographic(a, b);
      DetermineIsLexicographic(b, c);
      DetermineIsLexicographic(a, c);
      LexTransitive(PlayoffKey(a), PlayoffKey(b), PlayoffKey(c));
    }
  }

  /** Every pair of summaries is ordered: one wins or they tie. */
  lemma DetermineTotal(red: ScoreSummary, blue: ScoreSummary, applyPlayoffTiebreakers: bool)
    ensures var status := DetermineMatchStatus(red, blue, applyPlayoffTiebreakers);
      status == RedWonMatch || status == BlueWonMatch || status == TieMatch
  {
  }

  /**
   * Summarize never writes auto or park points, so between two summaries it
   * produced a playoff tie falls to the opponent-major-foul count alone. This
   * holds under the reading that keeps the endgame total in its own field,
   * apart from parkPoints.
   */
  lemma SummarizedTiebreakIsMajorFouls(red: Score, blue: Score, pointValue: Foul -> int)
    ensures var r := Summary(red, blue, pointValue); var b := Summary(blue, red, pointValue);
      DetermineMatchStatus(r, b, true) ==
        if r.score != b.score then ComparePoints(r.score, b.score)
        else ComparePoints(r.numOpponentMajorFouls, b.numOpponentMajorFouls)
  {
  }

  /**
   * The other reading of the summary struct: the endgame total is stored as
   * parkPoints. Then a playoff tie falls to the major-foul count, and after
   * that to the endgame points, auto points being 0 for both.
   */
  lemma SummarizedTiebreakIfParkIsEndgame(red: Score, blue: Score, pointValue: Foul -> int)
    ensures var r := Summary(red, blue, pointValue); var b := Summary(blue, red, pointValue);
      DetermineMatchStatus(r.(parkPoints := r.endgamePoints), b.(parkPoints := b.endgamePoints), true) ==
        if r.score != b.score then ComparePoints(r.score, b.score)
        else if r.numOpponentMajorFouls != b.numOpponentMajorFouls then ComparePoints(r.numOpponentMajorFouls, b.numOpponentMajorFouls)
        else ComparePoints(r.endgamePoints, b.endgamePoints)
  {
  }
}
