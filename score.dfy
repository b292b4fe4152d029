/**
 * The instantaneous score of one alliance (game/score.go) and its summary.
 * Summary is the specification of the Summarize loops; the points of a foul
 * come from Foul.PointValue, which is not part of this model, so they enter
 * as the function parameter `pointValue`.
 */
module GameScore {
  // Points per scoring element.
  const LeaveNonePoints := 0
  const LeavePartialPoints := 3
  const LeaveFullPoints := 6
  const GamePiece1AutonPoints := 5
  const GamePiece2AutonPoints := 7
  const GamePiece1TeleopPoints := 6
  const GamePiece2TeleopPoints := 8
  const EndgameNonePoints := 0
  const EndgamePartialPoints := 2
  const EndgameFullPoints := 5

  // LeaveStatus and EndgameStatus are plain ints; any other value is possible and scores nothing.
  const LeaveNone := 0
  const LeavePartial := 1
  const LeaveFull := 2
  const EndgameNone := 0
  const EndgamePartial := 1
  const EndgameFull := 2

  /** The robots of an alliance. */
  const AllianceSize := 3

  datatype Foul = Foul(isMajor: bool, teamId: int, ruleId: int)

  datatype Score = Score(
    leaveStatuses: seq<int>,
    gamePiece1Auton: int,
    gamePiece1Teleop: int,
    gamePiece2Auton: int,
    gamePiece2Teleop: int,
    endgameStatuses: seq<int>,
    fouls: seq<Foul>,
    playoffDq: bool)

  /** The two status arrays have one entry per robot. */
  predicate ValidScore(s: Score) {
    |s.leaveStatuses| == AllianceSize && |s.endgameStatuses| == AllianceSize
  }

  /**
   * The fields Summarize writes, and the two tiebreak fields DetermineMatchStatus
   * reads (never written here). The endgame total has its own field, as
   * Summarize names it, apart from parkPoints.
   */
  datatype ScoreSummary = ScoreSummary(
    leavePoints: int,
    autoPoints: int,
    gamePiece1Points: int,
    gamePiece2Points: int,
    parkPoints: int,
    endgamePoints: int,
    matchPoints: int,
    foulPoints: int,
    score: int,
    bonusRankingPoints: int,
    numOpponentMajorFouls: int)

  /** new(ScoreSummary): every field zero. */
  const ZeroSummary := ScoreSummary(0, 0, 0, 0, 0, 0, 0, 0, 0, 0, 0)

  /** The points of one leave status. */
  function LeaveValue(status: int): (points: int)
    ensures points == LeaveNonePoints || points == LeavePartialPoints || points == LeaveFullPoints
    ensures points != LeaveNonePoints <==> status == LeavePartial || status == LeaveFull
    ensures status == LeavePartial ==> points == LeavePartialPoints
    ensures status == LeaveFull ==> points == LeaveFullPoints
  {
    if status == LeavePartial then LeavePartialPoints
    else if status == LeaveFull then LeaveFullPoints
    else LeaveNonePoints
  }

  /** The points of one endgame status. */
  function EndgameValue(status: int): (points: int)
    ensures points == EndgameNonePoints || points == EndgamePartialPoints || points == EndgameFullPoints
    ensures points != EndgameNonePoints <==> status == EndgamePartial || status == EndgameFull
    ensures status == EndgamePartial ==> points == EndgamePartialPoints
    ensures status == EndgameFull ==> points == EndgameFullPoints
  {
    if status == EndgamePartial then EndgamePartialPoints
    else if status == EndgameFull then EndgameFullPoints
    else EndgameNonePoints
  }

  /** Leave points of a sequence of statuses, summed from the front as the loop does. */
  function LeaveTotal(statuses: seq<int>): int
    decreases |statuses|
  {
    if statuses == [] then 0
    else LeaveTotal(statuses[..|statuses| - 1]) + LeaveValue(statuses[|statuses| - 1])
  }

  /** Endgame points of a sequence of statuses. */
  function EndgameTotal(statuses: seq<int>): int
    decreases |statuses|
  {
    if statuses == [] then 0
    else EndgameTotal(statuses[..|statuses| - 1]) + EndgameValue(statuses[|statuses| - 1])
  }

  /** The sum of the point values of `fouls`. */
  function FoulTotal(fouls: seq<Foul>, pointValue: Foul -> int): int
    decreases |fouls|
  {
    if fouls == [] then 0
    else FoulTotal(fouls[..|fouls| - 1], pointValue) + pointValue(fouls[|fouls| - 1])
  }

  /** The number of major fouls in `fouls`. */
  function MajorCount(fouls: seq<Foul>): int
    decreases |fouls|
  {
    if fouls == [] then 0
    else MajorCount(fouls[..|fouls| - 1]) + (if fouls[|fouls| - 1].isMajor then 1 else 0)
  }

  function GamePiece1Points(s: Score): int {
    s.gamePiece1Auton * GamePiece1AutonPoints + s.gamePiece1Teleop * GamePiece1TeleopPoints
  }

  function GamePiece2Points(s: Score): int {
    s.gamePiece2Auton * GamePiece2AutonPoints + s.gamePiece2Teleop * GamePiece2TeleopPoints
  }

  /** What Summarize returns: all zero for a disqualified alliance, else the totals, with the opponent's fouls as foul points. */
  function Summary(score: Score, opponent: Score, pointValue: Foul -> int): ScoreSummary {
    if score.playoffDq then ZeroSummary
    else
      var leave := LeaveTotal(score.leaveStatuses);
      var piece1 := GamePiece1Points(score);
      var piece2 := GamePiece2Points(score);
      var endgame := EndgameTotal(score.endgameStatuses);
      var matchPoints := leave + piece1 + piece2 + endgame;
      var foulPoints := FoulTotal(opponent.fouls, pointValue);
      ScoreSummary(
        leavePoints := leave, autoPoints := 0,
        gamePiece1Points := piece1, gamePiece2Points := piece2,
        parkPoints := 0, endgamePoints := endgame,
        matchPoints := matchPoints, foulPoints := foulPoints,
        score := matchPoints + foulPoints, bonusRankingPoints := 0,
        numOpponentMajorFouls := MajorCount(opponent.fouls))
  }

  /** Score.Summarize: the accumulator loops of the source. */
  method Summarize(score: Score, opponent: Score, pointValue: Foul -> int) returns (summary: ScoreSummary)
    ensures summary == Summary(score, opponent, pointValue)
  {
    summary := ZeroSummary;
    if score.playoffDq {
      return;
    }

    var leave := 0;
    for i := 0 to |score.leaveStatuses|
      invariant leave == LeaveTotal(score.leaveStatuses[..i])
    {
      var status := score.leaveStatuses[i];
      if status == LeavePartial {
        leave := leave + LeavePartialPoints;
      } else if status == LeaveFull {
        leave := leave + LeaveFullPoints;
      }
      assert score.leaveStatuses[..i + 1][..i] == score.leaveStatuses[..i];
    }
    assert score.leaveStatuses[..|score.leaveStatuses|] == score.leaveStatuses;

    var piece1 := score.gamePiece1Auton * GamePiece1AutonPoints + score.gamePiece1Teleop * GamePiece1TeleopPoints;
    var piece2 := score.gamePiece2Auton * GamePiece2AutonPoints + score.gamePiece2Teleop * GamePiece2TeleopPoints;

    var endgame := 0;
    for i := 0 to |score.endgameStatuses|
      invariant endgame == EndgameTotal(score.endgameStatuses[..i])
    {
      var status := score.endgameStatuses[i];
      if status == EndgamePartial {
        endgame := endgame + EndgamePartialPoints;
      } else if status == EndgameFull {
        endgame := endgame + EndgameFullPoints;
      }
      assert score.endgameStatuses[..i + 1][..i] == score.endgameStatuses[..i];
    }
    assert score.endgameStatuses[..|score.endgameStatuses|] == score.endgameStatuses;

    var matchPoints := leave + piece1 + piece2 + endgame;

    var foulPoints := 0;
    var majors := 0;
    for i := 0 to |opponent.fouls|
      invariant foulPoints == FoulTotal(opponent.fouls[..i], pointValue)
      invariant majors == MajorCount(opponent.fouls[..i])
    {
      var foul := opponent.fouls[i];
      foulPoints := foulPoints + pointValue(foul);
      if foul.isMajor {
        majors := majors + 1;
      }
      assert opponent.fouls[..i + 1][..i] == opponent.fouls[..i];
    }
    assert opponent.fouls[..|opponent.fouls|] == opponent.fouls;

    summary := ScoreSummary(
      leavePoints := leave, autoPoints := 0,
      gamePiece1Points := piece1, gamePiece2Points := piece2,
      parkPoints := 0, endgamePoints := endgame,
      matchPoints := matchPoints, foulPoints := foulPoints,
      score := matchPoints + foulPoints, bonusRankingPoints := 0,
      numOpponentMajorFouls := majors);
  }

  /** Score.Equals: every field equal, fouls compared one by one after the lengths. */
  method Equals(a: Score, b: Score) returns (equal: bool)
    requires ValidScore(a) && ValidScore(b)
    ensures equal <==> a == b
  {
    if a.leaveStatuses != b.leaveStatuses
      || a.gamePiece1Auton != b.gamePiece1Auton
      || a.gamePiece1Teleop != b.gamePiece1Teleop
      || a.gamePiece2Auton != b.gamePiece2Auton
      || a.gamePiece2Teleop != b.gamePiece2Teleop
      || a.endgameStatuses != b.endgameStatuses
      || a.playoffDq != b.playoffDq
      || |a.fouls| != |b.fouls|
    {
      return false;
    }
    for i := 0 to |a.fouls|
      invariant a.fouls[..i] == b.fouls[..i]
    {
      if a.fouls[i] != b.fouls[i] {
        return false;
      }
    }
    assert a.fouls == a.fouls[..|a.fouls|] && b.fouls == b.fouls[..|b.fouls|];
    return true;
  }

  // ---------------------------------------------------------------------------
  // Properties of Summary

  /** A disqualified alliance scores nothing, whatever the opponent did. */
  lemma DisqualifiedScoresZero(score: Score, opponent: Score, pointValue: Foul -> int)
    requires score.playoffDq
    ensures Summary(score, opponent, pointValue) == ZeroSummary
  {
  }

  /** Each status adds between nothing and a full leave: 0 <= LeaveTotal <= 6 per robot. */
  lemma {:induction false} LeaveTotalBounds(statuses: seq<int>)
    ensures 0 <= LeaveTotal(statuses) <= LeaveFullPoints * |statuses|
    decreases |statuses|
  {
    if statuses != [] {
      LeaveTotalBounds(statuses[..|statuses| - 1]);
    }
  }

  /** Each status adds between nothing and a full endgame: 0 <= EndgameTotal <= 5 per robot. */
  lemma {:induction false} EndgameTotalBounds(statuses: seq<int>)
    ensures 0 <= EndgameTotal(statuses) <= EndgameFullPoints * |statuses|
    decreases |statuses|
  {
    if statuses != [] {
      EndgameTotalBounds(statuses[..|statuses| - 1]);
    }
  }

  /** Statuses other than Partial and Full (None, or values outside the enumeration) score nothing. */
  lemma {:induction false} UnknownStatusesScoreNothing(statuses: seq<int>)
    requires forall k :: 0 <= k < |statuses| ==> statuses[k] != LeavePartial && statuses[k] != LeaveFull
    ensures LeaveTotal(statuses) == 0 && EndgameTotal(statuses) == 0
    decreases |statuses|
  {
    if statuses != [] {
      UnknownStatusesScoreNothing(statuses[..|statuses| - 1]);
    }
  }

  /** With one status per robot, the totals are the sums of the three robots' points. */
  lemma PerRobotTotals(statuses: seq<int>)
    requires |statuses| == AllianceSize
    ensures LeaveTotal(statuses) == LeaveValue(statuses[0]) + LeaveValue(statuses[1]) + LeaveValue(statuses[2])
    ensures EndgameTotal(statuses) == EndgameValue(statuses[0]) + EndgameValue(statuses[1]) + EndgameValue(statuses[2])
  {
    var s2, s1 := statuses[..2], statuses[..1];
    assert statuses[..|statuses| - 1] == s2 && s2[..|s2| - 1] == s1 && s1[..|s1| - 1] == [];
    assert s2[|s2| - 1] == statuses[1] && s1[|s1| - 1] == statuses[0];
    assert LeaveTotal(s1) == LeaveValue(statuses[0]) && EndgameTotal(s1) == EndgameValue(statuses[0]);
    assert LeaveTotal(s2) == LeaveTotal(s1) + LeaveValue(statuses[1]);
    assert EndgameTotal(s2) == EndgameTotal(s1) + EndgameValue(statuses[1]);
  }

  /**
   * Leave points counted per status: 3 for each Partial and 6 for each Full
   * among the statuses, whatever their order; nothing else scores.
   */
  lemma {:induction false} LeaveTotalByCounts(statuses: seq<int>)
    ensures LeaveTotal(statuses) ==
      LeavePartialPoints * multiset(statuses)[LeavePartial] + LeaveFullPoints * multiset(statuses)[LeaveFull]
    decreases |statuses|
  {
    if statuses != [] {
      var init := statuses[..|statuses| - 1];
      assert statuses == init + [statuses[|statuses| - 1]];
      LeaveTotalByCounts(init);
    }
  }

  /** Endgame points counted per status: 2 for each Partial and 5 for each Full. */
  lemma {:induction false} EndgameTotalByCounts(statuses: seq<int>)
    ensures EndgameTotal(statuses) ==
      EndgamePartialPoints * multiset(statuses)[EndgamePartial] + EndgameFullPoints * multiset(statuses)[EndgameFull]
    decreases |statuses|
  {
    if statuses != [] {
      var init := statuses[..|statuses| - 1];
      assert statuses == init + [statuses[|statuses| - 1]];
      EndgameTotalByCounts(init);
    }
  }

  /** The totals do not depend on which robot holds which status: any reordering scores the same. */
  lemma TotalsIgnoreRobotOrder(a: seq<int>, b: seq<int>)
    requires multiset(a) == multiset(b)
    ensures LeaveTotal(a) == LeaveTotal(b) && EndgameTotal(a) == EndgameTotal(b)
  {
    LeaveTotalByCounts(a);
    LeaveTotalByCounts(b);
    EndgameTotalByCounts(a);
    EndgameTotalByCounts(b);
  }

  /** Leave totals add over concatenation: the points of two groups of statuses are scored separately and summed. */
  lemma {:induction false} LeaveTotalAppend(a: seq<int>, b: seq<int>)
    ensures LeaveTotal(a + b) == LeaveTotal(a) + LeaveTotal(b)
    decreases |b|
  {
    if b == [] {
      assert a + b == a;
    } else {
      var b' := b[..|b| - 1];
      assert (a + b)[..|a + b| - 1] == a + b';
      assert (a + b)[|a + b| - 1] == b[|b| - 1];
      LeaveTotalAppend(a, b');
    }
  }

  /** Foul points add over concatenation of foul lists. */
  lemma {:induction false} FoulTotalAppend(a: seq<Foul>, b: seq<Foul>, pointValue: Foul -> int)
    ensures FoulTotal(a + b, pointValue) == FoulTotal(a, pointValue) + FoulTotal(b, pointValue)
    decreases |b|
  {
    if b == [] {
      assert a + b == a;
    } else {
      var b' := b[..|b| - 1];
      assert (a + b)[..|a + b| - 1] == a + b';
      assert (a + b)[|a + b| - 1] == b[|b| - 1];
      FoulTotalAppend(a, b', pointValue);
    }
  }

  /** The major-foul count lies between 0 and the number of fouls. */
  lemma {:induction false} MajorCountBounds(fouls: seq<Foul>)
    ensures 0 <= MajorCount(fouls) <= |fouls|
    decreases |fouls|
  {
    if fouls != [] {
      MajorCountBounds(fouls[..|fouls| - 1]);
    }
  }

  /**
   * The breakdown of a non-disqualified summary: leave in [0, 18], endgame in
   * [0, 15], the game-piece formulas, match points as the sum of the four
   * parts, score as match plus foul points, no bonus ranking points, and the
   * major-foul count bounded by the opponent's fouls.
   */
  lemma SummaryBreakdown(score: Score, opponent: Score, pointValue: Foul -> int)
    requires ValidScore(score) && !score.playoffDq
    ensures var r := Summary(score, opponent, pointValue);
      && 0 <= r.leavePoints <= 18
      && 0 <= r.endgamePoints <= 15
      && r.gamePiece1Points == 5 * score.gamePiece1Auton + 6 * score.gamePiece1Teleop
      && r.gamePiece2Points == 7 * score.gamePiece2Auton + 8 * score.gamePiece2Teleop
      && r.matchPoints == r.leavePoints + r.gamePiece1Points + r.gamePiece2Points + r.endgamePoints
      && r.score == r.matchPoints + r.foulPoints
      && r.foulPoints == FoulTotal(opponent.fouls, pointValue)
      && 0 <= r.numOpponentMajorFouls <= |opponent.fouls|
      && r.bonusRankingPoints == 0 && r.autoPoints == 0 && r.parkPoints == 0
  {
    LeaveTotalBounds(score.leaveStatuses);
    EndgameTotalBounds(score.endgameStatuses);
    MajorCountBounds(opponent.fouls);
  }

  /** An alliance's own fouls never change its summary; only the opponent's fouls count. */
  lemma OwnFoulsIgnored(score: Score, opponent: Score, ownFouls: seq<Foul>, pointValue: Foul -> int)
    ensures Summary(score.(fouls := ownFouls), opponent, pointValue) == Summary(score, opponent, pointValue)
  {
  }

  /** One more opponent foul adds its point value to foul points and to the score, and counts if major. */
  lemma OpponentFoulAdds(score: Score, opponent: Score, foul: Foul, pointValue: Foul -> int)
    requires !score.playoffDq
    ensures var before := Summary(score, opponent, pointValue);
      var after := Summary(score, opponent.(fouls := opponent.fouls + [foul]), pointValue);
      && after.foulPoints == before.foulPoints + pointValue(foul)
      && after.score == before.score + pointValue(foul)
      && after.numOpponentMajorFouls == before.numOpponentMajorFouls + (if foul.isMajor then 1 else 0)
      && after.matchPoints == before.matchPoints
  {
    var fs := opponent.fouls + [foul];
    assert fs[..|fs| - 1] == opponent.fouls;
  }

  /** The first score fixture of game/test_helpers.go: 9 leave, 40 + 39 piece, 7 endgame, 95 match points. */
  function TestScore1(): Score {
    Score(
      [LeaveFull, LeavePartial, LeaveNone], 2, 5, 1, 4, [EndgamePartial, EndgameNone, EndgameFull],
      [Foul(true, 25, 16), Foul(false, 1868, 13), Foul(false, 1868, 13),
       Foul(true, 25, 15), Foul(true, 25, 15), Foul(true, 25, 15), Foul(true, 25, 15)],
      false)
  }

  /** The second score fixture of game/test_helpers.go: 6 leave, 68 + 115 piece, 12 endgame, 201 match points. */
  function TestScore2(): Score {
    Score([LeaveNone, LeaveFull, LeaveNone], 4, 8, 5, 10, [EndgameFull, EndgamePartial, EndgameFull], [], false)
  }

  /** The fixtures summarised against each other: red's five majors count in blue's summary; blue has no fouls. */
  lemma FixtureSummaries(pointValue: Foul -> int)
    ensures var r := Summary(TestScore1(), TestScore2(), pointValue);
      && r.leavePoints == 9 && r.gamePiece1Points == 40 && r.gamePiece2Points == 39
      && r.endgamePoints == 7 && r.matchPoints == 95 && r.foulPoints == 0 && r.score == 95
      && r.numOpponentMajorFouls == 0
    ensures var b := Summary(TestScore2(), TestScore1(), pointValue);
      && b.leavePoints == 6 && b.gamePiece1Points == 68 && b.gamePiece2Points == 115
      && b.endgamePoints == 12 && b.matchPoints == 201
      && b.numOpponentMajorFouls == 5
  {
    PerRobotTotals(TestScore1().leaveStatuses);
    PerRobotTotals(TestScore1().endgameStatuses);
    PerRobotTotals(TestScore2().leaveStatuses);
    PerRobotTotals(TestScore2().endgameStatuses);
    var f := TestScore1().fouls;
    assert f[..1][..0] == [] && MajorCount(f[..1]) == 1;
    assert f[..2][..1] == f[..1] && MajorCount(f[..2]) == 1;
    assert f[..3][..2] == f[..2] && MajorCount(f[..3]) == 1;
    assert f[..4][..3] == f[..3] && MajorCount(f[..4]) == 2;
    assert f[..5][..4] == f[..4] && MajorCount(f[..5]) == 3;
    assert f[..6][..5] == f[..5] && MajorCount(f[..6]) == 4;
    assert f[..6] == f[..|f| - 1] && MajorCount(f) == 5;
  }
}
