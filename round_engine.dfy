/**
 * The round and scoring rules of GameService, one function per operator
 * command, over the value of the game state. Each function gives the new
 * state for an old one; its contract says what the command promises and that
 * it keeps the game invariant Inv. Invalid input (an unknown team id, an index
 * outside the current question, a cap already reached) leaves the state as it
 * was. Commands that load a question take the drawn question as a parameter.
 */
module RoundEngine {
  import opened Optional
  import opened GameModels

  /** Rounds are numbered 1 to MaxRound; NextRound stops advancing at MaxRound. */
  const MaxRound: int := 5

  /** A team's error counter never goes above MaxErrors. */
  const MaxErrors: int := 3

  const Team1DefaultName: string := "Команда 1"
  const Team2DefaultName: string := "Команда 2"

  predicate NoDuplicates(xs: seq<int>)
  {
    forall i, j :: 0 <= i < j < |xs| ==> xs[i] != xs[j]
  }

  predicate ErrorsInRange(teams: seq<TeamRecord>)
  {
    forall k :: 0 <= k < |teams| ==> 0 <= teams[k].errors <= MaxErrors
  }

  /** The part of the invariant that does not concern the teams. */
  predicate RoundInv(s: Snapshot)
  {
    1 <= s.currentRound <= MaxRound && NoDuplicates(s.revealedAnswers)
  }

  /** The invariant every command keeps once the two teams exist. */
  predicate Inv(s: Snapshot)
  {
    && RoundInv(s)
    && |s.teams| == 2 && s.teams[0].id == 1 && s.teams[1].id == 2
    && ErrorsInRange(s.teams)
  }

  /** The position of the first team with id `id`, if there is one. */
  function FindTeam(teams: seq<TeamRecord>, id: int): (r: Option<nat>)
    ensures r.Some? ==> r.value < |teams| && teams[r.value].id == id
    ensures r.Some? ==> forall j :: 0 <= j < r.value ==> teams[j].id != id
    ensures r.None? <==> forall j :: 0 <= j < |teams| ==> teams[j].id != id
  {
    if teams == [] then None
    else if teams[0].id == id then Some(0)
    else match FindTeam(teams[1..], id)
      case None => None
      case Some(k) => Some(k + 1)
  }

  /** A position holding the id, with no earlier position holding it, is what FindTeam finds. */
  lemma FindTeamAt(teams: seq<TeamRecord>, id: int, i: nat)
    requires i < |teams| && teams[i].id == id
    requires forall j :: 0 <= j < i ==> teams[j].id != id
    ensures FindTeam(teams, id) == Some(i)
  {
  }

  /** Under the invariant, the ids 1 and 2 are found at positions 0 and 1 and no other id is found. */
  lemma FindTeamUnderInv(s: Snapshot, id: int)
    requires Inv(s)
    ensures FindTeam(s.teams, id) == if id == 1 then Some(0) else if id == 2 then Some(1) else None
  {
  }

  /** One team after the per-team reset loop. */
  function ResetTeam(t: TeamRecord, clearScores: bool): (r: TeamRecord)
    ensures r.id == t.id && r.name == t.name && r.errors == 0
    ensures r.score == (if clearScores then 0 else t.score)
  {
    t.(score := if clearScores then 0 else t.score, errors := 0)
  }

  /** All teams after the per-team reset loop. */
  function ResetTeams(teams: seq<TeamRecord>, clearScores: bool): (r: seq<TeamRecord>)
    ensures |r| == |teams|
    ensures forall k :: 0 <= k < |teams| ==> r[k] == ResetTeam(teams[k], clearScores)
  {
    seq(|teams|, k requires 0 <= k < |teams| => ResetTeam(teams[k], clearScores))
  }

  /** `s` with the team at position k replaced by t. */
  function WithTeam(s: Snapshot, k: nat, t: TeamRecord): Snapshot
    requires k < |s.teams|
  {
    s.(teams := s.teams[k := t])
  }

  /** InitializeTeams: teams 1 and 2 with their default names, no score and no errors. */
  function InitializeTeams(s: Snapshot): (r: Snapshot)
    ensures |r.teams| == 2
    ensures r.teams[0] == TeamRecord(1, Team1DefaultName, 0, 0)
    ensures r.teams[1] == TeamRecord(2, Team2DefaultName, 0, 0)
    ensures r == s.(teams := r.teams)
    ensures RoundInv(s) ==> Inv(r)
  {
    s.(teams := [TeamRecord(1, Team1DefaultName, 0, 0), TeamRecord(2, Team2DefaultName, 0, 0)])
  }

  /** SetTeamNames: renames the first and the second team, by position. */
  function SetTeamNames(s: Snapshot, team1Name: string, team2Name: string): (r: Snapshot)
    requires |s.teams| >= 2
    ensures |r.teams| == |s.teams| && r == s.(teams := r.teams)
    ensures r.teams[0].name == team1Name && r.teams[1].name == team2Name
    ensures forall k :: 0 <= k < |s.teams| ==> r.teams[k] == s.teams[k].(name := r.teams[k].name)
    ensures forall k :: 2 <= k < |s.teams| ==> r.teams[k] == s.teams[k]
    ensures Inv(s) ==> Inv(r)
  {
    var renamed := s.teams[0 := s.teams[0].(name := team1Name)];
    s.(teams := renamed[1 := renamed[1].(name := team2Name)])
  }

  /**
   * SetRoundSettings: stores the multiplier and the mode as given; the
   * multiplier is not validated.
   */
  function SetRoundSettings(s: Snapshot, multiplier: int, mode: GameMode): (r: Snapshot)
    ensures r.roundMultiplier == multiplier && r.currentMode == mode
    ensures r == s.(roundMultiplier := r.roundMultiplier, currentMode := r.currentMode)
    ensures Inv(s) ==> Inv(r)
  {
    s.(roundMultiplier := multiplier, currentMode := mode)
  }

  /** StartNewGame: back to round 1 of an active game with the question q. */
  function StartNewGame(s: Snapshot, q: Question): (r: Snapshot)
    ensures r.currentRound == 1 && r.isGameActive && r.isRoundActive && r.revealedAnswers == []
    ensures r.currentMode == Normal && r.roundMultiplier == 1 && r.roundPoints == 0
    ensures |r.teams| == |s.teams|
    ensures forall k :: 0 <= k < |s.teams| ==>
      r.teams[k] == s.teams[k].(score := 0, errors := 0)
    ensures r.currentQuestion == Some(q)
    ensures Inv(s) ==> Inv(r)
  {
    s.(currentRound := 1, isGameActive := true, isRoundActive := true, revealedAnswers := [],
       currentMode := Normal, roundMultiplier := 1, roundPoints := 0,
       teams := ResetTeams(s.teams, true), currentQuestion := Some(q))
  }

  /**
   * StartRound: activates the round, hides every answer and clears the errors;
   * the round number, the scores, the multiplier, the mode and the round points
   * are kept.
   */
  function StartRound(s: Snapshot): (r: Snapshot)
    ensures r.isRoundActive && r.revealedAnswers == []
    ensures |r.teams| == |s.teams|
    ensures forall k :: 0 <= k < |s.teams| ==> r.teams[k] == s.teams[k].(errors := 0)
    ensures r == s.(isRoundActive := true, revealedAnswers := [], teams := r.teams)
    ensures Inv(s) ==> Inv(r)
  {
    s.(isRoundActive := true, revealedAnswers := [], teams := ResetTeams(s.teams, false))
  }

  /**
   * NextRound: below the last round, advances by one round with the question q,
   * hides every answer and clears the round points and the errors, keeping the
   * scores; at the last round it changes nothing.
   */
  function NextRound(s: Snapshot, q: Question): (r: Snapshot)
    ensures s.currentRound < MaxRound ==>
      && r.currentRound == s.currentRound + 1
      && r.isRoundActive && r.revealedAnswers == [] && r.roundPoints == 0
      && r.currentQuestion == Some(q)
      && |r.teams| == |s.teams|
      && (forall k :: 0 <= k < |s.teams| ==> r.teams[k] == s.teams[k].(errors := 0))
      && r.isGameActive == s.isGameActive
      && r.roundMultiplier == s.roundMultiplier && r.currentMode == s.currentMode
    ensures s.currentRound >= MaxRound ==> r == s
    ensures s.currentRound <= MaxRound ==> r.currentRound <= MaxRound
    ensures Inv(s) ==> Inv(r)
  {
    if s.currentRound < MaxRound then
      s.(currentRound := s.currentRound + 1, isRoundActive := true, revealedAnswers := [],
         roundPoints := 0, teams := ResetTeams(s.teams, false), currentQuestion := Some(q))
    else
      s
  }

  /**
   * NextQuestion: deactivates the round and shows the question q; the revealed
   * indices are kept although they belonged to the previous question.
   */
  function NextQuestion(s: Snapshot, q: Question): (r: Snapshot)
    ensures !r.isRoundActive && r.currentQuestion == Some(q)
    ensures r.revealedAnswers == s.revealedAnswers
    ensures r == s.(isRoundActive := false, currentQuestion := Some(q))
    ensures Inv(s) ==> Inv(r)
  {
    s.(isRoundActive := false, currentQuestion := Some(q))
  }

  /** The index names an answer of the current question that is not yet revealed. */
  predicate CanReveal(s: Snapshot, index: int)
  {
    && s.currentQuestion.Some?
    && 0 <= index < |s.currentQuestion.value.answers|
    && index !in s.revealedAnswers
  }

  /** The points of answer `index` of the current question. */
  function PointsOf(s: Snapshot, index: int): int
    requires s.currentQuestion.Some? && 0 <= index < |s.currentQuestion.value.answers|
  {
    s.currentQuestion.value.answers[index].points
  }

  /** Appends index to the revealed answers if it can be revealed. */
  function Reveal(s: Snapshot, index: int): (r: Snapshot)
    ensures CanReveal(s, index) ==> r == s.(revealedAnswers := s.revealedAnswers + [index])
    ensures !CanReveal(s, index) ==> r == s
    ensures forall j :: j in r.revealedAnswers <==> j in s.revealedAnswers || (j == index && CanReveal(s, index))
    ensures NoDuplicates(s.revealedAnswers) ==> NoDuplicates(r.revealedAnswers)
  {
    if CanReveal(s, index) then s.(revealedAnswers := s.revealedAnswers + [index]) else s
  }

  /**
   * RevealAnswer: a new in-range index is appended once and its answer's points
   * are added to the round points; any other index changes nothing. The mode
   * plays no part.
   */
  function RevealAnswer(s: Snapshot, index: int): (r: Snapshot)
    ensures CanReveal(s, index) ==>
      && r.revealedAnswers == s.revealedAnswers + [index]
      && r.roundPoints == s.roundPoints + PointsOf(s, index)
      && r == s.(revealedAnswers := r.revealedAnswers, roundPoints := r.roundPoints)
    ensures !CanReveal(s, index) ==> r == s
    ensures forall j :: j in r.revealedAnswers && j !in s.revealedAnswers ==>
      s.currentQuestion.Some? && 0 <= j < |s.currentQuestion.value.answers|
    ensures Inv(s) ==> Inv(r)
  {
    if CanReveal(s, index) then
      Reveal(s, index).(roundPoints := s.roundPoints + PointsOf(s, index))
    else
      s
  }

  /** RevealAnswerWithoutPoints: as RevealAnswer, but the round points stay as they are. */
  function RevealAnswerWithoutPoints(s: Snapshot, index: int): (r: Snapshot)
    ensures CanReveal(s, index) ==> r.revealedAnswers == s.revealedAnswers + [index]
    ensures r == s.(revealedAnswers := r.revealedAnswers)
    ensures !CanReveal(s, index) ==> r == s
    ensures Inv(s) ==> Inv(r)
  {
    Reveal(s, index)
  }

  /**
   * AwardRoundPoints: a known team receives the round points times the
   * multiplier and the round points drop to 0; nothing else changes. An unknown
   * id changes nothing, the round points included.
   */
  function AwardRoundPoints(s: Snapshot, teamId: int): (r: Snapshot)
    ensures FindTeam(s.teams, teamId).None? ==> r == s
    ensures FindTeam(s.teams, teamId).Some? ==>
      var k := FindTeam(s.teams, teamId).value;
      && r.roundPoints == 0
      && |r.teams| == |s.teams|
      && r.teams[k] == s.teams[k].(score := s.teams[k].score + s.roundPoints * s.roundMultiplier)
      && (forall j :: 0 <= j < |s.teams| && j != k ==> r.teams[j] == s.teams[j])
      && r == s.(teams := r.teams, roundPoints := 0)
    ensures Inv(s) ==> Inv(r)
  {
    match FindTeam(s.teams, teamId)
    case None => s
    case Some(k) =>
      var finalPoints := s.roundPoints * s.roundMultiplier;
      WithTeam(s, k, s.teams[k].(score := s.teams[k].score + finalPoints)).(roundPoints := 0)
  }

  /** AddError: one more error for a known team below the cap; only that counter changes. */
  function AddError(s: Snapshot, teamId: int): (r: Snapshot)
    ensures |r.teams| == |s.teams| && r == s.(teams := r.teams)
    ensures forall k :: 0 <= k < |s.teams| ==> r.teams[k] == s.teams[k].(errors := r.teams[k].errors)
    ensures forall k :: 0 <= k < |s.teams| ==>
      r.teams[k].errors == s.teams[k].errors +
        (if FindTeam(s.teams, teamId) == Some(k) && s.teams[k].errors < MaxErrors then 1 else 0)
    ensures ErrorsInRange(s.teams) ==> ErrorsInRange(r.teams)
    ensures Inv(s) ==> Inv(r)
  {
    match FindTeam(s.teams, teamId)
    case Some(k) =>
      if s.teams[k].errors < MaxErrors then
        WithTeam(s, k, s.teams[k].(errors := s.teams[k].errors + 1))
      else
        s
    case None => s
  }

  /** RemoveError: one error fewer for a known team that has any; only that counter changes. */
  function RemoveError(s: Snapshot, teamId: int): (r: Snapshot)
    ensures |r.teams| == |s.teams| && r == s.(teams := r.teams)
    ensures forall k :: 0 <= k < |s.teams| ==> r.teams[k] == s.teams[k].(errors := r.teams[k].errors)
    ensures forall k :: 0 <= k < |s.teams| ==>
      r.teams[k].errors == s.teams[k].errors -
        (if FindTeam(s.teams, teamId) == Some(k) && s.teams[k].errors > 0 then 1 else 0)
    ensures ErrorsInRange(s.teams) ==> ErrorsInRange(r.teams)
    ensures Inv(s) ==> Inv(r)
  {
    match FindTeam(s.teams, teamId)
    case Some(k) =>
      if s.teams[k].errors > 0 then
        WithTeam(s, k, s.teams[k].(errors := s.teams[k].errors - 1))
      else
        s
    case None => s
  }

  /** SetTeamScore: a known team's score becomes max(0, newScore); an unknown id changes nothing. */
  function SetTeamScore(s: Snapshot, teamId: int, newScore: int): (r: Snapshot)
    ensures FindTeam(s.teams, teamId).None? ==> r == s
    ensures FindTeam(s.teams, teamId).Some? ==>
      var k := FindTeam(s.teams, teamId).value;
      && |r.teams| == |s.teams|
      && r.teams[k] == s.teams[k].(score := r.teams[k].score)
      && r.teams[k].score >= 0
      && (newScore >= 0 ==> r.teams[k].score == newScore)
      && (newScore < 0 ==> r.teams[k].score == 0)
      && (forall j :: 0 <= j < |s.teams| && j != k ==> r.teams[j] == s.teams[j])
      && r == s.(teams := r.teams)
    ensures Inv(s) ==> Inv(r)
  {
    match FindTeam(s.teams, teamId)
    case Some(k) => WithTeam(s, k, s.teams[k].(score := if newScore > 0 then newScore else 0))
    case None => s
  }

  /** AddError on a found team below the cap replaces that team's record. */
  lemma AddErrorAt(s: Snapshot, teamId: int, k: nat)
    requires FindTeam(s.teams, teamId) == Some(k) && s.teams[k].errors < MaxErrors
    ensures AddError(s, teamId) == WithTeam(s, k, s.teams[k].(errors := s.teams[k].errors + 1))
  {
  }

  /** AddError on an unknown team or one at the cap is the identity. */
  lemma AddErrorUnchanged(s: Snapshot, teamId: int)
    requires FindTeam(s.teams, teamId).None? || s.teams[FindTeam(s.teams, teamId).value].errors >= MaxErrors
    ensures AddError(s, teamId) == s
  {
  }

  /** RemoveError on a found team with errors replaces that team's record. */
  lemma RemoveErrorAt(s: Snapshot, teamId: int, k: nat)
    requires FindTeam(s.teams, teamId) == Some(k) && s.teams[k].errors > 0
    ensures RemoveError(s, teamId) == WithTeam(s, k, s.teams[k].(errors := s.teams[k].errors - 1))
  {
  }

  /** RemoveError on an unknown team or one without errors is the identity. */
  lemma RemoveErrorUnchanged(s: Snapshot, teamId: int)
    requires FindTeam(s.teams, teamId).None? || s.teams[FindTeam(s.teams, teamId).value].errors <= 0
    ensures RemoveError(s, teamId) == s
  {
  }

  /** SetTeamScore on a found team replaces that team's record. */
  lemma SetTeamScoreAt(s: Snapshot, teamId: int, newScore: int, k: nat)
    requires FindTeam(s.teams, teamId) == Some(k)
    ensures SetTeamScore(s, teamId, newScore) ==
      WithTeam(s, k, s.teams[k].(score := if newScore > 0 then newScore else 0))
  {
  }

  /** AwardRoundPoints on a found team replaces that team's record and empties the round points. */
  lemma AwardRoundPointsAt(s: Snapshot, teamId: int, k: nat)
    requires FindTeam(s.teams, teamId) == Some(k)
    ensures AwardRoundPoints(s, teamId) ==
      WithTeam(s, k, s.teams[k].(score := s.teams[k].score + s.roundPoints * s.roundMultiplier)).(roundPoints := 0)
  {
  }

  // Properties relating several commands.

  /** AddError changes the state exactly when the team exists and is below the cap. */
  lemma AddErrorChangesIff(s: Snapshot, teamId: int)
    ensures AddError(s, teamId) != s <==>
      FindTeam(s.teams, teamId).Some? && s.teams[FindTeam(s.teams, teamId).value].errors < MaxErrors
  {
    var r := AddError(s, teamId);
    match FindTeam(s.teams, teamId)
    case None =>
      assert r.teams == s.teams;
    case Some(k) =>
      if s.teams[k].errors < MaxErrors {
        assert r.teams[k] != s.teams[k];
      } else {
        assert r.teams == s.teams;
      }
  }

  /** RemoveError changes the state exactly when the team exists and has an error. */
  lemma RemoveErrorChangesIff(s: Snapshot, teamId: int)
    ensures RemoveError(s, teamId) != s <==>
      FindTeam(s.teams, teamId).Some? && s.teams[FindTeam(s.teams, teamId).value].errors > 0
  {
    var r := RemoveError(s, teamId);
    match FindTeam(s.teams, teamId)
    case None =>
      assert r.teams == s.teams;
    case Some(k) =>
      if s.teams[k].errors > 0 {
        assert r.teams[k] != s.teams[k];
      } else {
        assert r.teams == s.teams;
      }
  }

  /** AddError undone by RemoveError: below the cap, the two cancel out. */
  lemma RemoveErrorUndoesAddError(s: Snapshot, teamId: int)
    requires FindTeam(s.teams, teamId).Some?
    requires 0 <= s.teams[FindTeam(s.teams, teamId).value].errors < MaxErrors
    ensures RemoveError(AddError(s, teamId), teamId) == s
  {
    var k := FindTeam(s.teams, teamId).value;
    var t := s.teams[k];
    AddErrorAt(s, teamId, k);
    var a := WithTeam(s, k, t.(errors := t.errors + 1));
    FindTeamAt(a.teams, teamId, k);
    RemoveErrorAt(a, teamId, k);
    assert a.teams[k := t] == s.teams;
  }

  /** Revealing the same index twice has the effect of revealing it once. */
  lemma RevealAnswerIdempotent(s: Snapshot, index: int)
    ensures RevealAnswer(RevealAnswer(s, index), index) == RevealAnswer(s, index)
  {
    if CanReveal(s, index) {
      assert index in RevealAnswer(s, index).revealedAnswers;
    }
  }

  /** The first reveal of an index decides whether its points count: a later reveal adds nothing. */
  lemma FirstRevealWins(s: Snapshot, index: int)
    ensures RevealAnswer(RevealAnswerWithoutPoints(s, index), index) == RevealAnswerWithoutPoints(s, index)
    ensures RevealAnswerWithoutPoints(RevealAnswer(s, index), index) == RevealAnswer(s, index)
  {
    if CanReveal(s, index) {
      assert index in RevealAnswerWithoutPoints(s, index).revealedAnswers;
      assert index in RevealAnswer(s, index).revealedAnswers;
    }
  }

  /** RevealAnswerWithoutPoints reveals exactly what RevealAnswer reveals and leaves the round points. */
  lemma RevealWithoutPointsAgrees(s: Snapshot, index: int)
    ensures RevealAnswerWithoutPoints(s, index) == RevealAnswer(s, index).(roundPoints := s.roundPoints)
  {
  }

  /** The mode does not influence RevealAnswer: raw answer points are added in either mode. */
  lemma RevealAnswerIgnoresMode(s: Snapshot, index: int, mode: GameMode)
    ensures RevealAnswer(s.(currentMode := mode), index) == RevealAnswer(s, index).(currentMode := mode)
  {
  }

  /** At the last round NextRound is a no-op, however often it is called. */
  lemma NextRoundStopsAtLastRound(s: Snapshot, q1: Question, q2: Question)
    requires s.currentRound == MaxRound
    ensures NextRound(NextRound(s, q1), q2) == s
  {
  }

  /** Awarding twice in a row gives the second team nothing: the first award empties the round points. */
  lemma SecondAwardGivesNothing(s: Snapshot, first: int, second: int)
    requires FindTeam(s.teams, first).Some?
    ensures AwardRoundPoints(AwardRoundPoints(s, first), second).teams == AwardRoundPoints(s, first).teams
  {
    var a := AwardRoundPoints(s, first);
    match FindTeam(a.teams, second)
    case None =>
    case Some(k) =>
      assert a.roundPoints * a.roundMultiplier == 0;
      assert AwardRoundPoints(a, second).teams[k] == a.teams[k];
  }

  /** Every revealed index names an answer of the current question. */
  predicate RevealsInRange(s: Snapshot)
  {
    forall j :: j in s.revealedAnswers ==>
      s.currentQuestion.Some? && 0 <= j < |s.currentQuestion.value.answers|
  }

  /** Revealing keeps every revealed index inside the current question. */
  lemma RevealKeepsRevealsInRange(s: Snapshot, index: int)
    requires RevealsInRange(s)
    ensures RevealsInRange(RevealAnswer(s, index))
    ensures RevealsInRange(RevealAnswerWithoutPoints(s, index))
  {
  }

  /**
   * NextQuestion keeps the old reveals, which may lie outside the new question:
   * from the service's first state, a new game on a two-answer question, a
   * reveal of answer 1 and a switch to a one-answer question strand index 1.
   */
  lemma NextQuestionMayStrandReveals()
    ensures var q := Question("q", [Answer("a", 1), Answer("b", 1)]);
            var p := Question("p", [Answer("c", 1)]);
            var s := RevealAnswer(StartNewGame(InitializeTeams(
                       Snapshot([], 1, None, 1, false, false, [], Normal, 0)), q), 1);
            && Inv(s) && RevealsInRange(s)
            && Inv(NextQuestion(s, p)) && !RevealsInRange(NextQuestion(s, p))
  {
    var q := Question("q", [Answer("a", 1), Answer("b", 1)]);
    var p := Question("p", [Answer("c", 1)]);
    var s0 := InitializeTeams(Snapshot([], 1, None, 1, false, false, [], Normal, 0));
    var s1 := StartNewGame(s0, q);
    assert CanReveal(s1, 1);
    var s := RevealAnswer(s1, 1);
    assert s.revealedAnswers == [1];
    var r := NextQuestion(s, p);
    assert 1 in r.revealedAnswers;
  }

  /** Revealing answers 0 and 2 of [30,25,20,15,10] makes 50; answer 1 without points keeps 50. */
  lemma RoundPointsExample(s: Snapshot)
    requires s.revealedAnswers == [] && s.roundPoints == 0
    requires s.currentQuestion == Some(Question("q",
      [Answer("a", 30), Answer("b", 25), Answer("c", 20), Answer("d", 15), Answer("e", 10)]))
    ensures RevealAnswer(RevealAnswer(s, 0), 2).roundPoints == 50
    ensures RevealAnswerWithoutPoints(RevealAnswer(RevealAnswer(s, 0), 2), 1).roundPoints == 50
  {
    var s1 := RevealAnswer(s, 0);
    assert s1.revealedAnswers == [0];
    var s2 := RevealAnswer(s1, 2);
    assert s2.revealedAnswers == [0, 2];
  }

  /** Awarding 50 round points at multiplier 2 adds 100 to team 1. */
  lemma AwardExample(s: Snapshot)
    requires Inv(s) && s.roundPoints == 50 && s.roundMultiplier == 2
    ensures AwardRoundPoints(s, 1).teams[0].score == s.teams[0].score + 100
    ensures AwardRoundPoints(s, 1).roundPoints == 0
  {
    FindTeamUnderInv(s, 1);
  }
}
