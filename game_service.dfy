/**
 * The game service (Services/GameService.cs): it owns the one GameState
 * object and the question bank, and every operator command updates the game
 * state in place. Each command is proved to produce exactly the state that
 * the matching RoundEngine function computes from the state before, and to
 * keep the service invariant Valid. The random draw of a question is any
 * index of the bank.
 */
module GameServices {
  import opened Optional
  import opened GameModels
  import QuestionBank
  import E = RoundEngine

  class GameService {
    const gameState: GameState
    const questions: seq<Question>

    /** The bank is never empty and the current question, if any, comes from it. */
    ghost predicate BankValid()
      reads this, gameState
    {
      && |questions| > 0
      && (gameState.currentQuestion.Some? ==> gameState.currentQuestion.value in questions)
    }

    /** The service invariant: the game invariant, two distinct team objects, a valid bank. */
    ghost predicate Valid()
      reads this, gameState, gameState.teams
    {
      E.Inv(gameState.View()) && Distinct(gameState.teams) && BankValid()
    }

    /** Loads the question bank from the configuration, then creates the two teams. */
    constructor (config: Option<seq<QuestionBank.QuestionConfiguration>>)
      ensures Valid() && fresh(gameState)
      ensures questions == QuestionBank.LoadQuestions(config)
      ensures gameState.View() ==
        E.InitializeTeams(Snapshot([], 1, None, 1, false, false, [], Normal, 0))
    {
      gameState := new GameState();
      questions := QuestionBank.LoadQuestions(config);
      new;
      InitializeTeams();
    }

    method InitializeTeams()
      requires E.RoundInv(gameState.View()) && BankValid()
      modifies gameState
      ensures Valid()
      ensures fresh(gameState.teams[0]) && fresh(gameState.teams[1])
      ensures gameState.View() == E.InitializeTeams(old(gameState.View()))
    {
      var team1 := new Team();
      team1.id, team1.name, team1.score, team1.errors := 1, E.Team1DefaultName, 0, 0;
      var team2 := new Team();
      team2.id, team2.name, team2.score, team2.errors := 2, E.Team2DefaultName, 0, 0;
      gameState.teams := [team1, team2];
      assert Records(gameState.teams) == [team1.Record(), team2.Record()];
      assert gameState.View() == E.InitializeTeams(old(gameState.View()));
    }

    method SetTeamNames(team1Name: string, team2Name: string)
      requires Valid()
      modifies gameState.teams
      ensures Valid()
      ensures gameState.View() == E.SetTeamNames(old(gameState.View()), team1Name, team2Name)
    {
      gameState.teams[0].name := team1Name;
      gameState.teams[1].name := team2Name;
    }

    method SetRoundSettings(multiplier: int, mode: GameMode)
      requires Valid()
      modifies gameState
      ensures Valid() && gameState.teams == old(gameState.teams)
      ensures gameState.View() == E.SetRoundSettings(old(gameState.View()), multiplier, mode)
    {
      gameState.roundMultiplier := multiplier;
      gameState.currentMode := mode;
    }

    method StartNewGame()
      requires Valid()
      modifies gameState, gameState.teams
      ensures Valid() && gameState.teams == old(gameState.teams)
      ensures exists q :: (q in questions &&
        gameState.View() == E.StartNewGame(old(gameState.View()), q))
    {
      gameState.currentRound := 1;
      gameState.isGameActive := true;
      gameState.isRoundActive := true;
      gameState.revealedAnswers := [];
      gameState.currentMode := Normal;
      gameState.roundMultiplier := 1;
      gameState.roundPoints := 0;
      ResetTeams(true);
      LoadRandomQuestion();
      assert gameState.View() == E.StartNewGame(old(gameState.View()), gameState.currentQuestion.value);
    }

    method StartRound()
      requires Valid()
      modifies gameState, gameState.teams
      ensures Valid() && gameState.teams == old(gameState.teams)
      ensures gameState.View() == E.StartRound(old(gameState.View()))
    {
      gameState.isRoundActive := true;
      gameState.revealedAnswers := [];
      ResetTeams(false);
    }

    method NextRound()
      requires Valid()
      modifies gameState, gameState.teams
      ensures Valid() && gameState.teams == old(gameState.teams)
      ensures exists q :: (q in questions &&
        gameState.View() == E.NextRound(old(gameState.View()), q))
    {
      if gameState.currentRound < E.MaxRound {
        gameState.currentRound := gameState.currentRound + 1;
        gameState.isRoundActive := true;
        gameState.revealedAnswers := [];
        gameState.roundPoints := 0;
        ResetTeams(false);
        LoadRandomQuestion();
        assert gameState.View() == E.NextRound(old(gameState.View()), gameState.currentQuestion.value);
      } else {
        assert questions[0] in questions;
        assert gameState.View() == E.NextRound(old(gameState.View()), questions[0]);
      }
    }

    method NextQuestion()
      requires Valid()
      modifies gameState
      ensures Valid() && gameState.teams == old(gameState.teams)
      ensures exists q :: (q in questions &&
        gameState.View() == E.NextQuestion(old(gameState.View()), q))
    {
      gameState.isRoundActive := false;
      LoadRandomQuestion();
      assert gameState.View() == E.NextQuestion(old(gameState.View()), gameState.currentQuestion.value);
    }

    method RevealAnswer(answerIndex: int)
      requires Valid()
      modifies gameState
      ensures Valid() && gameState.teams == old(gameState.teams)
      ensures gameState.View() == E.RevealAnswer(old(gameState.View()), answerIndex)
    {
      var count := if gameState.currentQuestion.Some? then |gameState.currentQuestion.value.answers| else 0;
      if 0 <= answerIndex < count {
        if answerIndex !in gameState.revealedAnswers {
          gameState.revealedAnswers := gameState.revealedAnswers + [answerIndex];
          var answer := gameState.currentQuestion.value.answers[answerIndex];
          gameState.roundPoints := gameState.roundPoints + answer.points;
        }
      }
    }

    method RevealAnswerWithoutPoints(answerIndex: int)
      requires Valid()
      modifies gameState
      ensures Valid() && gameState.teams == old(gameState.teams)
      ensures gameState.View() == E.RevealAnswerWithoutPoints(old(gameState.View()), answerIndex)
    {
      var count := if gameState.currentQuestion.Some? then |gameState.currentQuestion.value.answers| else 0;
      if 0 <= answerIndex < count {
        if answerIndex !in gameState.revealedAnswers {
          gameState.revealedAnswers := gameState.revealedAnswers + [answerIndex];
        }
      }
    }

    method AwardRoundPoints(teamId: int)
      requires Valid()
      modifies gameState, gameState.teams
      ensures Valid() && gameState.teams == old(gameState.teams)
      ensures gameState.View() == E.AwardRoundPoints(old(gameState.View()), teamId)
    {
      ghost var before := gameState.View();
      var team := FindTeam(teamId);
      if team != null {
        ghost var k := E.FindTeam(before.teams, teamId).value;
        var finalPoints := gameState.roundPoints * gameState.roundMultiplier;
        ghost var rec := before.teams[k].(score := before.teams[k].score + finalPoints);
        // The two writes touch different objects, so their order does not matter.
        gameState.roundPoints := 0;
        assert Records(gameState.teams) == before.teams by {
          assert forall j :: 0 <= j < |gameState.teams| ==> gameState.teams[j].Record() == before.teams[j];
        }
        StoreTeam(team, k, team.score + finalPoints, team.errors);
        assert Records(gameState.teams) == before.teams[k := rec];
        assert gameState.View() == E.WithTeam(before, k, rec).(roundPoints := 0);
        E.AwardRoundPointsAt(before, teamId, k);
      }
    }

    method AddError(teamId: int)
      requires Valid()
      modifies gameState.teams
      ensures Valid()
      ensures gameState.View() == E.AddError(old(gameState.View()), teamId)
    {
      ghost var before := gameState.View();
      var team := FindTeam(teamId);
      if team != null && team.errors < E.MaxErrors {
        ghost var k := E.FindTeam(before.teams, teamId).value;
        ghost var rec := before.teams[k].(errors := before.teams[k].errors + 1);
        StoreTeam(team, k, team.score, team.errors + 1);
        assert Records(gameState.teams) == before.teams[k := rec];
        assert gameState.View() == E.WithTeam(before, k, rec);
        E.AddErrorAt(before, teamId, k);
      } else {
        E.AddErrorUnchanged(before, teamId);
      }
    }

    method RemoveError(teamId: int)
      requires Valid()
      modifies gameState.teams
      ensures gameState.View() == E.RemoveError(old(gameState.View()), teamId)
      ensures Valid()
    {
      ghost var before := gameState.View();
      var team := FindTeam(teamId);
      if team != null && team.errors > 0 {
        ghost var k := E.FindTeam(before.teams, teamId).value;
        ghost var rec := before.teams[k].(errors := before.teams[k].errors - 1);
        StoreTeam(team, k, team.score, team.errors - 1);
        assert Records(gameState.teams) == before.teams[k := rec];
        assert gameState.View() == E.WithTeam(before, k, rec);
        E.RemoveErrorAt(before, teamId, k);
      } else {
        E.RemoveErrorUnchanged(before, teamId);
      }
    }

    method SetTeamScore(teamId: int, newScore: int)
      requires Valid()
      modifies gameState.teams
      ensures Valid()
      ensures gameState.View() == E.SetTeamScore(old(gameState.View()), teamId, newScore)
    {
      ghost var before := gameState.View();
      var team := FindTeam(teamId);
      if team != null {
        ghost var k := E.FindTeam(before.teams, teamId).value;
        ghost var rec := before.teams[k].(score := if newScore > 0 then newScore else 0);
        StoreTeam(team, k, if newScore > 0 then newScore else 0, team.errors);
        assert Records(gameState.teams) == before.teams[k := rec];
        assert gameState.View() == E.WithTeam(before, k, rec);
        E.SetTeamScoreAt(before, teamId, newScore, k);
      }
    }

    /** Writes a team's score and errors; among the records only the k-th, that team's, changes. */
    method StoreTeam(team: Team, ghost k: nat, score: int, errors: int)
      requires k < |gameState.teams| && gameState.teams[k] == team && Distinct(gameState.teams)
      modifies team
      ensures Records(gameState.teams) ==
        old(Records(gameState.teams))[k := old(team.Record()).(score := score, errors := errors)]
    {
      team.score, team.errors := score, errors;
    }

    /** The first team with the given id, or null when no team has it. */
    function FindTeam(teamId: int): (team: Team?)
      reads this, gameState, gameState.teams
      ensures team == null <==> forall j :: 0 <= j < |gameState.teams| ==> gameState.teams[j].id != teamId
      ensures team != null ==> exists k :: (0 <= k < |gameState.teams| && team == gameState.teams[k] &&
        team.id == teamId && forall j :: 0 <= j < k ==> gameState.teams[j].id != teamId)
    {
      match E.FindTeam(Records(gameState.teams), teamId)
      case None => null
      case Some(k) => gameState.teams[k]
    }

    /** The per-team reset loop: every team's errors, and with clearScores its score, become 0. */
    method ResetTeams(clearScores: bool)
      requires Distinct(gameState.teams)
      modifies gameState.teams
      ensures Records(gameState.teams) == E.ResetTeams(old(Records(gameState.teams)), clearScores)
    {
      var i := 0;
      while i < |gameState.teams|
        invariant 0 <= i <= |gameState.teams|
        invariant forall k :: 0 <= k < i ==>
          gameState.teams[k].Record() == E.ResetTeam(old(gameState.teams[k].Record()), clearScores)
        invariant forall k :: i <= k < |gameState.teams| ==>
          gameState.teams[k].Record() == old(gameState.teams[k].Record())
      {
        var team := gameState.teams[i];
        if clearScores {
          team.score := 0;
        }
        team.errors := 0;
        i := i + 1;
      }
    }

    /** Draws any question of the bank as the current one; an empty bank leaves it as it is. */
    method LoadRandomQuestion()
      modifies gameState
      ensures gameState.teams == old(gameState.teams)
      ensures |questions| > 0 ==>
        gameState.currentQuestion.Some? && gameState.currentQuestion.value in questions
      ensures gameState.View() == old(gameState.View()).(currentQuestion := gameState.currentQuestion)
      ensures |questions| == 0 ==> gameState.currentQuestion == old(gameState.currentQuestion)
    {
      if |questions| > 0 {
        var randomIndex :| 0 <= randomIndex < |questions|;
        gameState.currentQuestion := Some(questions[randomIndex]);
      }
    }
  }
}
