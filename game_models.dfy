/**
 * The data model of the game (Models/GameModels.cs): the mutable `Team` and
 * `GameState` objects the service updates in place, the immutable question
 * data, and the value views (`TeamRecord`, `Snapshot`) that the command
 * specifications of module RoundEngine are stated over.
 */
module GameModels {
  import opened Optional

  /** The scoring mode of a round; the enum declares exactly these two. */
  datatype GameMode = Normal | RareAnswer

  /** One answer of a question with the points it is worth. */
  datatype Answer = Answer(text: string, points: int)

  /**
   * A question with its ranked answers. The service never changes a question
   * after loading it, so a question is a value here.
   */
  datatype Question = Question(text: string, answers: seq<Answer>)

  /** The value of one team at one moment. */
  datatype TeamRecord = TeamRecord(id: int, name: string, score: int, errors: int)

  /** The value of the whole game state at one moment (what a viewer is sent). */
  datatype Snapshot = Snapshot(
    teams: seq<TeamRecord>,
    currentRound: int,
    currentQuestion: Option<Question>,
    roundMultiplier: int,
    isGameActive: bool,
    isRoundActive: bool,
    revealedAnswers: seq<int>,
    currentMode: GameMode,
    roundPoints: int)

  /** A team; the service changes its name, score and errors in place. */
  class Team {
    var id: int
    var name: string
    var score: int
    var errors: int

    /** A fresh team: id 0, empty name, no score and no errors. */
    constructor ()
      ensures id == 0 && name == "" && score == 0 && errors == 0
    {
      id, name, score, errors := 0, "", 0, 0;
    }

    function Record(): TeamRecord
      reads this
    {
      TeamRecord(id, name, score, errors)
    }
  }

  /** The current values of a sequence of teams. */
  function Records(teams: seq<Team>): (r: seq<TeamRecord>)
    reads teams
    ensures |r| == |teams|
    ensures forall k :: 0 <= k < |teams| ==> r[k] == teams[k].Record()
  {
    if teams == [] then [] else [teams[0].Record()] + Records(teams[1..])
  }

  /** No team object occurs twice. */
  ghost predicate Distinct(teams: seq<Team>)
  {
    forall a, b :: 0 <= a < b < |teams| ==> teams[a] != teams[b]
  }

  /** The single game state the service owns and updates in place. */
  class GameState {
    var teams: seq<Team>
    var currentRound: int
    var currentQuestion: Option<Question>
    var roundMultiplier: int
    var isGameActive: bool
    var isRoundActive: bool
    var revealedAnswers: seq<int>
    var currentMode: GameMode
    var roundPoints: int

    /** The default values of a new game state. */
    constructor ()
      ensures teams == []
      ensures currentRound == 1 && roundMultiplier == 1
      ensures currentQuestion == None && !isGameActive && !isRoundActive
      ensures revealedAnswers == [] && currentMode == Normal && roundPoints == 0
    {
      teams := [];
      currentRound := 1;
      currentQuestion := None;
      roundMultiplier := 1;
      isGameActive := false;
      isRoundActive := false;
      revealedAnswers := [];
      currentMode := Normal;
      roundPoints := 0;
    }

    /** The current value of this state, teams included. */
    function View(): Snapshot
      reads this, teams
    {
      Snapshot(Records(teams), currentRound, currentQuestion, roundMultiplier,
               isGameActive, isRoundActive, revealedAnswers, currentMode, roundPoints)
    }
  }

  /** The enum declares exactly two modes, and they differ. */
  lemma GameModeHasTwoValues(m: GameMode)
    ensures m == Normal || m == RareAnswer
    ensures Normal != RareAnswer
  {
  }
}
