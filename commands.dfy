/**
 * The operator's command set as data, and what a sequence of commands does to
 * the game state. This is where the properties of whole sessions live: the
 * invariant holds in every reachable state, the round points are the sum of
 * the points revealed since the last reset, and scores stay non-negative as
 * long as the multipliers and the question points are.
 */
module Commands {
  import opened Optional
  import opened GameModels
  import QuestionBank
  import E = RoundEngine

  /** One operator command; a command that loads a question carries the drawn question. */
  datatype Command =
    | InitializeTeams
    | SetTeamNames(team1Name: string, team2Name: string)
    | SetRoundSettings(multiplier: int, mode: GameMode)
    | StartNewGame(question: Question)
    | StartRound
    | NextRound(question: Question)
    | NextQuestion(question: Question)
    | RevealAnswer(index: int)
    | RevealAnswerWithoutPoints(index: int)
    | AwardRoundPoints(teamId: int)
    | AddError(teamId: int)
    | RemoveError(teamId: int)
    | SetTeamScore(teamId: int, score: int)

  /** The state after one command; every command keeps the invariant. */
  function Apply(s: Snapshot, c: Command): (r: Snapshot)
    requires E.Inv(s)
    ensures E.Inv(r)
  {
    match c
    case InitializeTeams => E.InitializeTeams(s)
    case SetTeamNames(n1, n2) => E.SetTeamNames(s, n1, n2)
    case SetRoundSettings(m, mode) => E.SetRoundSettings(s, m, mode)
    case StartNewGame(q) => E.StartNewGame(s, q)
    case StartRound => E.StartRound(s)
    case NextRound(q) => E.NextRound(s, q)
    case NextQuestion(q) => E.NextQuestion(s, q)
    case RevealAnswer(i) => E.RevealAnswer(s, i)
    case RevealAnswerWithoutPoints(i) => E.RevealAnswerWithoutPoints(s, i)
    case AwardRoundPoints(id) => E.AwardRoundPoints(s, id)
    case AddError(id) => E.AddError(s, id)
    case RemoveError(id) => E.RemoveError(s, id)
    case SetTeamScore(id, v) => E.SetTeamScore(s, id, v)
  }

  /** The state after a sequence of commands; the invariant holds in every reachable state. */
  function Run(s: Snapshot, cs: seq<Command>): (r: Snapshot)
    requires E.Inv(s)
    ensures E.Inv(r)
    decreases |cs|
  {
    if cs == [] then s else Apply(Run(s, cs[..|cs| - 1]), cs[|cs| - 1])
  }

  /** A command that sets the round points back to 0 when applied in state s. */
  predicate ResetsRoundPoints(s: Snapshot, c: Command)
  {
    || c.StartNewGame?
    || (c.NextRound? && s.currentRound < E.MaxRound)
    || (c.AwardRoundPoints? && E.FindTeam(s.teams, c.teamId).Some?)
  }

  /** The points a command credits to the round in state s: those of an answer newly revealed with points. */
  function Credit(s: Snapshot, c: Command): seq<int>
  {
    if c.RevealAnswer? && E.CanReveal(s, c.index) then [E.PointsOf(s, c.index)] else []
  }

  /** The points credited since the last reset, in the order of the reveals. */
  function Tally(s: Snapshot, cs: seq<Command>): seq<int>
    requires E.Inv(s)
    decreases |cs|
  {
    if cs == [] then []
    else
      var before := Run(s, cs[..|cs| - 1]);
      var c := cs[|cs| - 1];
      if ResetsRoundPoints(before, c) then [] else Tally(s, cs[..|cs| - 1]) + Credit(before, c)
  }

  function Sum(xs: seq<int>): int
  {
    if xs == [] then 0 else Sum(xs[..|xs| - 1]) + xs[|xs| - 1]
  }

  lemma SumAppend(xs: seq<int>, ys: seq<int>)
    requires |ys| <= 1
    ensures Sum(xs + ys) == Sum(xs) + Sum(ys)
  {
    if ys != [] {
      var zs := xs + ys;
      assert zs[..|zs| - 1] == xs && zs[|zs| - 1] == ys[0];
      assert Sum(zs) == Sum(xs) + ys[0];
      assert ys[..0] == [];
      assert Sum(ys) == Sum(ys[..0]) + ys[0];
    } else {
      assert xs + ys == xs;
    }
  }

  /**
   * A single command's effect on the round points: a reset sets them to 0, an
   * answer newly revealed with points adds its points, everything else keeps them.
   */
  lemma ApplyRoundPoints(s: Snapshot, c: Command)
    requires E.Inv(s)
    ensures Apply(s, c).roundPoints ==
      if ResetsRoundPoints(s, c) then 0 else s.roundPoints + Sum(Credit(s, c))
  {
    if c.RevealAnswer? && E.CanReveal(s, c.index) {
      assert Sum(Credit(s, c)) == E.PointsOf(s, c.index) by {
        assert Credit(s, c)[..0] == [];
      }
    }
  }

  /** From zero round points, the round points are the sum of the points revealed with points since the last reset. */
  lemma {:induction false} RoundPointsAreTally(s: Snapshot, cs: seq<Command>)
    requires E.Inv(s) && s.roundPoints == 0
    ensures Run(s, cs).roundPoints == Sum(Tally(s, cs))
    decreases |cs|
  {
    if cs != [] {
      var init := cs[..|cs| - 1];
      var before := Run(s, init);
      var c := cs[|cs| - 1];
      RoundPointsAreTally(s, init);
      ApplyRoundPoints(before, c);
      if !ResetsRoundPoints(before, c) {
        SumAppend(Tally(s, init), Credit(before, c));
      }
    }
  }

  /** Scores, round points and the multiplier are in the ranges the game intends. */
  predicate Sound(s: Snapshot)
  {
    && (forall k :: 0 <= k < |s.teams| ==> s.teams[k].score >= 0)
    && s.roundPoints >= 0
    && s.roundMultiplier >= 0
    && (s.currentQuestion.Some? ==> QuestionBank.PointsNonNegative(s.currentQuestion.value))
  }

  /** The inputs the game leaves unchecked are sensible: a non-negative multiplier, questions of the bank. */
  predicate Admissible(c: Command, bank: seq<Question>)
  {
    match c
    case SetRoundSettings(m, _) => m >= 0
    case StartNewGame(q) => q in bank
    case NextRound(q) => q in bank
    case NextQuestion(q) => q in bank
    case _ => true
  }

  /** One admissible command keeps the state sound. */
  lemma ApplyKeepsSound(s: Snapshot, c: Command, bank: seq<Question>)
    requires E.Inv(s) && Sound(s)
    requires QuestionBank.BankPointsNonNegative(bank) && Admissible(c, bank)
    ensures Sound(Apply(s, c))
  {
    match c
    case RevealAnswer(i) =>
      if E.CanReveal(s, i) {
        assert s.currentQuestion.value.answers[i] in s.currentQuestion.value.answers;
      }
    case AwardRoundPoints(id) =>
      assert s.roundPoints * s.roundMultiplier >= 0;
    case _ =>
  }

  /** Under admissible commands only, no score and no round-points tally is ever negative. */
  lemma {:induction false} RunKeepsSound(s: Snapshot, cs: seq<Command>, bank: seq<Question>)
    requires E.Inv(s) && Sound(s)
    requires QuestionBank.BankPointsNonNegative(bank)
    requires forall i :: 0 <= i < |cs| ==> Admissible(cs[i], bank)
    ensures Sound(Run(s, cs))
    decreases |cs|
  {
    if cs != [] {
      var init := cs[..|cs| - 1];
      RunKeepsSound(s, init, bank);
      ApplyKeepsSound(Run(s, init), cs[|cs| - 1], bank);
    }
  }

  /** Without the multiplier check the score can go negative: one award at multiplier -1 does it. */
  lemma NegativeMultiplierMakesNegativeScore(s: Snapshot)
    requires E.Inv(s) && s.roundPoints == 10 && s.teams[0].score == 0
    ensures Apply(Apply(s, SetRoundSettings(-1, Normal)), AwardRoundPoints(1)).teams[0].score == -10
  {
    var a := Apply(s, SetRoundSettings(-1, Normal));
    E.FindTeamUnderInv(a, 1);
  }

  /**
   * A whole session: a new game, one reveal with points, an award to team 1,
   * the next round.
   */
  lemma EndToEndScenario(s: Snapshot, q1: Question, q2: Question)
    requires E.Inv(s) && |q1.answers| > 0
    ensures var r := Apply(Apply(Apply(Apply(s, StartNewGame(q1)), RevealAnswer(0)), AwardRoundPoints(1)), NextRound(q2));
      && r.currentRound == 2
      && r.teams[0].score == q1.answers[0].points
      && r.teams[1].score == 0
      && r.revealedAnswers == []
      && r.roundPoints == 0
      && r.currentQuestion == Some(q2)
  {
    var s1 := E.StartNewGame(s, q1);
    assert s1.teams[0].score == 0 && s1.teams[1].score == 0;
    assert E.CanReveal(s1, 0);
    var s2 := E.RevealAnswer(s1, 0);
    assert s2.roundPoints == q1.answers[0].points && s2.roundMultiplier == 1 && s2.teams == s1.teams;
    E.FindTeamUnderInv(s2, 1);
    E.AwardRoundPointsAt(s2, 1, 0);
    var s3 := E.AwardRoundPoints(s2, 1);
    assert s3.teams == s2.teams[0 := s2.teams[0].(score := q1.answers[0].points)];
    assert s3.currentRound == 1 && s3.roundPoints == 0;
  }

  /** Within a game the round never goes back: only StartNewGame sets it to 1 again. */
  lemma RoundNeverDecreases(s: Snapshot, c: Command)
    requires E.Inv(s) && !c.StartNewGame?
    ensures Apply(s, c).currentRound >= s.currentRound
  {
  }

  /** The service's first state: round 1, teams 1 and 2, nothing revealed; it meets the invariant and is sound. */
  lemma InitialStateIsSound()
    ensures var s := E.InitializeTeams(Snapshot([], 1, None, 1, false, false, [], Normal, 0));
      E.Inv(s) && Sound(s)
  {
  }
}
