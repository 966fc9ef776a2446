/**
 * The question bank of GameService (LoadQuestions, GetDefaultQuestions): the
 * configured questions copied into the game's own Question values, or the two
 * built-in questions when the configuration holds none.
 */
module QuestionBank {
  import opened Optional
  import opened GameModels

  /** One configured answer, as the configuration binder delivers it. */
  datatype AnswerConfiguration = AnswerConfiguration(text: string, points: int)

  /** One configured question. */
  datatype QuestionConfiguration = QuestionConfiguration(text: string, answers: seq<AnswerConfiguration>)

  /** The answers are in strictly descending order of points. */
  predicate Ranked(q: Question)
  {
    forall i, j :: 0 <= i < j < |q.answers| ==> q.answers[i].points > q.answers[j].points
  }

  /** No answer of the question is worth a negative number of points. */
  predicate PointsNonNegative(q: Question)
  {
    forall a :: a in q.answers ==> a.points >= 0
  }

  /** No answer of the bank is worth a negative number of points. */
  predicate BankPointsNonNegative(bank: seq<Question>)
  {
    forall q :: q in bank ==> PointsNonNegative(q)
  }

  /** The projection of one configured question into the game's model. */
  function ToQuestion(c: QuestionConfiguration): (q: Question)
    ensures q.text == c.text && |q.answers| == |c.answers|
    ensures forall j :: 0 <= j < |c.answers| ==>
      q.answers[j].text == c.answers[j].text && q.answers[j].points == c.answers[j].points
  {
    Question(c.text, seq(|c.answers|, j requires 0 <= j < |c.answers| =>
      Answer(c.answers[j].text, c.answers[j].points)))
  }

  /** The configuration a question comes from: the inverse of ToQuestion. */
  function ToConfiguration(q: Question): QuestionConfiguration
  {
    QuestionConfiguration(q.text, seq(|q.answers|, j requires 0 <= j < |q.answers| =>
      AnswerConfiguration(q.answers[j].text, q.answers[j].points)))
  }

  /** Projecting a configured question loses nothing: text and every answer survive. */
  lemma ToQuestionLossless(c: QuestionConfiguration)
    ensures ToConfiguration(ToQuestion(c)) == c
  {
    var back := ToConfiguration(ToQuestion(c));
    assert |back.answers| == |c.answers|;
    assert forall j :: 0 <= j < |c.answers| ==> back.answers[j] == c.answers[j];
  }

  /** The built-in bank used when the configuration holds no question. */
  function DefaultQuestions(): (bank: seq<Question>)
    ensures |bank| == 2
    ensures forall q :: q in bank ==> |q.answers| == 5 && Ranked(q) && PointsNonNegative(q)
  {
    [ Question("Что делают утром после пробуждения?",
        [ Answer("Чистят зубы", 30),
          Answer("Завтракают", 25),
          Answer("Умываются", 20),
          Answer("Пьют кофе", 15),
          Answer("Делают зарядку", 10) ]),
      Question("Что можно увидеть в парке?",
        [ Answer("Деревья", 40),
          Answer("Скамейки", 30),
          Answer("Фонтан", 15),
          Answer("Детей", 10),
          Answer("Собак", 5) ]) ]
  }

  /**
   * The bank the service plays with. A missing (null) question list and an
   * empty one both fall back to the built-in bank.
   */
  function LoadQuestions(config: Option<seq<QuestionConfiguration>>): (bank: seq<Question>)
    ensures |bank| > 0
    ensures config.Some? && |config.value| > 0 ==>
      |bank| == |config.value| &&
      forall i :: 0 <= i < |bank| ==> ToConfiguration(bank[i]) == config.value[i]
    ensures !(config.Some? && |config.value| > 0) ==> bank == DefaultQuestions()
  {
    if config.Some? && |config.value| > 0 then
      var bank := seq(|config.value|, i requires 0 <= i < |config.value| => ToQuestion(config.value[i]));
      assert forall i :: 0 <= i < |bank| ==> ToConfiguration(bank[i]) == config.value[i] by {
        forall i | 0 <= i < |bank| ensures ToConfiguration(bank[i]) == config.value[i] {
          ToQuestionLossless(config.value[i]);
        }
      }
      bank
    else
      DefaultQuestions()
  }

  /** A bank loaded from configured points that are all non-negative has no negative answer. */
  lemma LoadedPointsNonNegative(config: Option<seq<QuestionConfiguration>>)
    requires config.Some? ==>
      forall c, a :: c in config.value && a in c.answers ==> a.points >= 0
    ensures BankPointsNonNegative(LoadQuestions(config))
  {
    var bank := LoadQuestions(config);
    if config.Some? && |config.value| > 0 {
      forall q | q in bank ensures PointsNonNegative(q) {
        var i :| 0 <= i < |bank| && bank[i] == q;
        var c := config.value[i];
        assert c in config.value;
        forall a | a in q.answers ensures a.points >= 0 {
          var j :| 0 <= j < |q.answers| && q.answers[j] == a;
          assert c.answers[j] in c.answers;
        }
      }
    }
  }
}
