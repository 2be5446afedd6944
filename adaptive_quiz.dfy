/** The adaptive practice game: ten points per right answer, a streak of right
    answers, a difficulty that rises after two right answers in a row and drops
    after a wrong one, and the walk from question to question. */
module AdaptiveQuiz {
  datatype Stage = Start | Playing | Result
  datatype Difficulty = Easy | Medium | Hard

  /** The game's fields at one moment. */
  datatype Game = Game(stage: Stage, current: nat, score: int, difficulty: Difficulty, streak: nat)

  const Initial := Game(Start, 0, 0, Medium, 0)

  /** The scoring half of `handleAnswer`. */
  function Scored(g: Game, correct: bool): Game {
    if correct then g.(score := g.score + 10, streak := g.streak + 1,
                       difficulty := if g.streak >= 1 then Hard else g.difficulty)
    else g.(streak := 0, difficulty := Easy)
  }

  /** The step half: the next question, or the result screen after the last one. */
  function Advanced(g: Game, count: nat): Game {
    if g.current + 1 < count then g.(current := g.current + 1) else g.(stage := Result)
  }

  /** `handleAnswer` once its timeout has fired. With no questions nothing happens. */
  function Answered(g: Game, correct: bool, count: nat): Game {
    if count == 0 then g else Advanced(Scored(g, correct), count)
  }

  /** An answer is right when the chosen option (none when the index is out of
      range) is the question's correct string. */
  predicate IsCorrect(options: seq<string>, index: int, correct: string) {
    0 <= index < |options| && options[index] == correct
  }

  /** Answers in order, right (true) or wrong (false). */
  function Play(g: Game, outcomes: seq<bool>, count: nat): Game
    decreases |outcomes|
  {
    if outcomes == [] then g else Play(Answered(g, outcomes[0], count), outcomes[1..], count)
  }

  function CountRight(outcomes: seq<bool>): nat
    decreases |outcomes|
  {
    if outcomes == [] then 0 else (if outcomes[0] then 1 else 0) + CountRight(outcomes[1..])
  }

  /** The right answers at the end of the run. */
  function TrailingRight(outcomes: seq<bool>): nat
    decreases |outcomes|
  {
    if outcomes == [] || !outcomes[|outcomes| - 1] then 0
    else 1 + TrailingRight(outcomes[..|outcomes| - 1])
  }

  lemma PlayLast(g: Game, outcomes: seq<bool>, count: nat)
    requires outcomes != []
    ensures Play(g, outcomes, count) ==
              Answered(Play(g, outcomes[..|outcomes| - 1], count), outcomes[|outcomes| - 1], count)
    decreases |outcomes|
  {
    if |outcomes| > 1 {
      PlayLast(Answered(g, outcomes[0], count), outcomes[1..], count);
      assert outcomes[1..][..|outcomes[1..]| - 1] == outcomes[..|outcomes| - 1][1..];
    }
  }

  lemma {:induction false} CountRightLast(outcomes: seq<bool>)
    requires outcomes != []
    ensures CountRight(outcomes) == CountRight(outcomes[..|outcomes| - 1]) + (if outcomes[|outcomes| - 1] then 1 else 0)
    decreases |outcomes|
  {
    if |outcomes| > 1 {
      CountRightLast(outcomes[1..]);
      assert outcomes[1..][..|outcomes[1..]| - 1] == outcomes[..|outcomes| - 1][1..];
    }
  }

  /** Over a run with questions loaded, the score grows by ten per right answer,
      and the streak counts the right answers since the last wrong one (added to
      the streak carried in when there was none). */
  lemma {:induction false} PlayScoreAndStreak(g: Game, outcomes: seq<bool>, count: nat)
    requires count > 0
    ensures Play(g, outcomes, count).score == g.score + 10 * CountRight(outcomes)
    ensures Play(g, outcomes, count).streak ==
              if TrailingRight(outcomes) == |outcomes| then g.streak + |outcomes| else TrailingRight(outcomes)
    decreases |outcomes|
  {
    if outcomes != [] {
      var init := outcomes[..|outcomes| - 1];
      PlayScoreAndStreak(g, init, count);
      PlayLast(g, outcomes, count);
      CountRightLast(outcomes);
    }
  }

  /** After a wrong answer the game is easy; after two right answers in a row it is
      hard; after a single right answer it keeps the difficulty it had. */
  lemma PlayDifficulty(g: Game, outcomes: seq<bool>, count: nat)
    requires count > 0 && outcomes != []
    ensures !outcomes[|outcomes| - 1] ==> Play(g, outcomes, count).difficulty == Easy
    ensures |outcomes| >= 2 && outcomes[|outcomes| - 2] && outcomes[|outcomes| - 1] ==>
              Play(g, outcomes, count).difficulty == Hard
    ensures outcomes[|outcomes| - 1] && Play(g, outcomes[..|outcomes| - 1], count).streak == 0 ==>
              Play(g, outcomes, count).difficulty == Play(g, outcomes[..|outcomes| - 1], count).difficulty
  {
    var init := outcomes[..|outcomes| - 1];
    PlayLast(g, outcomes, count);
    if |outcomes| >= 2 && outcomes[|outcomes| - 2] {
      PlayLast(g, init, count);
      assert init[..|init| - 1] == outcomes[..|outcomes| - 2];
    }
  }

  /** From the first question, answering k < n of n questions shows question k;
      answering all n shows the result. */
  lemma {:induction false} PlayProgress(g: Game, outcomes: seq<bool>, count: nat)
    requires g.stage == Playing && g.current == 0 && 0 < |outcomes| <= count
    ensures |outcomes| < count ==> Play(g, outcomes, count).current == |outcomes|
                                    && Play(g, outcomes, count).stage == Playing
    ensures |outcomes| == count ==> Play(g, outcomes, count).stage == Result
                                     && Play(g, outcomes, count).current == count - 1
    decreases |outcomes|
  {
    PlayLast(g, outcomes, count);
    if |outcomes| > 1 {
      PlayProgress(g, outcomes[..|outcomes| - 1], count);
    }
  }

  /** A question as `/api/quiz/start` returns it: its options and the correct one. */
  datatype Question = Question(text: string, options: seq<string>, correct: string)

  class AdaptiveGame {
    var stage: Stage
    var currentQuestion: nat
    var score: int
    var difficulty: Difficulty
    var streak: nat
    var questions: seq<Question>

    function State(): Game
      reads this
    {
      Game(stage, currentQuestion, score, difficulty, streak)
    }

    /** The question shown exists whenever questions are loaded. */
    predicate Valid()
      reads this
    {
      if questions == [] then currentQuestion == 0 else currentQuestion < |questions|
    }

    constructor ()
      ensures State() == Initial && questions == [] && Valid()
    {
      stage := Start;
      currentQuestion := 0;
      score := 0;
      difficulty := Medium;
      streak := 0;
      questions := [];
    }

    /** The mount effect's fetch arrived. */
    method QuestionsLoaded(qs: seq<Question>)
      requires Valid() && questions == []
      modifies this
      ensures Valid() && questions == qs && State() == old(State())
    {
      questions := qs;
    }

    /** The start button. */
    method Begin()
      modifies this
      ensures State() == old(State()).(stage := Playing) && questions == old(questions)
      ensures Valid() == old(Valid())
    {
      stage := Playing;
    }

    /** `handleAnswer(index)`, with the delayed step applied. */
    method HandleAnswer(index: int)
      requires Valid()
      modifies this
      ensures Valid() && questions == old(questions)
      ensures questions == [] ==> State() == old(State())
      ensures questions != [] ==>
                State() == Answered(old(State()),
                                    IsCorrect(questions[old(currentQuestion)].options, index,
                                              questions[old(currentQuestion)].correct),
                                    |questions|)
    {
      if |questions| == 0 {
        return;
      }
      var q := questions[currentQuestion];
      var correct := 0 <= index < |q.options| && q.options[index] == q.correct;
      if correct {
        score := score + 10;
        if streak >= 1 {
          difficulty := Hard;
        }
        streak := streak + 1;
      } else {
        streak := 0;
        difficulty := Easy;
      }
      if currentQuestion < |questions| - 1 {
        currentQuestion := currentQuestion + 1;
      } else {
        stage := Result;
      }
    }

    /** "Play again": back to the start screen and the first question with no
        score; the streak and difficulty stay as they were. */
    method PlayAgain()
      requires Valid()
      modifies this
      ensures State() == old(State()).(stage := Start, current := 0, score := 0)
      ensures questions == old(questions) && Valid()
    {
      stage := Start;
      currentQuestion := 0;
      score := 0;
    }
  }
}
