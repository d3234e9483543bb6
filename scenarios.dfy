/** Whole sessions driven through the handlers of `QuizSession`, as the
    player and the auto-advance timer would drive them. Each method builds
    its own component, so the outcomes follow from the handlers' contracts
    alone. */
module Scenarios {
  import opened Order
  import opened Session

  /** Every question offers at least two options and names one of them as
      correct, so a wrong option exists and every pick is an option index. */
  ghost predicate TwoOptionsEach(pool: seq<Question>) {
    forall q | q in pool :: 2 <= |q.options| && 0 <= q.correctIndex < |q.options|
  }

  /** The player picks the correct option of every question, and every
      auto-advance fires, until the session is finished. */
  method PlayToEnd(quiz: QuizSession)
    requires quiz.Valid() && !quiz.timerPending && !quiz.showAnswer
    modifies quiz
    ensures quiz.Valid() && quiz.IsFinished() && !quiz.timerPending
    ensures quiz.questions == old(quiz.questions) && quiz.roundNumber == old(quiz.roundNumber)
  {
    while !quiz.IsFinished()
      invariant quiz.Valid() && !quiz.timerPending
      invariant !quiz.IsFinished() ==> !quiz.showAnswer
      invariant quiz.questions == old(quiz.questions)
      invariant quiz.roundNumber == old(quiz.roundNumber)
      decreases quiz.Total() - quiz.round
    {
      quiz.HandleSelect(quiz.CurrentQuestion().correctIndex);
      quiz.HandleNext();
    }
  }

  /** A player who always picks the correct option, with every auto-advance
      firing, finishes the session with a full score: score == total. */
  method PlayPerfectly(result: LoadResult, draws: seq<nat>)
    returns (finished: bool, lost: bool, score: nat, total: nat)
    requires ValidDraws(draws, |AcceptPool(result)|)
    ensures finished && !lost
    ensures total == TotalRounds(|AcceptPool(result)|)
    ensures score == total
  {
    var quiz := new QuizSession();
    quiz.LoadCompleted(result, draws);
    PlayToEnd(quiz);
    quiz.FinishedIsPerfect();
    finished, lost, score, total := quiz.IsFinished(), quiz.isLost, quiz.score, quiz.Total();
  }

  /** Three questions: three rounds, and three correct answers finish the
      session with 3 out of 3. */
  method ThreeQuestionsAllCorrect(pool: seq<Question>, draws: seq<nat>)
    returns (finished: bool, score: nat, total: nat)
    requires |pool| == 3 && ValidDraws(draws, 3)
    ensures finished && score == 3 && total == 3
  {
    var lost;
    finished, lost, score, total := PlayPerfectly(AnArray(pool), draws);
  }

  /** Twelve questions: ten rounds. A correct first answer and a wrong
      second answer, an option index other than the correct one, lose the
      session with one point, before it finishes. */
  method CorrectThenWrong(pool: seq<Question>, draws: seq<nat>)
    returns (wrongPick: int, finished: bool, lost: bool, score: nat, total: nat)
    requires |pool| == 12 && ValidDraws(draws, 12) && TwoOptionsEach(pool)
    ensures lost && !finished && score == 1 && total == 10
    ensures wrongPick == 0 || wrongPick == 1
  {
    var quiz := new QuizSession();
    quiz.LoadCompleted(AnArray(pool), draws);
    quiz.HandleSelect(quiz.CurrentQuestion().correctIndex);
    quiz.HandleNext();
    var correct := quiz.CurrentQuestion().correctIndex;
    wrongPick := if correct == 0 then 1 else 0;
    assert wrongPick < |quiz.CurrentQuestion().options|;
    quiz.HandleSelect(wrongPick);
    finished, lost, score, total := quiz.IsFinished(), quiz.isLost, quiz.score, quiz.Total();
  }

  /** A second selection while the answer is on display changes nothing:
      the score rises once, and one auto-advance stays scheduled. */
  method SelectTwice(pool: seq<Question>, draws: seq<nat>, second: int)
    returns (score: nat, timerPending: bool, lost: bool)
    requires |pool| > 0 && ValidDraws(draws, |pool|)
    ensures score == 1 && timerPending && !lost
  {
    var quiz := new QuizSession();
    quiz.LoadCompleted(AnArray(pool), draws);
    quiz.HandleSelect(quiz.CurrentQuestion().correctIndex);
    quiz.HandleSelect(second);
    score, timerPending, lost := quiz.score, quiz.timerPending, quiz.isLost;
  }

  /** A load that fails, or yields anything but a non-empty array, gives a
      session with no rounds that is finished at once with no points. */
  method EmptyPool(result: LoadResult)
    returns (finished: bool, score: nat, total: nat)
    requires !(result.AnArray? && result.items != [])
    ensures finished && score == 0 && total == 0
  {
    var quiz := new QuizSession();
    quiz.LoadCompleted(result, []);
    finished, score, total := quiz.IsFinished(), quiz.score, quiz.Total();
  }

  /** Stage 1 played to the end with a full score, then "next stage", then
      a stage-2 load that fails: stage 2 with a fresh, empty session, finished
      at once with no points. */
  method NextStageWithFailedLoad(stage1: LoadResult, draws: seq<nat>, stage2: LoadResult)
    returns (score1: nat, total1: nat,
             stage: nat, finished: bool, score: nat, total: nat, round: nat)
    requires ValidDraws(draws, |AcceptPool(stage1)|)
    requires !(stage2.AnArray? && stage2.items != [])
    ensures total1 == TotalRounds(|AcceptPool(stage1)|) && score1 == total1
    ensures stage == 2 && finished && score == 0 && total == 0 && round == 0
  {
    var quiz := new QuizSession();
    quiz.LoadCompleted(stage1, draws);
    PlayToEnd(quiz);
    quiz.FinishedIsPerfect();
    score1, total1 := quiz.score, quiz.Total();
    quiz.HandleNextRound();
    quiz.LoadCompleted(stage2, []);
    stage, finished, score, total, round :=
      quiz.roundNumber, quiz.IsFinished(), quiz.score, quiz.Total(), quiz.round;
  }

  /** Stage 1 won, "next stage", and then "new game" from stage 2, whatever
      state the stage-2 session is in: back to stage 1 with a fresh session
      on the questions already loaded. */
  method RestartFromStageTwo(stage1: LoadResult, draws1: seq<nat>,
                             stage2: LoadResult, draws2: seq<nat>, restartDraws: seq<nat>)
    returns (stage: nat, round: nat, score: nat, lost: bool, timerPending: bool)
    requires ValidDraws(draws1, |AcceptPool(stage1)|)
    requires ValidDraws(draws2, |AcceptPool(stage2)|)
    requires ValidDraws(restartDraws, |AcceptPool(stage2)|)
    ensures stage == 1 && round == 0 && score == 0 && !lost && !timerPending
  {
    var quiz := new QuizSession();
    quiz.LoadCompleted(stage1, draws1);
    PlayToEnd(quiz);
    quiz.HandleNextRound();
    quiz.LoadCompleted(stage2, draws2);
    if !quiz.IsFinished() {
      quiz.HandleSelect(quiz.CurrentQuestion().correctIndex);
    }
    quiz.HandleRestart(restartDraws);
    stage, round, score, lost, timerPending :=
      quiz.roundNumber, quiz.round, quiz.score, quiz.isLost, quiz.timerPending;
  }
}
