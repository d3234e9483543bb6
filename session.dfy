/** The quiz session state machine of the Quiz component: a pool of questions
    becomes a play order, and the player answers one question per round until
    a wrong answer loses the session or the last round is passed.

    Each handler of the component is a method of `QuizSession` that changes the
    component's state fields one after another. The auto-advance timer is the
    flag `timerPending`. Its firing is a call to `HandleNext`, allowed only while
    the flag is set. */
module Session {
  import opened Order

  datatype Option<T> = None | Some(value: T)

  /** One multiple-choice question as loaded from a stage's question file. */
  datatype Question = Question(prompt: string, options: seq<string>, correctIndex: int)

  /** The outcome of loading a stage's question file. Either the fetch or
      the JSON parse threw, or the parsed value is not an array, or it is an
      array of questions (possibly empty). */
  datatype LoadResult = Threw | NotAnArray | AnArray(items: seq<Question>)

  /** The pool a load result yields. Only a non-empty array is taken; any
      other result gives the empty pool. */
  function AcceptPool(result: LoadResult): (pool: seq<Question>)
    ensures pool != [] <==> result.AnArray? && result.items != []
    ensures result.AnArray? ==> pool == result.items
  {
    if result.AnArray? && |result.items| > 0 then result.items else []
  }

  class QuizSession {
    var questions: seq<Question>
    var order: seq<nat>
    var round: nat
    var currentIndex: nat
    var selectedIndex: Option<int>
    var showAnswer: bool
    var score: nat
    var isLost: bool
    /** The stage: 1 or 2. */
    var roundNumber: nat
    /** An auto-advance timer is scheduled and has not fired or been cleared. */
    var timerPending: bool

    /** Rounds of the current session. */
    function Total(): nat
      reads this
    {
      TotalRounds(|questions|)
    }

    predicate IsFinished()
      reads this
    {
      round >= Total()
    }

    /** What the component's state always satisfies between two events. */
    ghost predicate Valid()
      reads this
    {
      && (roundNumber == 1 || roundNumber == 2)
      // the play order: distinct pool indices, one per round
      && |order| == Total()
      && Distinct(order) && Below(order, |questions|)
      && round <= |order|
      // the question shown is the current round's (or the last one once finished)
      && currentIndex == (if round < |order| then order[round]
                          else if order == [] then 0 else order[|order| - 1])
      // every round passed was answered correctly, and the current one too
      // while its correct answer is on display
      && score == (if showAnswer && !isLost && round < |order| then round + 1 else round)
      && (isLost ==> showAnswer && round < |order|)
      // a timer is only pending over a revealed correct answer
      && (timerPending ==> showAnswer && !isLost && round < |order|)
    }

    /** The question of the current round: the pool entry the play order
        names for that round. */
    function CurrentQuestion(): (q: Question)
      reads this
      requires Valid() && !IsFinished()
      ensures q == questions[order[round]] && q in questions
    {
      questions[currentIndex]
    }

    /** The component's initial state, before its first load completes. */
    constructor ()
      ensures Valid()
      ensures questions == [] && order == [] && round == 0 && currentIndex == 0
      ensures selectedIndex == None && !showAnswer && score == 0 && !isLost
      ensures roundNumber == 1 && !timerPending
    {
      questions := [];
      order := [];
      round := 0;
      currentIndex := 0;
      selectedIndex := None;
      showAnswer := false;
      score := 0;
      isLost := false;
      roundNumber := 1;
      timerPending := false;
    }

    /** A fresh session over `questions`: the shuffled play order and the
        reset per-session fields. Both callers pass the pool that is stored
        in `questions`. */
    method BuildOrder(draws: seq<nat>)
      requires roundNumber == 1 || roundNumber == 2
      requires !timerPending
      requires ValidDraws(draws, |questions|)
      modifies this
      ensures questions == old(questions) && roundNumber == old(roundNumber)
      ensures timerPending == old(timerPending)
      ensures Valid()
      ensures order == PlayOrder(|questions|, draws)
      ensures round == 0 && currentIndex == (if order == [] then 0 else order[0])
      ensures selectedIndex == None && !showAnswer && score == 0 && !isLost
    {
      var poolLength := |questions|;
      var totalRounds := TotalRounds(poolLength);
      var indices := ShuffleIndices(poolLength, draws);
      var nextOrder := indices[..totalRounds];
      order := nextOrder;
      round := 0;
      currentIndex := if nextOrder == [] then 0 else nextOrder[0];
      selectedIndex := None;
      showAnswer := false;
      score := 0;
      isLost := false;
    }

    /** A load of the current stage's questions completed: the accepted pool
        becomes `questions` and a session is built on it. Loads start only on
        mount or after a stage change, both with no timer pending, and the
        loading screen takes no input. */
    method LoadCompleted(result: LoadResult, draws: seq<nat>)
      requires Valid() && !timerPending
      requires ValidDraws(draws, |AcceptPool(result)|)
      modifies this
      ensures Valid()
      ensures questions == AcceptPool(result)
      ensures order == PlayOrder(|questions|, draws)
      ensures round == 0 && currentIndex == (if order == [] then 0 else order[0])
      ensures selectedIndex == None && !showAnswer && score == 0 && !isLost
      ensures roundNumber == old(roundNumber) && !timerPending
      ensures !(result.AnArray? && result.items != []) ==> Total() == 0 && IsFinished()
    {
      var pool := AcceptPool(result);
      questions := pool;
      BuildOrder(draws);
    }

    /** The player picks option `index` of the current question. Nothing
        happens once the answer is revealed. A correct pick scores one point
        and schedules the auto-advance; a wrong pick loses the session. */
    method HandleSelect(index: int)
      requires Valid() && !IsFinished()
      modifies this
      ensures Valid()
      ensures old(showAnswer) ==>
        && selectedIndex == old(selectedIndex) && showAnswer && score == old(score)
        && isLost == old(isLost) && timerPending == old(timerPending)
      ensures !old(showAnswer) && index == old(CurrentQuestion()).correctIndex ==>
        && selectedIndex == Some(index) && showAnswer && score == old(score) + 1
        && !isLost && timerPending
      ensures !old(showAnswer) && index != old(CurrentQuestion()).correctIndex ==>
        && selectedIndex == Some(index) && showAnswer && score == old(score)
        && isLost && !timerPending
      ensures questions == old(questions) && order == old(order) && round == old(round)
      ensures currentIndex == old(currentIndex) && roundNumber == old(roundNumber)
    {
      if showAnswer {
        return;
      }
      var question := questions[currentIndex];
      selectedIndex := Some(index);
      var isCorrect := index == question.correctIndex;
      if isCorrect {
        score := score + 1;
        showAnswer := true;
        // any earlier timer is cleared before the new one is scheduled
        timerPending := false;
        timerPending := true;
      } else {
        isLost := true;
        showAnswer := true;
      }
    }

    /** The auto-advance timer fires: clear it and move to the next round,
        or past the last round, which finishes the session. */
    method HandleNext()
      requires Valid() && timerPending
      modifies this
      ensures Valid()
      ensures !timerPending
      ensures round == old(round) + 1
      ensures round < Total() ==>
        currentIndex == order[round] && selectedIndex == None && !showAnswer
      ensures round >= Total() ==>
        && round == Total() && IsFinished()
        && currentIndex == old(currentIndex) && selectedIndex == old(selectedIndex)
        && showAnswer == old(showAnswer)
      ensures questions == old(questions) && order == old(order) && score == old(score)
      ensures isLost == old(isLost) && roundNumber == old(roundNumber)
    {
      if timerPending {
        timerPending := false;
      }
      var nextRound := round + 1;
      if nextRound < Total() {
        round := nextRound;
        currentIndex := order[nextRound];
        selectedIndex := None;
        showAnswer := false;
      } else {
        round := nextRound;
      }
    }

    /** "New game": clear the timer, go back to stage 1 and build a fresh
        session on the questions already loaded. */
    method HandleRestart(draws: seq<nat>)
      requires Valid()
      requires ValidDraws(draws, |questions|)
      modifies this
      ensures questions == old(questions)
      ensures Valid()
      ensures !timerPending && roundNumber == 1
      ensures order == PlayOrder(|questions|, draws)
      ensures round == 0 && currentIndex == (if order == [] then 0 else order[0])
      ensures selectedIndex == None && !showAnswer && score == 0 && !isLost
    {
      if timerPending {
        timerPending := false;
      }
      roundNumber := 1;
      BuildOrder(draws);
    }

    /** "Next stage": clear the timer and switch to stage 2. The session
        itself is replaced only when the stage-2 load completes. The button
        is shown only on the finished screen of stage 1. */
    method HandleNextRound()
      requires Valid() && IsFinished() && roundNumber == 1
      modifies this
      ensures Valid()
      ensures !timerPending && roundNumber == 2
      ensures questions == old(questions) && order == old(order) && round == old(round)
      ensures currentIndex == old(currentIndex) && selectedIndex == old(selectedIndex)
      ensures showAnswer == old(showAnswer) && score == old(score) && isLost == old(isLost)
    {
      // clearing the timer: on the finished screen none is pending
      timerPending := false;
      roundNumber := 2;
    }

    /** Unmount: the pending timer, if any, is cleared; nothing else changes. */
    method Dispose()
      requires Valid()
      modifies this
      ensures Valid()
      ensures !timerPending
      ensures questions == old(questions) && order == old(order) && round == old(round)
      ensures currentIndex == old(currentIndex) && selectedIndex == old(selectedIndex)
      ensures showAnswer == old(showAnswer) && score == old(score) && isLost == old(isLost)
      ensures roundNumber == old(roundNumber)
    {
      if timerPending {
        timerPending := false;
      }
    }

    /** The score never runs ahead of the round by more than the answer on
        display, and never exceeds the number of rounds. */
    lemma ScoreBounded()
      requires Valid()
      ensures score <= round + 1 && score <= Total()
    {
    }

    /** A finished session was won: every round answered correctly. */
    lemma FinishedIsPerfect()
      requires Valid() && IsFinished()
      ensures score == Total() && !isLost && !timerPending
    {
    }

    /** After a wrong answer no selection and no timer can change the session:
        the answer stays revealed and no advance is scheduled. */
    lemma LostIsTerminal()
      requires Valid() && isLost
      ensures showAnswer && !timerPending && !IsFinished()
    {
    }
  }
}
