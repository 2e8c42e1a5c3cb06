/**
 * The "Scroll Catcher" quiz game (src/app/running-quiz/components/quiz-runner-client.tsx).
 *
 * Scrolls fall while the game is playing; catching one opens its question,
 * a right answer earns 10 points, a wrong one costs 3 seconds, and the game
 * ends when the 60-second clock runs out. The React component keeps this
 * state in hooks and changes it from event handlers and timers; here it is a
 * class with one method per event. Each timer callback is an explicit event:
 * `Tick` (the one-second clock), `Spawn` (the two-second spawner and the
 * delayed spawns), `ResolveAnswer` (the 1.5-second pause after an answer) and
 * `HidePointsIndicator`. Randomness and wall-clock ids are parameters.
 */
module QuizRunner {
  import opened Wrappers

  datatype GameState = Start | Playing | Question | Result | End

  datatype QuizQuestion = QuizQuestion(question: string, options: seq<string>, answer: string)

  /** A falling scroll: `x` is its horizontal position in percent, `speed` its fall rate. */
  datatype Scroll = Scroll(id: int, x: real, speed: real, question: QuizQuestion)

  /** The answer the player gave, shown in the question dialog. */
  datatype AnswerResult = AnswerResult(isCorrect: bool, answer: string)

  /**
   * What the answer handler's delayed callback captured when the answer was
   * given: the time left before any penalty and the score before any reward.
   */
  datatype PendingResolution = PendingResolution(timeLeft: int, score: int)

  const GameDuration := 60
  const BaseScrollSpeed: real := 1.0
  const MaxScrollSpeed: real := 4.0
  const CorrectPoints := 10
  const WrongPenalty := 3

  const Questions: seq<QuizQuestion> := [
    QuizQuestion("What is the chemical symbol for Gold?", ["Ag", "Au", "Ge", "Go"], "Au"),
    QuizQuestion("Which planet is known as the Red Planet?", ["Mars", "Jupiter", "Venus", "Saturn"], "Mars"),
    QuizQuestion("What is the powerhouse of the cell?", ["Nucleus", "Ribosome", "Mitochondria", "Chloroplast"], "Mitochondria"),
    QuizQuestion("H2O is the chemical formula for?", ["Oxygen", "Water", "Hydrogen Peroxide", "Salt"], "Water"),
    QuizQuestion("What force keeps us on the ground?", ["Magnetism", "Gravity", "Friction", "Tension"], "Gravity"),
    QuizQuestion("What is the largest mammal in the world?", ["Elephant", "Blue Whale", "Giraffe", "Hippo"], "Blue Whale"),
    QuizQuestion("Who wrote \"Romeo and Juliet\"?", ["Charles Dickens", "William Shakespeare", "Jane Austen", "Mark Twain"], "William Shakespeare")
  ]

  /** The answer check of the question dialog. */
  predicate IsCorrectAnswer(q: QuizQuestion, option: string) {
    option == q.answer
  }

  /** The fall speed of a new scroll: it grows with the score and is capped. */
  function ScrollSpeed(score: int): (r: real)
    ensures r <= MaxScrollSpeed
    ensures score >= 0 ==> BaseScrollSpeed <= r
    ensures r < MaxScrollSpeed ==> r == BaseScrollSpeed + score as real / 50.0
    ensures BaseScrollSpeed + score as real / 50.0 <= MaxScrollSpeed ==> r == BaseScrollSpeed + score as real / 50.0
  {
    var speed := BaseScrollSpeed + score as real / 50.0;
    if speed < MaxScrollSpeed then speed else MaxScrollSpeed
  }

  /** The time left after a wrong answer: three seconds less, but never below zero. */
  function Penalized(timeLeft: int): (r: int)
    ensures 0 <= r
    ensures timeLeft >= 0 ==> r <= timeLeft
    ensures timeLeft >= WrongPenalty ==> r == timeLeft - WrongPenalty
    ensures timeLeft <= WrongPenalty ==> r == 0
  {
    if timeLeft - WrongPenalty > 0 then timeLeft - WrongPenalty else 0
  }

  /** The scrolls whose id differs from `id`, in their original order. */
  function RemoveScroll(scrolls: seq<Scroll>, id: int): (r: seq<Scroll>)
    ensures |r| <= |scrolls|
    ensures forall s :: s in r ==> s in scrolls && s.id != id
    ensures forall s :: s in scrolls && s.id != id ==> s in r
  {
    if scrolls == [] then []
    else if scrolls[0].id == id then RemoveScroll(scrolls[1..], id)
    else [scrolls[0]] + RemoveScroll(scrolls[1..], id)
  }

  /** Removal works piece by piece, so the kept scrolls keep their relative order. */
  lemma {:induction false} RemoveScrollAppend(a: seq<Scroll>, b: seq<Scroll>, id: int)
    ensures RemoveScroll(a + b, id) == RemoveScroll(a, id) + RemoveScroll(b, id)
  {
    if a == [] {
      assert a + b == b;
    } else {
      assert (a + b)[1..] == a[1..] + b;
      RemoveScrollAppend(a[1..], b, id);
    }
  }

  /** Removing an id no scroll carries leaves the list as it is. */
  lemma {:induction false} RemoveAbsentScroll(scrolls: seq<Scroll>, id: int)
    requires forall k :: 0 <= k < |scrolls| ==> scrolls[k].id != id
    ensures RemoveScroll(scrolls, id) == scrolls
  {
    if scrolls != [] {
      RemoveAbsentScroll(scrolls[1..], id);
    }
  }

  /** Removing twice removes nothing more. */
  lemma RemoveScrollIdempotent(scrolls: seq<Scroll>, id: int)
    ensures RemoveScroll(RemoveScroll(scrolls, id), id) == RemoveScroll(scrolls, id)
  {
    var r := RemoveScroll(scrolls, id);
    assert forall k :: 0 <= k < |r| ==> r[k] in r;
    RemoveAbsentScroll(r, id);
  }

  /** Each built-in question offers four distinct options, exactly one of which is its answer. */
  lemma BuiltInQuestionsHaveOneCorrectOption(i: nat)
    requires i < |Questions|
    ensures |Questions[i].options| == 4
    ensures exists j :: 0 <= j < 4 && IsCorrectAnswer(Questions[i], Questions[i].options[j])
    ensures forall j, k :: 0 <= j < k < 4 ==> Questions[i].options[j] != Questions[i].options[k]
  {
    var j := if i == 0 then 1 else if i == 1 then 0 else if i == 2 then 2 else 1;
    assert IsCorrectAnswer(Questions[i], Questions[i].options[j]);
  }

  class Game {
    var state: GameState
    var score: int
    var timeLeft: int
    var scrolls: seq<Scroll>
    var activeQuestion: Option<QuizQuestion>
    var questionResult: Option<AnswerResult>
    var showPointsIndicator: bool

    /**
     * The score is a non-negative multiple of 10, the clock stays within
     * [0, 60], the declared `Result` state is never entered, and the
     * question dialog always has a question to show.
     */
    ghost predicate Valid()
      reads this
    {
      && 0 <= score && score % CorrectPoints == 0
      && 0 <= timeLeft <= GameDuration
      && state != Result
      && (state == Question ==> activeQuestion.Some?)
      && (questionResult.Some? ==> activeQuestion.Some?)
    }

    constructor ()
      ensures Valid()
      ensures state == Start && score == 0 && timeLeft == GameDuration && scrolls == []
      ensures activeQuestion == None && questionResult == None && !showPointsIndicator
    {
      state := Start;
      score := 0;
      timeLeft := GameDuration;
      scrolls := [];
      activeQuestion := None;
      questionResult := None;
      showPointsIndicator := false;
    }

    /** "Begin" / "Try Again". The first spawn, half a second later, is a separate `Spawn` event. */
    method StartGame()
      modifies this`state, this`score, this`timeLeft, this`scrolls, this`activeQuestion, this`questionResult
      ensures Valid()
      ensures state == Playing && score == 0 && timeLeft == GameDuration && scrolls == []
      ensures activeQuestion == None && questionResult == None
      ensures showPointsIndicator == old(showPointsIndicator)
    {
      score := 0;
      timeLeft := GameDuration;
      scrolls := [];
      activeQuestion := None;
      questionResult := None;
      state := Playing;
    }

    /**
     * A new scroll carrying question `pick` at position `x`. `seenScore` is the
     * score the spawning callback saw: the current one for the interval
     * spawner, the one at answer time after an answer, and the one before the
     * reset for the spawn that follows a start.
     */
    method Spawn(id: int, x: real, pick: nat, seenScore: int)
      requires Valid()
      requires pick < |Questions|
      modifies this`scrolls
      ensures Valid()
      ensures scrolls == old(scrolls) + [Scroll(id, x, ScrollSpeed(seenScore), Questions[pick])]
    {
      scrolls := scrolls + [Scroll(id, x, ScrollSpeed(seenScore), Questions[pick])];
    }

    /** One second of the game clock; the clock only runs while playing. */
    method Tick()
      requires Valid()
      modifies this`timeLeft, this`state
      ensures Valid()
      ensures old(state) != Playing ==> state == old(state) && timeLeft == old(timeLeft)
      ensures old(state) == Playing && old(timeLeft) <= 1 ==> timeLeft == 0 && state == End
      ensures old(state) == Playing && old(timeLeft) > 1 ==> timeLeft == old(timeLeft) - 1 && state == Playing
    {
      if state != Playing {
        return;
      }
      if timeLeft <= 1 {
        state := End;
        timeLeft := 0;
      } else {
        timeLeft := timeLeft - 1;
      }
    }

    /** The pointer passes over a falling scroll: its question opens and the scroll disappears. */
    method CatchScroll(s: Scroll)
      requires Valid()
      modifies this`state, this`activeQuestion, this`scrolls
      ensures Valid()
      ensures old(state) != Playing ==>
        state == old(state) && activeQuestion == old(activeQuestion) && scrolls == old(scrolls)
      ensures old(state) == Playing ==>
        state == Question && activeQuestion == Some(s.question) && scrolls == RemoveScroll(old(scrolls), s.id)
    {
      if state != Playing {
        return;
      }
      state := Question;
      activeQuestion := Some(s.question);
      scrolls := RemoveScroll(scrolls, s.id);
    }

    /** A scroll's fall animation ended without a catch. */
    method MissScroll(id: int)
      requires Valid()
      modifies this`scrolls
      ensures Valid()
      ensures scrolls == RemoveScroll(old(scrolls), id)
    {
      scrolls := RemoveScroll(scrolls, id);
    }

    /**
     * The answer handler. Outside the question state nothing happens and
     * nothing is scheduled; otherwise the result is recorded, the score or the
     * clock changes, and the returned values are those the delayed
     * `ResolveAnswer` will use.
     */
    method HandleAnswer(isCorrect: bool, answer: string) returns (pending: Option<PendingResolution>)
      requires Valid()
      modifies this`questionResult, this`score, this`timeLeft, this`showPointsIndicator
      ensures Valid()
      ensures old(state) != Question ==>
        && pending == None && questionResult == old(questionResult) && score == old(score)
        && timeLeft == old(timeLeft) && showPointsIndicator == old(showPointsIndicator)
      ensures old(state) == Question ==>
        && pending == Some(PendingResolution(old(timeLeft), old(score)))
        && questionResult == Some(AnswerResult(isCorrect, answer))
      ensures old(state) == Question && isCorrect ==>
        score == old(score) + CorrectPoints && timeLeft == old(timeLeft) && showPointsIndicator
      ensures old(state) == Question && !isCorrect ==>
        && score == old(score) && timeLeft == Penalized(old(timeLeft))
        && showPointsIndicator == old(showPointsIndicator)
    {
      if state != Question {
        return None;
      }
      pending := Some(PendingResolution(timeLeft, score));
      questionResult := Some(AnswerResult(isCorrect, answer));
      if isCorrect {
        score := score + CorrectPoints;
        showPointsIndicator := true;
      } else {
        timeLeft := Penalized(timeLeft);
      }
    }

    /** A click on an option of the question dialog, which is shown only with a question and disabled once answered. */
    method ChooseOption(option: string) returns (pending: Option<PendingResolution>)
      requires Valid()
      modifies this`questionResult, this`score, this`timeLeft, this`showPointsIndicator
      ensures Valid()
      ensures pending.Some? <==> old(state) == Question && old(questionResult) == None
      ensures pending.Some? ==>
        && pending.value == PendingResolution(old(timeLeft), old(score))
        && questionResult == Some(AnswerResult(IsCorrectAnswer(old(activeQuestion).value, option), option))
      ensures pending.Some? && IsCorrectAnswer(old(activeQuestion).value, option) ==>
        score == old(score) + CorrectPoints && timeLeft == old(timeLeft) && showPointsIndicator
      ensures pending.Some? && !IsCorrectAnswer(old(activeQuestion).value, option) ==>
        && score == old(score) && timeLeft == Penalized(old(timeLeft))
        && showPointsIndicator == old(showPointsIndicator)
      ensures pending.None? ==>
        && questionResult == old(questionResult) && score == old(score) && timeLeft == old(timeLeft)
        && showPointsIndicator == old(showPointsIndicator)
    {
      if state != Question || activeQuestion.None? || questionResult.Some? {
        return None;
      }
      pending := HandleAnswer(IsCorrectAnswer(activeQuestion.value, option), option);
    }

    /**
     * The callback 1.5 seconds after an answer: the dialog closes, and the game
     * goes on (with a new scroll) only if the clock showed time left when the
     * answer was given.
     */
    method ResolveAnswer(p: PendingResolution, id: int, x: real, pick: nat)
      requires Valid()
      requires pick < |Questions|
      modifies this`activeQuestion, this`questionResult, this`state, this`scrolls
      ensures Valid()
      ensures activeQuestion == None && questionResult == None
      ensures p.timeLeft > 0 ==>
        state == Playing && scrolls == old(scrolls) + [Scroll(id, x, ScrollSpeed(p.score), Questions[pick])]
      ensures p.timeLeft <= 0 ==> state == End && scrolls == old(scrolls)
    {
      activeQuestion := None;
      questionResult := None;
      if p.timeLeft > 0 {
        state := Playing;
        Spawn(id, x, pick, p.score);
      } else {
        state := End;
      }
    }

    /** The one-second timer that hides the "+10 Coins" indicator. */
    method HidePointsIndicator()
      modifies this`showPointsIndicator
      ensures !showPointsIndicator
    {
      showPointsIndicator := false;
    }

    /** The "End" button, present whenever the game area is on screen. */
    method EndGame()
      requires Valid()
      modifies this`state
      ensures Valid()
      ensures old(state) == Start ==> state == Start
      ensures old(state) != Start ==> state == End
    {
      if state != Start {
        state := End;
      }
    }
  }

  /**
   * A wrong answer given with two seconds left empties the clock, yet the game
   * resumes, because the pause callback looks at the time before the penalty;
   * the next tick then ends it.
   */
  method LastSecondsScenario()
  {
    var g := new Game();
    g.StartGame();
    var i := 0;
    while i < GameDuration - 2
      invariant 0 <= i <= GameDuration - 2
      invariant g.Valid() && g.state == Playing && g.timeLeft == GameDuration - i
      invariant g.activeQuestion == None && g.questionResult == None && g.score == 0
    {
      g.Tick();
      i := i + 1;
    }
    assert g.timeLeft == 2;
    g.Spawn(7, 50.0, 1, g.score);
    var s := g.scrolls[|g.scrolls| - 1];
    g.CatchScroll(s);
    assert g.state == Question && g.activeQuestion == Some(Questions[1]);
    var pending := g.ChooseOption("Venus");
    assert g.timeLeft == 0 && pending == Some(PendingResolution(2, 0));
    g.ResolveAnswer(pending.value, 8, 20.0, 0);
    assert g.state == Playing && g.timeLeft == 0;
    g.Tick();
    assert g.state == End && g.timeLeft == 0 && g.score == 0;
  }
}
