/** The quiz screen: a log with one sticky answer slot per question, the position of the
    question on screen, and whether the results page is shown. */
module QuizView {
  import opened Types

  /** The component's three pieces of state. */
  datatype QuizState = QuizState(answers: seq<Option<nat>>, currentIndex: nat, showResults: bool)

  /** The log has one slot per question and the position names a question. */
  predicate ValidState(questions: seq<QuizQuestion>, s: QuizState)
  {
    |s.answers| == |questions| && s.currentIndex < |questions|
  }

  /** The state when the quiz screen is mounted: first question, nothing answered. */
  function Initial(questions: seq<QuizQuestion>): (s: QuizState)
    ensures s.currentIndex == 0 && !s.showResults
    ensures |s.answers| == |questions|
    ensures forall i :: 0 <= i < |s.answers| ==> s.answers[i].None?
    ensures |questions| >= 1 ==> ValidState(questions, s)
    ensures AnsweredSoFar(s)
  {
    QuizState(seq(|questions|, _ => None), 0, false)
  }

  /** The slot of the question on screen: an entry of the log. */
  function SelectedOption(s: QuizState): (r: Option<nat>)
    requires s.currentIndex < |s.answers|
    ensures r in s.answers
  {
    s.answers[s.currentIndex]
  }

  /** The question on screen has a recorded choice. */
  predicate IsAnswered(s: QuizState)
    requires s.currentIndex < |s.answers|
    ensures IsAnswered(s) <==> s.answers[s.currentIndex] != None
  {
    SelectedOption(s).Some?
  }

  /** A slot holds the question's correct option; an empty slot never does, and neither
      does any slot when `correctAnswer` is negative. */
  predicate Matches(q: QuizQuestion, slot: Option<nat>)
  {
    slot.Some? && slot.value == q.correctAnswer
  }

  /** The verdict banner of the question on screen. */
  predicate IsCorrect(questions: seq<QuizQuestion>, s: QuizState)
    requires ValidState(questions, s)
    ensures IsCorrect(questions, s) <==>
      IsAnswered(s) && SelectedOption(s).value == questions[s.currentIndex].correctAnswer
    ensures IsCorrect(questions, s) <==> Point(questions, s.answers, s.currentIndex) == 1
  {
    IsAnswered(s) && Matches(questions[s.currentIndex], SelectedOption(s))
  }

  // ---------------------------------------------------------------------------
  // The score fold and its reference definition

  /** What position `i` adds to the running total: 1 when its slot holds that question's
      correct option. A position with no question contributes nothing. */
  function Point(questions: seq<QuizQuestion>, answers: seq<Option<nat>>, i: nat): (p: nat)
    requires i < |answers|
    ensures p <= 1
    ensures answers[i].None? ==> p == 0
    ensures i >= |questions| ==> p == 0
    ensures i < |questions| && answers[i].Some? && answers[i].value == questions[i].correctAnswer ==> p == 1
    ensures i < |questions| && answers[i].Some? && answers[i].value != questions[i].correctAnswer ==> p == 0
  {
    if i < |questions| && Matches(questions[i], answers[i]) then 1 else 0
  }

  /** The left fold over the log, starting from 0: each position adds its point. */
  function Score(questions: seq<QuizQuestion>, answers: seq<Option<nat>>): (r: nat)
    ensures r <= |answers|
    decreases |answers|
  {
    if answers == [] then 0
    else Score(questions, answers[..|answers| - 1]) + Point(questions, answers, |answers| - 1)
  }

  /** The positions answered with that question's correct option. */
  function CorrectPositions(questions: seq<QuizQuestion>, answers: seq<Option<nat>>): set<nat>
  {
    set i: nat | i < |answers| && i < |questions| && Matches(questions[i], answers[i])
  }

  /** The positions that do not score: unanswered, answered wrongly, or without a question. */
  function MissedPositions(questions: seq<QuizQuestion>, answers: seq<Option<nat>>): set<nat>
  {
    set i: nat | i < |answers| && !(i < |questions| && Matches(questions[i], answers[i]))
  }

  /** The fold counts exactly the correctly answered positions, and what it does not count
      is exactly the missed positions. */
  lemma {:induction false} ScoreCountsCorrectPositions(questions: seq<QuizQuestion>, answers: seq<Option<nat>>)
    ensures Score(questions, answers) == |CorrectPositions(questions, answers)|
    ensures |answers| - Score(questions, answers) == |MissedPositions(questions, answers)|
    decreases |answers|
  {
    if answers == [] {
      assert CorrectPositions(questions, answers) == {};
      assert MissedPositions(questions, answers) == {};
    } else {
      var n := |answers| - 1;
      var prefix := answers[..n];
      ScoreCountsCorrectPositions(questions, prefix);
      var hit := n < |questions| && Matches(questions[n], answers[n]);
      var correct, missed := CorrectPositions(questions, prefix), MissedPositions(questions, prefix);
      forall i: nat
        ensures i in CorrectPositions(questions, answers) <==> i in correct || (hit && i == n)
        ensures i in MissedPositions(questions, answers) <==> i in missed || (!hit && i == n)
      {
        if i < n {
          assert prefix[i] == answers[i];
        }
      }
      assert CorrectPositions(questions, answers) == correct + (if hit then {n} else {});
      assert MissedPositions(questions, answers) == missed + (if hit then {} else {n});
    }
  }

  /** The "Incorrect" count of the results page, `questions.length - score`: it is never
      negative, and it counts every question not answered correctly. */
  function IncorrectCount(questions: seq<QuizQuestion>, answers: seq<Option<nat>>): (r: nat)
    requires |answers| == |questions|
    ensures r == |MissedPositions(questions, answers)|
    ensures r + |CorrectPositions(questions, answers)| == |questions|
  {
    ScoreCountsCorrectPositions(questions, answers);
    |questions| - Score(questions, answers)
  }

  // ---------------------------------------------------------------------------
  // The three handlers

  /** Choosing an option records it in the slot on screen, unless that slot is taken. */
  function SelectOption(questions: seq<QuizQuestion>, s: QuizState, idx: nat): (t: QuizState)
    requires ValidState(questions, s)
    requires idx < |questions[s.currentIndex].options|
    ensures ValidState(questions, t) && IsAnswered(t)
    ensures t.currentIndex == s.currentIndex && t.showResults == s.showResults
    ensures IsAnswered(s) ==> t == s
    ensures !IsAnswered(s) ==> SelectedOption(t) == Some(idx)
    ensures forall j :: 0 <= j < |s.answers| && j != s.currentIndex ==> t.answers[j] == s.answers[j]
  {
    if IsAnswered(s) then s
    else s.(answers := s.answers[s.currentIndex := Some(idx)])
  }

  /** Next moves to the following question while there is one; on the last question it
      opens the results page instead and stays put. The log is untouched. */
  function Advance(questions: seq<QuizQuestion>, s: QuizState): (t: QuizState)
    requires ValidState(questions, s)
    ensures ValidState(questions, t) && t.answers == s.answers
    ensures s.currentIndex < |questions| - 1 ==>
      t.currentIndex == s.currentIndex + 1 && t.showResults == s.showResults
    ensures s.currentIndex == |questions| - 1 ==> t.currentIndex == s.currentIndex && t.showResults
  {
    if s.currentIndex < |questions| - 1 then s.(currentIndex := s.currentIndex + 1)
    else s.(showResults := true)
  }

  /** Previous moves back one question, never below the first. The log is untouched. */
  function Retreat(s: QuizState): (t: QuizState)
    ensures t.answers == s.answers && t.showResults == s.showResults
    ensures s.currentIndex > 0 ==> t.currentIndex == s.currentIndex - 1
    ensures s.currentIndex == 0 ==> t == s
  {
    if s.currentIndex > 0 then s.(currentIndex := s.currentIndex - 1) else s
  }

  /** Navigation alone never changes the score. */
  lemma NavigationKeepsScore(questions: seq<QuizQuestion>, s: QuizState)
    requires ValidState(questions, s)
    ensures Score(questions, Advance(questions, s).answers) == Score(questions, s.answers)
    ensures Score(questions, Retreat(s).answers) == Score(questions, s.answers)
  {
  }

  /** Recording an answer in an empty slot raises the score by one exactly when the choice
      is that question's correct option; the score never goes down. */
  lemma {:induction false} ScoreAfterSelect(questions: seq<QuizQuestion>, s: QuizState, idx: nat)
    requires ValidState(questions, s)
    requires idx < |questions[s.currentIndex].options|
    ensures var t := SelectOption(questions, s, idx);
      Score(questions, t.answers) == Score(questions, s.answers)
        + (if !IsAnswered(s) && idx == questions[s.currentIndex].correctAnswer then 1 else 0)
  {
    var t := SelectOption(questions, s, idx);
    if !IsAnswered(s) {
      var i := s.currentIndex;
      ScoreCountsCorrectPositions(questions, s.answers);
      ScoreCountsCorrectPositions(questions, t.answers);
      var before := CorrectPositions(questions, s.answers);
      assert i !in before;
      if idx == questions[i].correctAnswer {
        assert CorrectPositions(questions, t.answers) == before + {i};
      } else {
        assert CorrectPositions(questions, t.answers) == before;
      }
    }
  }

  // ---------------------------------------------------------------------------
  // Runs of user actions

  /** A click on an option button, the Next button or the Previous button. */
  datatype QuizEvent = Choose(option: nat) | Next | Previous

  /** The control for the event is on screen and enabled: nothing is offered on the
      results page, option buttons are disabled once the slot is answered, Next appears
      only once the question is answered and Previous only after the first question. */
  predicate Offered(questions: seq<QuizQuestion>, s: QuizState, e: QuizEvent)
    requires ValidState(questions, s)
    ensures Offered(questions, s, e) ==> !s.showResults
    ensures e.Choose? ==> (Offered(questions, s, e) <==>
      !s.showResults && !IsAnswered(s) && e.option < |questions[s.currentIndex].options|)
    ensures e.Next? ==> (Offered(questions, s, e) <==> !s.showResults && IsAnswered(s))
    ensures e.Previous? ==> (Offered(questions, s, e) <==> !s.showResults && s.currentIndex > 0)
    ensures Offered(questions, s, e) && e.Choose? ==> SelectOption(questions, s, e.option) != s
  {
    !s.showResults &&
    match e
    case Choose(idx) => !IsAnswered(s) && idx < |questions[s.currentIndex].options|
    case Next => IsAnswered(s)
    case Previous => s.currentIndex > 0
  }

  /** One user action: the handler of an offered control runs; anything else has no effect. */
  function Step(questions: seq<QuizQuestion>, s: QuizState, e: QuizEvent): (t: QuizState)
    requires ValidState(questions, s)
    ensures ValidState(questions, t) && KeepsAnswers(s, t)
    ensures !Offered(questions, s, e) ==> t == s
  {
    if !Offered(questions, s, e) then s
    else match e
      case Choose(idx) => SelectOption(questions, s, idx)
      case Next => Advance(questions, s)
      case Previous => Retreat(s)
  }

  /** A sequence of user actions; the position stays on a question throughout. */
  function Run(questions: seq<QuizQuestion>, s: QuizState, events: seq<QuizEvent>): (t: QuizState)
    requires ValidState(questions, s)
    ensures ValidState(questions, t)
    decreases |events|
  {
    if events == [] then s
    else Run(questions, Step(questions, s, events[0]), events[1..])
  }

  /** `t` keeps every answer recorded in `s`. */
  ghost predicate KeepsAnswers(s: QuizState, t: QuizState)
  {
    |t.answers| == |s.answers| &&
    forall j :: 0 <= j < |s.answers| && s.answers[j].Some? ==> t.answers[j] == s.answers[j]
  }

  /** Answers are sticky over any run, and so the score never decreases. */
  lemma {:induction false} RunKeepsAnswers(questions: seq<QuizQuestion>, s: QuizState, events: seq<QuizEvent>)
    requires ValidState(questions, s)
    ensures KeepsAnswers(s, Run(questions, s, events))
    ensures Score(questions, s.answers) <= Score(questions, Run(questions, s, events).answers)
    decreases |events|
  {
    if events != [] {
      var next := Step(questions, s, events[0]);
      if Offered(questions, s, events[0]) && events[0].Choose? {
        ScoreAfterSelect(questions, s, events[0].option);
      }
      RunKeepsAnswers(questions, next, events[1..]);
    }
  }

  /** Every question before the one on screen is answered, and the results page is shown
      only once every question is answered. */
  ghost predicate AnsweredSoFar(s: QuizState)
  {
    s.currentIndex <= |s.answers| &&
    (forall j :: 0 <= j < s.currentIndex ==> s.answers[j].Some?) &&
    (s.showResults ==> forall j :: 0 <= j < |s.answers| ==> s.answers[j].Some?)
  }

  lemma StepKeepsAnsweredSoFar(questions: seq<QuizQuestion>, s: QuizState, e: QuizEvent)
    requires ValidState(questions, s) && AnsweredSoFar(s)
    ensures AnsweredSoFar(Step(questions, s, e))
  {
    if Offered(questions, s, e) && e.Next? {
      assert s.answers[s.currentIndex].Some?;
    }
  }

  /** Through the controls on screen, the results page is reached only with every
      question answered; its "Incorrect" count is then the number of wrong answers. */
  lemma {:induction false} ResultsFollowCompleteLog(questions: seq<QuizQuestion>, s: QuizState, events: seq<QuizEvent>)
    requires ValidState(questions, s) && AnsweredSoFar(s)
    ensures AnsweredSoFar(Run(questions, s, events))
    ensures var t := Run(questions, s, events);
      t.showResults ==>
        IncorrectCount(questions, t.answers)
          == |set i: nat | i < |questions| && t.answers[i].Some? && t.answers[i].value != questions[i].correctAnswer|
    decreases |events|
  {
    if events == [] {
      var t := s;
      if t.showResults {
        assert MissedPositions(questions, t.answers)
            == set i: nat | i < |questions| && t.answers[i].Some? && t.answers[i].value != questions[i].correctAnswer;
      }
    } else {
      StepKeepsAnsweredSoFar(questions, s, events[0]);
      ResultsFollowCompleteLog(questions, Step(questions, s, events[0]), events[1..]);
    }
  }

  /** From the mounted quiz, whatever the clicks, the results page shows only a complete
      log, and its "Incorrect" count is then the number of wrong answers. */
  lemma ResultsFromMount(questions: seq<QuizQuestion>, events: seq<QuizEvent>)
    requires |questions| >= 1
    ensures var t := Run(questions, Initial(questions), events);
      t.showResults ==>
        (forall j :: 0 <= j < |t.answers| ==> t.answers[j].Some?) &&
        IncorrectCount(questions, t.answers)
          == |set i: nat | i < |questions| && t.answers[i].Some? && t.answers[i].value != questions[i].correctAnswer|
  {
    ResultsFollowCompleteLog(questions, Initial(questions), events);
  }

  /** The verdict banner agrees with the score: the question on screen is shown as correct
      exactly when its position is counted by the score. */
  lemma VerdictAgreesWithScore(questions: seq<QuizQuestion>, s: QuizState)
    requires ValidState(questions, s)
    ensures IsCorrect(questions, s) <==> s.currentIndex in CorrectPositions(questions, s.answers)
  {
  }

  // ---------------------------------------------------------------------------
  // The component

  /** The mounted quiz screen. The log lives in an array that each answer replaces with an
      updated copy. */
  class QuizSession {
    const questions: seq<QuizQuestion>
    var answers: array<Option<nat>>
    var currentIndex: nat
    var showResults: bool

    /** The component's state as a value. */
    function State(): QuizState
      reads this, answers
    {
      QuizState(answers[..], currentIndex, showResults)
    }

    ghost predicate Valid()
      reads this, answers
    {
      ValidState(questions, State())
    }

    /** Mounting requires at least one question: with none, the first render reads the
        correct option of a question that does not exist. */
    constructor (questions: seq<QuizQuestion>)
      requires |questions| >= 1
      ensures this.questions == questions && fresh(answers)
      ensures Valid() && State() == Initial(questions)
    {
      this.questions := questions;
      answers := new Option<nat>[|questions|](_ => None);
      currentIndex := 0;
      showResults := false;
      new;
      assert answers[..] == Initial(questions).answers;
    }

    /** An option button: copy the log, write the choice into the slot on screen, and
        replace the log, unless the slot is already answered. */
    method HandleOptionSelect(idx: nat)
      requires Valid()
      requires idx < |questions[currentIndex].options|
      modifies this
      ensures Valid()
      ensures State() == SelectOption(questions, old(State()), idx)
    {
      if answers[currentIndex].Some? {
        return;
      }
      var log := answers;
      var copy := new Option<nat>[log.Length](i requires 0 <= i < log.Length reads log => log[i]);
      copy[currentIndex] := Some(idx);
      answers := copy;
    }

    /** The Next / Finish Quiz button. */
    method NextQuestion()
      requires Valid()
      modifies this`currentIndex, this`showResults
      ensures Valid()
      ensures State() == Advance(questions, old(State()))
    {
      if currentIndex < |questions| - 1 {
        currentIndex := currentIndex + 1;
      } else {
        showResults := true;
      }
    }

    /** The Previous button. */
    method PrevQuestion()
      requires Valid()
      modifies this`currentIndex
      ensures Valid()
      ensures State() == Retreat(old(State()))
    {
      if currentIndex > 0 {
        currentIndex := currentIndex - 1;
      }
    }
  }
}
