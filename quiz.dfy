/** The quiz-taking component: it loads the questions of one category, keeps
    one chosen letter per question id, counts a clock down once per second,
    and on submission (by the student, or when the clock reaches zero) scores
    the answers and posts an attempt record.

    The clock, the attempt store's reply and the questions endpoint's reply
    are parameters of the operations that use them. */
module Quiz {
  import opened Wrappers
  import opened Types
  import opened Seqs
  import opened Text

  // ---------------------------------------------------------------------------
  // Scoring

  /** Seconds on the clock when a quiz of this type starts: three hours for
      a full quiz, thirty minutes for a short one. */
  function Duration(t: QuizType): (s: nat)
    ensures s > 0 && s % 60 == 0
    ensures t == Full ==> s == 10800
    ensures t == Short ==> s == 1800
  {
    if t == Full then 180 * 60 else 30 * 60
  }

  /** The answer chosen for `q` is its correct answer; an unanswered question
      is never correct. */
  predicate AnsweredCorrectly(answers: map<string, Letter>, q: Question)
  {
    q.id in answers && answers[q.id] == q.correctAnswer
  }

  /** How many questions of `qs` were answered correctly. */
  function CorrectCount(qs: seq<Question>, answers: map<string, Letter>): nat
  {
    Count(qs, q => AnsweredCorrectly(answers, q))
  }

  /** `(correct / total) * 100`; `None` stands for the NaN that a quiz without
      questions produces. */
  function Percent(correct: nat, total: nat): Option<real>
  {
    if total == 0 then None else Some(correct as real / total as real * 100.0)
  }

  /** A percentage of a quiz with questions lies between 0 and 100; it is 100
      exactly when every answer is correct and 0 exactly when none is. */
  lemma PercentBounds(correct: nat, total: nat)
    requires correct <= total
    ensures Percent(correct, total).Some? <==> total > 0
    ensures total > 0 ==> 0.0 <= Percent(correct, total).value <= 100.0
    ensures total > 0 ==> (Percent(correct, total).value == 100.0 <==> correct == total)
    ensures total > 0 ==> (Percent(correct, total).value == 0.0 <==> correct == 0)
  {
    if total > 0 {
      Share(correct, total);
    }
  }

  /** A part of a whole, as a percentage, lies between 0 and 100, and is at
      either end exactly for the whole and for nothing. */
  lemma Share(part: int, whole: int)
    requires whole > 0 && 0 <= part <= whole
    ensures var x := part as real / whole as real * 100.0;
      0.0 <= x <= 100.0 && (x == 100.0 <==> part == whole) && (x == 0.0 <==> part == 0)
  {
    var f := part as real / whole as real;
    assert f * whole as real == part as real;
    assert part as real <= whole as real;
  }

  /** More correct answers never give a lower percentage. */
  lemma PercentMonotone(c1: nat, c2: nat, total: nat)
    requires c1 <= c2 <= total && total > 0
    ensures Percent(c1, total).value <= Percent(c2, total).value
  {
    var f1 := c1 as real / total as real;
    var f2 := c2 as real / total as real;
    assert f1 * total as real == c1 as real;
    assert f2 * total as real == c2 as real;
    assert f1 <= f2;
  }

  /** The score loop: one pass over the questions, counting the correct ones. */
  method CountCorrect(qs: seq<Question>, answers: map<string, Letter>) returns (correct: nat)
    ensures correct == CorrectCount(qs, answers)
    ensures correct <= |qs|
  {
    correct := 0;
    var i := 0;
    while i < |qs|
      invariant 0 <= i <= |qs|
      invariant correct == CorrectCount(qs[..i], answers)
    {
      CountAppend(qs[..i], [qs[i]], q => AnsweredCorrectly(answers, q));
      assert qs[..i + 1] == qs[..i] + [qs[i]];
      if qs[i].id in answers && answers[qs[i].id] == qs[i].correctAnswer {
        correct := correct + 1;
      }
      i := i + 1;
    }
    assert qs[..|qs|] == qs;
    CountAtMostLength(qs, q => AnsweredCorrectly(answers, q));
  }

  /** The attempt record the quiz posts; the two instants are in milliseconds. */
  datatype AttemptDraft = AttemptDraft(
    studentName: string,
    studentEmail: string,
    studentMobile: string,
    categoryId: string,
    quizType: QuizType,
    totalQuestions: nat,
    correctAnswers: nat,
    wrongAnswers: nat,
    timeTaken: int,
    score: Option<real>,
    accuracy: Option<real>,
    startedAt: int,
    completedAt: int)

  // ---------------------------------------------------------------------------
  // The clock

  /** What one second does to the clock. `Stopped`: no timer runs at zero.
      `Expired`: the tick that finds one second or less submits and sets zero. */
  datatype TickOutcome = Stopped | Counted(left: nat) | Expired

  function TickStep(t: nat): (r: TickOutcome)
    ensures r == Stopped <==> t == 0
    ensures r == Expired <==> t == 1
    ensures r.Counted? ==> r.left + 1 == t
  {
    if t == 0 then Stopped else if t <= 1 then Expired else Counted(t - 1)
  }

  /** The clock after `k` ticks from `t`, and how many of them submitted. */
  function AfterTicks(t: nat, k: nat): (nat, nat)
    decreases k
  {
    if k == 0 then (t, 0)
    else match TickStep(t)
      case Stopped => AfterTicks(0, k - 1)
      case Expired =>
        var (left, fired) := AfterTicks(0, k - 1);
        (left, fired + 1)
      case Counted(l) => AfterTicks(l, k - 1)
  }

  /** Left alone, the clock counts down one second per tick, and the quiz is
      submitted exactly once, by the tick that ends the time. */
  lemma {:induction false} Countdown(t: nat, k: nat)
    ensures AfterTicks(t, k).0 == if k < t then t - k else 0
    ensures AfterTicks(t, k).1 == if 1 <= t <= k then 1 else 0
    decreases k
  {
    if k > 0 {
      match TickStep(t)
      case Stopped => Countdown(0, k - 1);
      case Expired => Countdown(0, k - 1);
      case Counted(l) => Countdown(l, k - 1);
    }
  }

  /** `HH:MM:SS`, each field zero-padded to two digits. */
  function FormatClock(seconds: nat): string
  {
    Pad2(seconds / 3600) + ":" + Pad2(seconds % 3600 / 60) + ":" + Pad2(seconds % 60)
  }

  /** Reads an `HH:MM:SS` display back as seconds. */
  function ReadClock(c: string): nat
    requires |c| == 8 && AllDigits(c[0..2]) && AllDigits(c[3..5]) && AllDigits(c[6..8])
  {
    DigitsValue(c[0..2]) * 3600 + DigitsValue(c[3..5]) * 60 + DigitsValue(c[6..8])
  }

  /** Below one hundred hours the display is eight characters long, has its
      colons in place and reads back as the number of seconds shown. */
  lemma ClockRoundTrip(seconds: nat)
    requires seconds < 360000
    ensures var c := FormatClock(seconds);
      |c| == 8 && c[2] == ':' && c[5] == ':'
      && AllDigits(c[0..2]) && AllDigits(c[3..5]) && AllDigits(c[6..8])
      && ReadClock(c) == seconds
  {
    var h, m, s := seconds / 3600, seconds % 3600 / 60, seconds % 60;
    ClockFields(seconds);
    ClockSlices(Pad2(h), Pad2(m), Pad2(s));
  }

  /** The three fields of the display are below one hundred and recombine
      into the seconds. */
  lemma ClockFields(seconds: nat)
    requires seconds < 360000
    ensures seconds / 3600 < 100 && seconds % 3600 / 60 < 60 && seconds % 60 < 60
    ensures seconds == seconds / 3600 * 3600 + seconds % 3600 / 60 * 60 + seconds % 60
  {
    assert seconds == seconds / 3600 * 3600 + seconds % 3600;
    assert seconds % 3600 == seconds % 3600 / 60 * 60 + seconds % 60;
  }

  /** Three two-character fields joined by colons sit at positions 0, 3
      and 6. */
  lemma ClockSlices(a: string, b: string, c: string)
    requires |a| == 2 && |b| == 2 && |c| == 2
    ensures var t := a + ":" + b + ":" + c;
      |t| == 8 && t[2] == ':' && t[5] == ':' && t[0..2] == a && t[3..5] == b && t[6..8] == c
  {
    var t := a + ":" + b + ":" + c;
    assert t[0..2] == a;
    assert t[3..5] == b;
    assert t[6..8] == c;
  }

  // ---------------------------------------------------------------------------
  // The session

  /** The distinct ids of a list of questions. */
  function IdsOf(qs: seq<Question>): set<string>
  {
    if qs == [] then {} else {qs[0].id} + IdsOf(qs[1..])
  }

  lemma {:induction false} IdsOfSize(qs: seq<Question>)
    ensures |IdsOf(qs)| <= |qs|
  {
    if qs != [] {
      IdsOfSize(qs[1..]);
    }
  }

  lemma {:induction false} IdsOfContains(qs: seq<Question>, i: nat)
    requires i < |qs|
    ensures qs[i].id in IdsOf(qs)
  {
    if i > 0 {
      IdsOfContains(qs[1..], i - 1);
    }
  }

  /** A set no larger than its superset. */
  lemma {:induction false} SubsetSize(a: set<string>, b: set<string>)
    requires a <= b
    ensures |a| <= |b|
    decreases |b|
  {
    if a != {} {
      var x :| x in a;
      SubsetSize(a - {x}, b - {x});
    }
  }

  /** Which of the component's four screens is shown, in the order it tests. */
  datatype Screen = LoadingScreen | ResultScreen | NoQuestionsScreen | QuestionScreen

  /** How a cell of the question navigator is drawn. */
  datatype Mark = CurrentCell | AnsweredCell | OpenCell

  class QuizSession {
    const studentName: string
    const studentEmail: string
    const studentMobile: string
    const categoryId: string
    const quizType: QuizType
    /** When the component was mounted, in milliseconds. */
    const startMs: int

    var questions: seq<Question>
    var current: nat
    /** The chosen letter, by question id. */
    var answers: map<string, Letter>
    var timeLeft: nat
    var showResult: bool
    var attemptId: string
    var loading: bool
    var confirming: bool

    /** The cursor is on a question (or at 0 with none), every answer belongs
        to a loaded question, and nothing is answered before loading ends. */
    ghost predicate Valid()
      reads this
    {
      (if questions == [] then current == 0 else current < |questions|)
      && answers.Keys <= IdsOf(questions)
      && (loading ==> questions == [])
    }

    constructor (name: string, email: string, mobile: string, category: string, kind: QuizType, nowMs: int)
      ensures Valid()
      ensures studentName == name && studentEmail == email && studentMobile == mobile
      ensures categoryId == category && quizType == kind && startMs == nowMs
      ensures questions == [] && current == 0 && answers == map[]
      ensures timeLeft == Duration(kind)
      ensures loading && !showResult && !confirming && attemptId == ""
    {
      studentName, studentEmail, studentMobile := name, email, mobile;
      categoryId, quizType, startMs := category, kind, nowMs;
      questions, current, answers := [], 0, map[];
      timeLeft := Duration(kind);
      loading, showResult, confirming, attemptId := true, false, false, "";
    }

    function CurrentScreen(): (s: Screen)
      reads this
      requires Valid()
      ensures s == LoadingScreen <==> loading
      ensures s == ResultScreen <==> !loading && showResult
      ensures s == NoQuestionsScreen <==> !loading && !showResult && questions == []
      ensures s == QuestionScreen ==> current < |questions|
    {
      if loading then LoadingScreen
      else if showResult then ResultScreen
      else if questions == [] then NoQuestionsScreen
      else QuestionScreen
    }

    /** The questions endpoint answered: `Some` with the list when the
        response was OK, `None` when it was not or the request failed. Either
        way loading ends. */
    method QuestionsLoaded(reply: Option<seq<Question>>)
      requires Valid() && loading
      modifies this`questions, this`loading
      ensures Valid() && !loading
      ensures questions == if reply.Some? then reply.value else old(questions)
    {
      if reply.Some? {
        questions := reply.value;
      }
      loading := false;
    }

    /** Choosing an option records it for the current question, replacing an
        earlier choice and keeping the answers to the other questions. */
    method SelectAnswer(choice: Letter)
      requires Valid() && CurrentScreen() == QuestionScreen
      modifies this`answers
      ensures Valid()
      ensures answers == old(answers)[questions[current].id := choice]
      ensures forall id :: id != questions[current].id ==>
        (id in answers <==> id in old(answers)) && (id in answers ==> answers[id] == old(answers)[id])
    {
      IdsOfContains(questions, current);
      answers := answers[questions[current].id := choice];
    }

    /** Moves to the next question unless the cursor is on the last. */
    method Next()
      requires Valid()
      modifies this`current
      ensures Valid()
      ensures current == if old(current) + 1 < |questions| then old(current) + 1 else old(current)
    {
      if current < |questions| - 1 {
        current := current + 1;
      }
    }

    /** Moves to the previous question unless the cursor is on the first. */
    method Previous()
      requires Valid()
      modifies this`current
      ensures Valid()
      ensures current == if old(current) > 0 then old(current) - 1 else 0
    {
      if current > 0 {
        current := current - 1;
      }
    }

    /** A click on cell `index` of the navigator, which has one cell per question. */
    method Navigate(index: nat)
      requires Valid() && index < |questions|
      modifies this`current
      ensures Valid() && current == index
    {
      current := index;
    }

    /** The number of answered questions: the number of keys in the answer map. */
    function AnsweredCount(): (n: nat)
      reads this
      requires Valid()
      ensures n <= |questions|
    {
      SubsetSize(answers.Keys, IdsOf(questions));
      IdsOfSize(questions);
      |answers|
    }

    /** The confirmation dialog's unanswered count is never negative. */
    function UnansweredCount(): (n: int)
      reads this
      requires Valid()
      ensures 0 <= n <= |questions|
      ensures n == 0 <==> AnsweredCount() == |questions|
    {
      |questions| - AnsweredCount()
    }

    /** The bottom bar offers Submit instead of Next exactly on the last question. */
    function OffersSubmit(): (b: bool)
      reads this
      requires Valid() && questions != []
      ensures b <==> current == |questions| - 1
    {
      !(current < |questions| - 1)
    }

    /** The progress bar's percentage. */
    function Progress(): (p: real)
      reads this
      requires Valid() && questions != []
      ensures 0.0 < p <= 100.0
      ensures p == 100.0 <==> current == |questions| - 1
    {
      var f := (current + 1) as real / |questions| as real;
      assert f * |questions| as real == (current + 1) as real;
      f * 100.0
    }

    /** A navigator cell: the current question wins over an answered one. */
    function CellMark(index: nat): (m: Mark)
      reads this
      requires Valid() && index < |questions|
      ensures m == CurrentCell <==> index == current
      ensures m == AnsweredCell <==> index != current && questions[index].id in answers
    {
      if index == current then CurrentCell
      else if questions[index].id in answers then AnsweredCell
      else OpenCell
    }

    /** The Submit button opens the confirmation dialog. */
    method RequestSubmit()
      modifies this`confirming
      ensures confirming
    {
      confirming := true;
    }

    /** Cancel closes the dialog and leaves the quiz as it was. */
    method CancelSubmit()
      modifies this`confirming
      ensures !confirming
    {
      confirming := false;
    }

    /** Scores the answers and posts the attempt. `saved` is the attempt
        store's reply: `Some(id)` when it answered OK with the new record,
        `None` when it did not or the request failed, in which case the quiz
        stays on screen. There is no guard against submitting twice. */
    method Submit(nowMs: int, saved: Option<string>) returns (draft: AttemptDraft)
      requires Valid()
      modifies this`attemptId, this`showResult
      ensures Valid()
      ensures draft.studentName == studentName && draft.studentEmail == studentEmail
      ensures draft.studentMobile == studentMobile && draft.categoryId == categoryId
      ensures draft.quizType == quizType
      ensures draft.totalQuestions == |questions|
      ensures draft.correctAnswers == CorrectCount(questions, answers)
      ensures draft.correctAnswers + draft.wrongAnswers == |questions|
      ensures draft.score == draft.accuracy == Percent(draft.correctAnswers, |questions|)
      ensures draft.timeTaken == (nowMs - startMs) / 1000
      ensures draft.startedAt == startMs && draft.completedAt == nowMs
      ensures saved.Some? ==> attemptId == saved.value && showResult
      ensures saved.None? ==> attemptId == old(attemptId) && showResult == old(showResult)
    {
      var correct := CountCorrect(questions, answers);
      var result := Percent(correct, |questions|);
      draft := AttemptDraft(studentName, studentEmail, studentMobile, categoryId, quizType,
        |questions|, correct, |questions| - correct, (nowMs - startMs) / 1000,
        result, result, startMs, nowMs);
      if saved.Some? {
        attemptId := saved.value;
        showResult := true;
      }
    }

    /** "Submit Now" in the dialog: close it, then submit. */
    method ConfirmSubmit(nowMs: int, saved: Option<string>) returns (draft: AttemptDraft)
      requires Valid()
      modifies this`confirming, this`attemptId, this`showResult
      ensures Valid() && !confirming
      ensures draft.totalQuestions == |questions|
      ensures draft.correctAnswers == CorrectCount(questions, answers)
      ensures draft.score == Percent(draft.correctAnswers, |questions|)
      ensures saved.Some? ==> attemptId == saved.value && showResult
      ensures saved.None? ==> attemptId == old(attemptId) && showResult == old(showResult)
    {
      confirming := false;
      draft := Submit(nowMs, saved);
    }

    /** One second of the clock. At zero no timer runs; the tick that finds
        one second or less submits and sets zero; any other tick counts down.
        The clock runs on every screen, the result screen included. */
    method Tick(nowMs: int, saved: Option<string>) returns (draft: Option<AttemptDraft>)
      requires Valid()
      modifies this`timeLeft, this`attemptId, this`showResult
      ensures Valid()
      ensures TickStep(old(timeLeft)) == Stopped ==>
        (draft.None? && timeLeft == 0 && attemptId == old(attemptId) && showResult == old(showResult))
      ensures TickStep(old(timeLeft)).Counted? ==>
        (draft.None? && timeLeft == TickStep(old(timeLeft)).left
         && attemptId == old(attemptId) && showResult == old(showResult))
      ensures TickStep(old(timeLeft)) == Expired ==>
        (draft.Some? && timeLeft == 0
         && draft.value.correctAnswers == CorrectCount(questions, answers)
         && draft.value.score == Percent(draft.value.correctAnswers, |questions|)
         && (saved.Some? ==> attemptId == saved.value && showResult)
         && (saved.None? ==> attemptId == old(attemptId) && showResult == old(showResult)))
    {
      if timeLeft == 0 {
        draft := None;
      } else if timeLeft <= 1 {
        var d := Submit(nowMs, saved);
        draft := Some(d);
        timeLeft := 0;
      } else {
        draft := None;
        timeLeft := timeLeft - 1;
      }
    }
  }
}
