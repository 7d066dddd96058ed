/** The student dashboard: the categories, the five most recent attempts and
    four statistics over all attempts (count, average score, time spent and
    best score), with the times written in hours and minutes and the scores
    coloured by threshold.

    The two endpoints' answers are parameters; scores are exact reals. */
module StudentDashboard {
  import opened Wrappers
  import opened Types
  import opened Seqs
  import opened Text
  import QuizResult

  /** What a `fetch` gives the page: an exception, a response that is not
      ok, or the parsed body of an ok one. */
  datatype Reply<T> = Threw | Refused | Delivered(data: T)

  // ---------------------------------------------------------------------------
  // Folds

  function SumScores(xs: seq<QuizAttempt>): real
  {
    if xs == [] then 0.0 else xs[0].score + SumScores(xs[1..])
  }

  function SumTimes(xs: seq<QuizAttempt>): int
  {
    if xs == [] then 0 else xs[0].timeTaken + SumTimes(xs[1..])
  }

  /** `Math.max(...scores)`, taken only over a non-empty list. */
  function BestScore(xs: seq<QuizAttempt>): (b: real)
    requires xs != []
    ensures forall i :: 0 <= i < |xs| ==> xs[i].score <= b
    ensures exists i :: 0 <= i < |xs| && xs[i].score == b
  {
    if |xs| == 1 then xs[0].score
    else
      var rest := BestScore(xs[1..]);
      assert forall i :: 1 <= i < |xs| ==> xs[i] == xs[1..][i - 1];
      if xs[0].score >= rest then xs[0].score else rest
  }

  datatype Stats = Stats(totalAttempts: nat, averageScore: real, totalTimeSpent: int, bestScore: real)

  const Initial := Stats(0, 0.0, 0, 0.0)

  /** The statistics after the attempts arrive: computed when there is at
      least one attempt, and otherwise left as they were. */
  function StatsOf(attempts: seq<QuizAttempt>, current: Stats): Stats
  {
    if |attempts| > 0 then
      Stats(|attempts|, SumScores(attempts) / |attempts| as real, SumTimes(attempts), BestScore(attempts))
    else current
  }

  /** A sum of scores none of which exceeds `b` is at most `b` per attempt. */
  lemma {:induction false} SumAtMost(xs: seq<QuizAttempt>, b: real)
    requires forall i :: 0 <= i < |xs| ==> xs[i].score <= b
    ensures SumScores(xs) <= |xs| as real * b
  {
    if xs != [] {
      assert forall i :: 0 <= i < |xs| - 1 ==> xs[1..][i] == xs[i + 1];
      SumAtMost(xs[1..], b);
    }
  }

  /** A sum of scores none of which is below `b` is at least `b` per attempt. */
  lemma {:induction false} SumAtLeast(xs: seq<QuizAttempt>, b: real)
    requires forall i :: 0 <= i < |xs| ==> b <= xs[i].score
    ensures |xs| as real * b <= SumScores(xs)
  {
    if xs != [] {
      assert forall i :: 0 <= i < |xs| - 1 ==> xs[1..][i] == xs[i + 1];
      SumAtLeast(xs[1..], b);
    }
  }

  /** With at least one attempt the statistics count the attempts, average
      their scores, add up their times and take the best score, which is
      some attempt's score, no lower than any, and no lower than the
      average. */
  lemma StatsSpec(attempts: seq<QuizAttempt>, current: Stats)
    requires attempts != []
    ensures var r := StatsOf(attempts, current);
      r.totalAttempts == |attempts|
      && r.averageScore * |attempts| as real == SumScores(attempts)
      && r.totalTimeSpent == SumTimes(attempts)
      && (forall i :: 0 <= i < |attempts| ==> attempts[i].score <= r.bestScore)
      && (exists i :: 0 <= i < |attempts| && attempts[i].score == r.bestScore)
      && r.averageScore <= r.bestScore
  {
    var n := |attempts| as real;
    var b := BestScore(attempts);
    var total := SumScores(attempts);
    var r := StatsOf(attempts, current);
    assert r == Stats(|attempts|, total / n, SumTimes(attempts), b);
    AverageTimesCount(attempts, current);
    SumAtMost(attempts, b);
    Mean(total, n, b);
  }

  lemma AverageTimesCount(attempts: seq<QuizAttempt>, current: Stats)
    requires attempts != []
    ensures StatsOf(attempts, current).averageScore * |attempts| as real == SumScores(attempts)
  {
    Times(StatsOf(attempts, current).averageScore, SumScores(attempts), |attempts| as real);
  }

  lemma Times(avg: real, total: real, n: real)
    requires n > 0.0 && avg == total / n
    ensures avg * n == total
  {
  }

  /** The mean of a total at most `n * b` is at most `b`. */
  lemma Mean(total: real, n: real, b: real)
    requires n > 0.0
    ensures total <= n * b ==> total / n <= b
    ensures n * b <= total ==> b <= total / n
  {
  }

  /** Scores between 0 and 100 give an average between 0 and 100, and so a
      rounded percentage in the same range. */
  lemma AverageInRange(attempts: seq<QuizAttempt>)
    requires attempts != []
    requires forall i :: 0 <= i < |attempts| ==> 0.0 <= attempts[i].score <= 100.0
    ensures var avg := StatsOf(attempts, Initial).averageScore;
      0.0 <= avg <= 100.0 && 0 <= QuizResult.Round(avg) <= 100
  {
    SumAtMost(attempts, 100.0);
    SumAtLeast(attempts, 0.0);
    Mean(SumScores(attempts), |attempts| as real, 100.0);
    Mean(SumScores(attempts), |attempts| as real, 0.0);
  }

  // ---------------------------------------------------------------------------
  // The page

  datatype Dashboard = Dashboard(categories: seq<Category>, recent: seq<QuizAttempt>, stats: Stats, loading: bool)

  function Start(): Dashboard
  {
    Dashboard([], [], Initial, true)
  }

  const RecentShown: nat := 5

  /** `fetchData`: the categories request first and the attempts request
      second; an exception in the first skips the second, a refused request
      leaves its part as it was, and loading ends in every case. */
  function Load(cats: Reply<seq<Category>>, attempts: Reply<seq<QuizAttempt>>): Dashboard
  {
    var s := Start();
    if cats.Threw? then s.(loading := false)
    else
      var categories := if cats.Delivered? then cats.data else s.categories;
      if attempts.Delivered? then
        Dashboard(categories, Take(attempts.data, RecentShown), StatsOf(attempts.data, s.stats), false)
      else Dashboard(categories, s.recent, s.stats, false)
  }

  /** The recent list is the first five attempts delivered, or all of them
      when there are fewer. */
  lemma RecentAttempts(cats: Reply<seq<Category>>, attempts: seq<QuizAttempt>)
    requires !cats.Threw?
    ensures var d := Load(cats, Delivered(attempts));
      d.recent <= attempts && |d.recent| == if |attempts| < RecentShown then |attempts| else RecentShown
  {
    TakeSpec(attempts, RecentShown);
  }

  /** Without attempts, or without an answer, the statistics stay at zero. */
  lemma NoAttemptsNoStats(cats: Reply<seq<Category>>, attempts: Reply<seq<QuizAttempt>>)
    requires attempts.Delivered? ==> attempts.data == []
    ensures Load(cats, attempts).stats == Initial
    ensures !Load(cats, attempts).loading
  {
  }

  // ---------------------------------------------------------------------------
  // Time and colour

  /** `formatTime`: hours and minutes, or minutes alone below an hour; the
      seconds are dropped. */
  function FormatTime(seconds: int): string
  {
    var (h, m, _) := QuizResult.DurationParts(seconds);
    if h > 0 then IntToString(h) + "h " + IntToString(m) + "m" else IntToString(m) + "m"
  }

  /** The dashboard's time is the result screen's without its seconds. */
  lemma FormatTimeDropsSeconds(seconds: int)
    ensures var (_, _, s) := QuizResult.DurationParts(seconds);
      QuizResult.FormatDuration(seconds) == FormatTime(seconds) + " " + IntToString(s) + "s"
  {
  }

  /** Hours are written exactly for an hour or more, and the minutes shown
      are the whole minutes past the hours. */
  lemma FormatTimeParts(seconds: nat)
    ensures var (h, m, _) := QuizResult.DurationParts(seconds);
      h * 3600 + m * 60 <= seconds < h * 3600 + m * 60 + 60 && 0 <= m < 60
      && (seconds >= 3600 <==> FormatTime(seconds) == IntToString(h) + "h " + IntToString(m) + "m")
  {
    var (h, m, s) := QuizResult.DurationParts(seconds);
    if seconds < 3600 {
      assert h == 0;
      var short := IntToString(m) + "m";
      assert |IntToString(h) + "h " + short| > |short|;
    }
  }

  /** A recent attempt's score colour: 80 and 60 are the thresholds. */
  function ScoreColour(score: real): (c: QuizResult.Colour)
    ensures c != QuizResult.Blue
  {
    if score >= 80.0 then QuizResult.Green
    else if score >= 60.0 then QuizResult.Yellow
    else QuizResult.Red
  }

  /** The dashboard is green exactly for an A or an A+, and red exactly where
      the result screen's colour is red. */
  lemma ScoreColourAgreesWithGrade(score: real)
    ensures ScoreColour(score) == QuizResult.Green <==> QuizResult.GradeOf(score) in {QuizResult.APlus, QuizResult.AGrade}
    ensures ScoreColour(score) == QuizResult.Red <==> QuizResult.GradeColour(score) == QuizResult.Red
  {
  }
}
