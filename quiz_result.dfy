/** The result screen of a quiz: it loads the saved attempt, ranks it among
    the attempts of the same category and quiz type, and shows a grade,
    a performance band, badges and a per-question review.

    Scores are percentages; the model computes them on exact reals. */
module QuizResult {
  import opened Wrappers
  import opened Types
  import opened Seqs
  import opened Text
  import Quiz

  /** `Math.round`: halves round up. */
  function Round(x: real): (n: int)
    ensures x - 0.5 < n as real <= x + 0.5
  {
    (x + 0.5).Floor
  }

  /** `Math.ceil`. */
  function Ceil(x: real): (n: int)
    ensures x <= n as real < x + 1.0
  {
    -((-x).Floor)
  }

  // ---------------------------------------------------------------------------
  // Ranking

  /** An attempt competes with the target when it has the same category and
      the same quiz type. */
  predicate SameGroup(a: QuizAttempt, target: QuizAttempt)
  {
    a.categoryId == target.categoryId && a.quizType == target.quizType
  }

  function InGroup(target: QuizAttempt): QuizAttempt -> bool
  {
    (a: QuizAttempt) => SameGroup(a, target)
  }

  predicate SortedByScore(s: seq<QuizAttempt>)
  {
    forall i, j :: 0 <= i < j < |s| ==> s[i].score >= s[j].score
  }

  /** Places `x` before the first element that does not score more than it. */
  function Insert(x: QuizAttempt, t: seq<QuizAttempt>): (r: seq<QuizAttempt>)
    requires SortedByScore(t)
    ensures SortedByScore(r)
    ensures multiset(r) == multiset(t) + multiset{x}
    ensures forall i :: 0 <= i < |r| ==> r[i] == x || r[i] in t
  {
    if t == [] || t[0].score <= x.score then [x] + t
    else
      var rest := Insert(x, t[1..]);
      InsertAfterHead(x, t, rest);
      [t[0]] + rest
  }

  /** The induction step of `Insert`: putting the head back in front of the
      insertion into the tail keeps the list sorted. */
  lemma InsertAfterHead(x: QuizAttempt, t: seq<QuizAttempt>, rest: seq<QuizAttempt>)
    requires SortedByScore(t) && t != [] && t[0].score > x.score
    requires SortedByScore(rest)
    requires multiset(rest) == multiset(t[1..]) + multiset{x}
    requires forall i :: 0 <= i < |rest| ==> rest[i] == x || rest[i] in t[1..]
    ensures SortedByScore([t[0]] + rest)
    ensures multiset([t[0]] + rest) == multiset(t) + multiset{x}
    ensures forall i :: 0 <= i < |[t[0]] + rest| ==> ([t[0]] + rest)[i] == x || ([t[0]] + rest)[i] in t
  {
    assert t == [t[0]] + t[1..];
    var r := [t[0]] + rest;
    forall i | 0 <= i < |rest| ensures rest[i].score <= t[0].score && (rest[i] == x || rest[i] in t) {
      if rest[i] != x {
        var j :| 0 <= j < |t[1..]| && t[1..][j] == rest[i];
        assert t[j + 1] == rest[i];
      }
    }
    forall i, j | 0 <= i < j < |r| ensures r[i].score >= r[j].score {
      assert r[j] == rest[j - 1];
      if i > 0 {
        assert r[i] == rest[i - 1];
      }
    }
    forall i | 0 <= i < |r| ensures r[i] == x || r[i] in t {
      if i > 0 {
        assert r[i] == rest[i - 1];
      }
    }
  }

  /** `sort((a, b) => b.score - a.score)`: highest score first, and a
      stable sort, so attempts with equal scores keep their order. */
  function SortByScore(s: seq<QuizAttempt>): (r: seq<QuizAttempt>)
    ensures SortedByScore(r)
    ensures multiset(r) == multiset(s)
  {
    if s == [] then []
    else
      assert s == [s[0]] + s[1..];
      Insert(s[0], SortByScore(s[1..]))
  }

  function ScoreIs(m: real): QuizAttempt -> bool
  {
    (a: QuizAttempt) => a.score == m
  }

  /** Inserting `x` puts it in front of every element of its own score, and
      leaves the order among the others as it was. */
  lemma {:induction false} InsertKeepsTies(x: QuizAttempt, t: seq<QuizAttempt>, m: real)
    requires SortedByScore(t)
    ensures Filter(Insert(x, t), ScoreIs(m)) == (if x.score == m then [x] else []) + Filter(t, ScoreIs(m))
  {
    if t == [] || t[0].score <= x.score {
      assert ([x] + t)[1..] == t;
    } else {
      var rest := Insert(x, t[1..]);
      assert SortedByScore(t[1..]) by {
        forall i, j | 0 <= i < j < |t[1..]| ensures t[1..][i].score >= t[1..][j].score {
          assert t[1..][i] == t[i + 1] && t[1..][j] == t[j + 1];
        }
      }
      InsertKeepsTies(x, t[1..], m);
      assert ([t[0]] + rest)[1..] == rest;
      assert !(x.score == m && t[0].score == m);
    }
  }

  /** The sort is stable: the attempts of any one score keep the order they
      had, as `Array.prototype.sort` guarantees. */
  lemma {:induction false} SortStable(s: seq<QuizAttempt>, m: real)
    ensures Filter(SortByScore(s), ScoreIs(m)) == Filter(s, ScoreIs(m))
  {
    if s != [] {
      InsertKeepsTies(s[0], SortByScore(s[1..]), m);
      SortStable(s[1..], m);
    }
  }

  /** `findIndex(a => a.id === id)`: the first position holding `id`, or -1. */
  function FindIndex(s: seq<QuizAttempt>, id: string): (i: int)
    ensures -1 <= i < |s|
    ensures i >= 0 ==> s[i].id == id
    ensures forall j :: 0 <= j < |s| && (i < 0 || j < i) ==> s[j].id != id
  {
    if s == [] then -1
    else if s[0].id == id then 0
    else
      var k := FindIndex(s[1..], id);
      if k < 0 then -1 else k + 1
  }

  /** The attempts competing with `target`, best first. */
  function Ranked(all: seq<QuizAttempt>, target: QuizAttempt): seq<QuizAttempt>
  {
    SortByScore(Filter(all, InGroup(target)))
  }

  /** The rank shown: 1 for the best, 0 when `attemptId` is not among them. */
  function Rank(all: seq<QuizAttempt>, target: QuizAttempt, attemptId: string): int
  {
    FindIndex(Ranked(all, target), attemptId) + 1
  }

  /** `Math.round(((total - rank) / total) * 100)`: the share of competitors
      ranked below; `None` for the NaN of an empty group. */
  function Percentile(total: nat, rank: int): Option<int>
  {
    if total == 0 then None else Some(Round((total - rank) as real / total as real * 100.0))
  }

  datatype RankData = RankData(rank: int, totalAttempts: nat, percentile: Option<int>)

  function ComputeRank(all: seq<QuizAttempt>, target: QuizAttempt, attemptId: string): RankData
  {
    var group := Filter(all, InGroup(target));
    var rank := Rank(all, target, attemptId);
    RankData(rank, |group|, Percentile(|group|, rank))
  }

  /** `attemptId` competes with `target` in `all`. */
  predicate Competes(all: seq<QuizAttempt>, target: QuizAttempt, attemptId: string)
  {
    exists i :: 0 <= i < |all| && all[i].id == attemptId && SameGroup(all[i], target)
  }

  /** The rank lies between 1 and the number of competitors exactly when the
      attempt competes, and is 0 otherwise. */
  lemma RankRange(all: seq<QuizAttempt>, target: QuizAttempt, attemptId: string)
    ensures var r := ComputeRank(all, target, attemptId);
      0 <= r.rank <= r.totalAttempts
      && (r.rank >= 1 <==> Competes(all, target, attemptId))
  {
    var group := Filter(all, InGroup(target));
    var ranked := Ranked(all, target);
    var k := FindIndex(ranked, attemptId);
    assert |ranked| == |multiset(ranked)| == |multiset(group)| == |group|;
    if k >= 0 {
      RankedCompetes(all, target, ranked[k]);
    }
    if Competes(all, target, attemptId) {
      var i :| 0 <= i < |all| && all[i].id == attemptId && SameGroup(all[i], target);
      CompetitorRanked(all, target, i);
    }
  }

  /** Every ranked attempt is one of `all` in the target's group. */
  lemma RankedCompetes(all: seq<QuizAttempt>, target: QuizAttempt, x: QuizAttempt)
    requires x in Ranked(all, target)
    ensures exists i :: 0 <= i < |all| && all[i] == x && SameGroup(x, target)
  {
    var group := Filter(all, InGroup(target));
    assert x in multiset(Ranked(all, target));
    assert x in multiset(group);
    var j :| 0 <= j < |group| && group[j] == x;
    assert x in all && InGroup(target)(x);
  }

  /** Every attempt of `all` in the target's group is ranked. */
  lemma CompetitorRanked(all: seq<QuizAttempt>, target: QuizAttempt, i: nat)
    requires i < |all| && SameGroup(all[i], target)
    ensures all[i] in Ranked(all, target)
  {
    assert InGroup(target)(all[i]);
    assert all[i] in Filter(all, InGroup(target));
    assert all[i] in multiset(Ranked(all, target));
  }

  function Above(m: real): QuizAttempt -> bool
  {
    (a: QuizAttempt) => a.score > m
  }

  function AtLeast(m: real): QuizAttempt -> bool
  {
    (a: QuizAttempt) => a.score >= m
  }

  /** In a list sorted by score, nothing after position `k` scores more. */
  lemma AboveOnlyBefore(r: seq<QuizAttempt>, k: nat)
    requires SortedByScore(r) && k < |r|
    ensures Count(r, Above(r[k].score)) <= k
  {
    var m := r[k].score;
    var pre, post := r[..k], r[k..];
    assert r == pre + post;
    CountAppend(pre, post, Above(m));
    CountAtMostLength(pre, Above(m));
    assert forall i :: 0 <= i < |post| ==> post[i] == r[k + i];
    CountNone(post, Above(m));
  }

  /** In a list sorted by score, everything up to position `k` scores at least as much. */
  lemma AtLeastUpTo(r: seq<QuizAttempt>, k: nat)
    requires SortedByScore(r) && k < |r|
    ensures Count(r, AtLeast(r[k].score)) >= k + 1
  {
    var m := r[k].score;
    forall i | 0 <= i < k + 1 ensures AtLeast(m)(r[i]) {
      assert r[i].score >= m;
    }
    CountPrefix(r, AtLeast(m), k + 1);
  }

  /** Rank means position by score: the ranked attempt, with score `m`, comes
      after every competitor scoring more than `m` and no later than the
      last competitor scoring `m`; exactly, it is one more than the number
      scoring more, plus its position among those scoring `m` in the order
      of `all`, since the sort is stable. */
  lemma RankByScore(all: seq<QuizAttempt>, target: QuizAttempt, attemptId: string)
    requires Rank(all, target, attemptId) >= 1
    ensures var group := Filter(all, InGroup(target));
      var rank := Rank(all, target, attemptId);
      var m := Ranked(all, target)[rank - 1].score;
      Count(group, Above(m)) + 1 <= rank <= Count(group, AtLeast(m))
      && rank == Count(group, Above(m)) + FindIndex(Filter(group, ScoreIs(m)), attemptId) + 1
  {
    var group := Filter(all, InGroup(target));
    var r := Ranked(all, target);
    var k := FindIndex(r, attemptId);
    AboveOnlyBefore(r, k);
    AtLeastUpTo(r, k);
    CountPermutation(r, group, Above(r[k].score));
    CountPermutation(r, group, AtLeast(r[k].score));
    RankSplit(r, k, attemptId);
    SortStable(group, r[k].score);
  }

  /** Every element of a list in which none scores below `m` either scores
      more than `m` or exactly `m`. */
  lemma {:induction false} AboveOrTied(xs: seq<QuizAttempt>, m: real)
    requires forall i :: 0 <= i < |xs| ==> xs[i].score >= m
    ensures Count(xs, Above(m)) + Count(xs, ScoreIs(m)) == |xs|
  {
    if xs != [] {
      assert forall i :: 0 <= i < |xs| - 1 ==> xs[1..][i] == xs[i + 1];
      AboveOrTied(xs[1..], m);
    }
  }

  /** An id missing from `a` and at the head of `b` is found at `|a|`. */
  lemma {:induction false} FindIndexAfter(a: seq<QuizAttempt>, b: seq<QuizAttempt>, id: string)
    requires forall i :: 0 <= i < |a| ==> a[i].id != id
    requires b != [] && b[0].id == id
    ensures FindIndex(a + b, id) == |a|
  {
    if a == [] {
      assert a + b == b;
    } else {
      assert (a + b)[1..] == a[1..] + b;
      FindIndexAfter(a[1..], b, id);
    }
  }

  /** The ranking splits at the ranked attempt: the attempts before it score
      more or tie with it, and among the tied ones it comes next. */
  lemma RankSplit(r: seq<QuizAttempt>, k: nat, id: string)
    requires SortedByScore(r) && k < |r| && r[k].id == id
    requires forall j :: 0 <= j < k ==> r[j].id != id
    ensures var m := r[k].score;
      k == Count(r, Above(m)) + FindIndex(Filter(r, ScoreIs(m)), id)
  {
    var m := r[k].score;
    assert forall i :: 0 <= i < k ==> r[..k][i] == r[i];
    AboveOrTied(r[..k], m);
    AboveBefore(r, k);
    TiedBefore(r, k, id);
  }

  /** Everything scoring more than `r[k]` comes before it. */
  lemma AboveBefore(r: seq<QuizAttempt>, k: nat)
    requires SortedByScore(r) && k < |r|
    ensures Count(r, Above(r[k].score)) == Count(r[..k], Above(r[k].score))
  {
    var m := r[k].score;
    var pre, post := r[..k], r[k..];
    assert r == pre + post;
    CountAppend(pre, post, Above(m));
    assert forall i :: 0 <= i < |post| ==> post[i] == r[k + i];
    CountNone(post, Above(m));
  }

  /** Among the attempts tied with `r[k]`, it comes after the tied ones
      before it. */
  lemma TiedBefore(r: seq<QuizAttempt>, k: nat, id: string)
    requires k < |r| && r[k].id == id
    requires forall j :: 0 <= j < k ==> r[j].id != id
    ensures FindIndex(Filter(r, ScoreIs(r[k].score)), id) == Count(r[..k], ScoreIs(r[k].score))
  {
    var m := r[k].score;
    var pre, post := r[..k], r[k..];
    assert r == pre + post;
    FilterAppend(pre, post, ScoreIs(m));
    var fp := Filter(pre, ScoreIs(m));
    assert post == [r[k]] + post[1..];
    assert Filter(post, ScoreIs(m)) == [r[k]] + Filter(post[1..], ScoreIs(m));
    forall i | 0 <= i < |fp| ensures fp[i].id != id {
      var j :| 0 <= j < |pre| && pre[j] == fp[i];
      assert pre[j] == r[j];
    }
    FindIndexAfter(fp, Filter(post, ScoreIs(m)), id);
    CountIsFilterLength(pre, ScoreIs(m));
  }

  /** The percentile of a ranked attempt lies between 0 and 100; the last
      place gets 0, so a sole participant is at the 0th percentile, and an
      attempt missing from the ranking (rank 0) gets 100. */
  lemma PercentileBounds(total: nat, rank: int)
    requires total > 0 && 0 <= rank <= total
    ensures Percentile(total, rank).Some?
    ensures 0 <= Percentile(total, rank).value <= 100
    ensures rank == total ==> Percentile(total, rank).value == 0
    ensures rank == 0 ==> Percentile(total, rank).value == 100
  {
    Quiz.Share(total - rank, total);
  }


  /** A better (smaller) rank never has a lower percentile. */
  lemma PercentileMonotone(total: nat, r1: int, r2: int)
    requires total > 0 && r1 <= r2
    ensures Percentile(total, r1).value >= Percentile(total, r2).value
  {
    var f1 := (total - r1) as real / total as real;
    var f2 := (total - r2) as real / total as real;
    assert f1 * total as real == (total - r1) as real;
    assert f2 * total as real == (total - r2) as real;
    assert f1 >= f2;
  }

  // ---------------------------------------------------------------------------
  // Grade, colour, message

  datatype Grade = APlus | AGrade | BPlus | BGrade | CGrade | FGrade {
    function Label(): string
    {
      match this
      case APlus => "A+"
      case AGrade => "A"
      case BPlus => "B+"
      case BGrade => "B"
      case CGrade => "C"
      case FGrade => "F"
    }

    /** 5 for the best grade down to 0 for F. */
    function Level(): nat
    {
      match this
      case APlus => 5
      case AGrade => 4
      case BPlus => 3
      case BGrade => 2
      case CGrade => 1
      case FGrade => 0
    }
  }

  /** The grade ladder: 90, 80, 70, 60 and 50 are the lower bounds. */
  function GradeOf(score: real): (g: Grade)
    ensures g == APlus <==> score >= 90.0
    ensures g == AGrade <==> 80.0 <= score < 90.0
    ensures g == BPlus <==> 70.0 <= score < 80.0
    ensures g == BGrade <==> 60.0 <= score < 70.0
    ensures g == CGrade <==> 50.0 <= score < 60.0
    ensures g == FGrade <==> score < 50.0
  {
    if score >= 90.0 then APlus
    else if score >= 80.0 then AGrade
    else if score >= 70.0 then BPlus
    else if score >= 60.0 then BGrade
    else if score >= 50.0 then CGrade
    else FGrade
  }

  /** A higher score never gets a lower grade. */
  lemma GradeMonotone(s1: real, s2: real)
    requires s1 <= s2
    ensures GradeOf(s1).Level() <= GradeOf(s2).Level()
  {
  }

  datatype Colour = Green | Blue | Yellow | Red

  /** The grade badge's colour, on a coarser ladder: 90, 75 and 60. */
  function GradeColour(score: real): Colour
  {
    if score >= 90.0 then Green
    else if score >= 75.0 then Blue
    else if score >= 60.0 then Yellow
    else Red
  }

  /** The colour agrees with the grade: green is A+ only, red is C or F
      only, and blue takes in the upper half of B+. */
  lemma ColourAgreesWithGrade(score: real)
    ensures GradeColour(score) == Green <==> GradeOf(score) == APlus
    ensures GradeColour(score) == Red <==> GradeOf(score).Level() <= 1
    ensures GradeColour(score) == Yellow ==> GradeOf(score) in {BPlus, BGrade}
    ensures GradeColour(score) == Blue ==> GradeOf(score) in {AGrade, BPlus}
  {
  }

  const Messages: seq<string> := [
    "Don't give up! Practice makes perfect! \U{1F3AF}",
    "Keep practicing! You'll get better! \U{1F4AA}",
    "Not bad! There's room for improvement! \U{1F4DA}",
    "Good job! You're on the right track! \U{1F44D}",
    "Excellent work! Keep it up! \U{1F389}",
    "Outstanding! You're a star! \U{1F31F}"]

  /** The performance message, on the same thresholds as the grade. */
  function PerformanceMessage(score: real): string
  {
    if score >= 90.0 then Messages[5]
    else if score >= 80.0 then Messages[4]
    else if score >= 70.0 then Messages[3]
    else if score >= 60.0 then Messages[2]
    else if score >= 50.0 then Messages[1]
    else Messages[0]
  }

  /** The message is the grade's: the six messages are distinct and the one
      shown is indexed by the grade's level. */
  lemma MessageAgreesWithGrade(score: real)
    ensures PerformanceMessage(score) == Messages[GradeOf(score).Level()]
    ensures forall i, j :: 0 <= i < j < |Messages| ==> Messages[i] != Messages[j]
  {
    assert Messages[0][0] == 'D' && Messages[1][0] == 'K' && Messages[2][0] == 'N';
    assert Messages[3][0] == 'G' && Messages[4][0] == 'E' && Messages[5][0] == 'O';
  }

  // ---------------------------------------------------------------------------
  // Band and badges

  datatype Band = Top10 | Top25 | Top50 | Bottom50

  /** The performance band: rank at most 10%, 25%, 50% of the participants. */
  function PerformanceBand(rank: int, total: nat): Band
  {
    if rank as real <= total as real * 0.1 then Top10
    else if rank as real <= total as real * 0.25 then Top25
    else if rank as real <= total as real * 0.5 then Top50
    else Bottom50
  }

  /** The Excellence, High Achiever, Top 10% and Speed Master badges. */
  predicate ExcellenceBadge(score: real) { score >= 90.0 }
  predicate HighAchieverBadge(score: real) { score >= 80.0 }
  predicate Top10Badge(rank: int, total: nat) { rank <= Ceil(total as real * 0.1) }

  /** Twenty minutes for a short quiz, two hours for a full one. */
  predicate SpeedMasterBadge(timeTaken: int, kind: QuizType)
  {
    timeTaken <= if kind == Short then 1200 else 7200
  }

  /** Speed Master is earned by finishing within two thirds of the quiz's
      time limit. */
  lemma SpeedMasterWithinTwoThirds(timeTaken: int, kind: QuizType)
    ensures SpeedMasterBadge(timeTaken, kind) <==> 3 * timeTaken <= 2 * Quiz.Duration(kind)
  {
  }

  /** Bands are nested and the badges are consistent with them: a better rank
      is never in a worse band, Excellence implies High Achiever, and the
      Top 10% band implies the Top 10% badge. */
  lemma BandsAndBadges(r1: int, r2: int, total: nat, score: real)
    requires r1 <= r2
    ensures PerformanceBand(r2, total) == Top10 ==> PerformanceBand(r1, total) == Top10
    ensures PerformanceBand(r1, total) == Bottom50 ==> PerformanceBand(r2, total) == Bottom50
    ensures ExcellenceBadge(score) ==> HighAchieverBadge(score)
    ensures PerformanceBand(r1, total) == Top10 ==> Top10Badge(r1, total)
    ensures Top10Badge(r2, total) ==> Top10Badge(r1, total)
  {
  }

  /** The badge rounds the 10% up and the band does not: a sole participant,
      or the first of up to nine, gets the Top 10% badge while the band
      calls the sole participant Bottom 50%. */
  lemma BadgeAndBandDisagree()
    ensures Top10Badge(1, 1) && PerformanceBand(1, 1) == Bottom50
    ensures forall n: nat :: 1 <= n <= 9 ==> Top10Badge(1, n) && PerformanceBand(1, n) != Top10
  {
    forall n: nat | 1 <= n <= 9 ensures Top10Badge(1, n) && PerformanceBand(1, n) != Top10 {
      assert Ceil(n as real * 0.1) == 1;
    }
    assert Ceil(0.1) == 1;
  }

  // ---------------------------------------------------------------------------
  // Time and the per-question review

  lemma Mod60(a: int, q: int, r: int)
    requires a == 60 * q + r && 0 <= r < 60
    ensures a % 60 == r
  {
  }

  /** Hours, minutes and seconds of a duration, with JavaScript arithmetic:
      `Math.floor(s / 3600)`, `Math.floor((s % 3600) / 60)`, `s % 60`. */
  function DurationParts(seconds: int): (p: (int, int, int))
    ensures seconds >= 0 ==> p.0 >= 0 && 0 <= p.1 < 60 && 0 <= p.2 < 60
    ensures seconds >= 0 ==> p.0 * 3600 + p.1 * 60 + p.2 == seconds
  {
    var h := seconds / 3600;
    var m := JsRem(seconds, 3600) / 60;
    var s := JsRem(seconds, 60);
    if seconds >= 0 then
      var rest := seconds % 3600;
      assert seconds == 3600 * h + rest;
      assert rest == 60 * m + rest % 60;
      assert seconds == 60 * (60 * h + m) + rest % 60;
      Mod60(seconds, 60 * h + m, rest % 60);
      (h, m, s)
    else
      (h, m, s)
  }

  /** `1h 2m 3s`, or `2m 3s` below an hour. */
  function FormatDuration(seconds: int): string
  {
    var (h, m, s) := DurationParts(seconds);
    if h > 0 then IntToString(h) + "h " + IntToString(m) + "m " + IntToString(s) + "s"
    else IntToString(m) + "m " + IntToString(s) + "s"
  }

  /** The hours appear exactly for a duration of an hour or more. */
  lemma FormatDurationShowsHours(seconds: int)
    ensures var f := FormatDuration(seconds);
      seconds >= 3600 <==> f != IntToString(DurationParts(seconds).1) + "m " + IntToString(DurationParts(seconds).2) + "s"
  {
    var (h, m, s) := DurationParts(seconds);
    if seconds >= 3600 {
      var f := FormatDuration(seconds);
      var short := IntToString(m) + "m " + IntToString(s) + "s";
      assert f == IntToString(h) + "h " + short;
      assert |f| > |short|;
    }
  }

  /** The review's green and red frames: one mark per question. */
  function ReviewMarks(qs: seq<Question>, answers: map<string, Letter>): (r: seq<bool>)
    ensures |r| == |qs|
    ensures forall i :: 0 <= i < |qs| ==> r[i] == Quiz.AnsweredCorrectly(answers, qs[i])
  {
    seq(|qs|, i requires 0 <= i < |qs| => Quiz.AnsweredCorrectly(answers, qs[i]))
  }

  function IsTrue(b: bool): bool { b }

  /** The review agrees with the score: it frames as correct exactly as many
      questions as the quiz counted. */
  lemma {:induction false} ReviewAgreesWithScore(qs: seq<Question>, answers: map<string, Letter>)
    ensures Count(ReviewMarks(qs, answers), IsTrue) == Quiz.CorrectCount(qs, answers)
  {
    if qs != [] {
      ReviewAgreesWithScore(qs[1..], answers);
      assert ReviewMarks(qs, answers)[1..] == ReviewMarks(qs[1..], answers);
    }
  }

  // ---------------------------------------------------------------------------
  // The screen

  datatype ResultScreen = Loading | NotFound | Results

  class ResultView {
    const attemptId: string
    var attempt: Option<QuizAttempt>
    var rankData: RankData
    var loading: bool

    constructor (id: string)
      ensures attemptId == id && attempt == None && loading
      ensures rankData == RankData(0, 0, Some(0))
    {
      attemptId := id;
      attempt := None;
      rankData := RankData(0, 0, Some(0));
      loading := true;
    }

    function Screen(): (s: ResultScreen)
      reads this
      ensures s == Results <==> !loading && attempt.Some?
    {
      if loading then Loading else if attempt.None? then NotFound else Results
    }

    /** Loads the attempt, then every attempt, and ranks. Each argument is
        the reply of one request: `None` when it was not OK or failed, which
        keeps the initial {0, 0, 0} ranking. */
    method FetchResults(attemptReply: Option<QuizAttempt>, allReply: Option<seq<QuizAttempt>>)
      modifies this`attempt, this`rankData, this`loading
      ensures !loading
      ensures attempt == if attemptReply.Some? then attemptReply else old(attempt)
      ensures rankData == if attemptReply.Some? && allReply.Some?
        then ComputeRank(allReply.value, attemptReply.value, attemptId)
        else old(rankData)
    {
      if attemptReply.Some? {
        attempt := attemptReply;
        if allReply.Some? {
          var all := allReply.value;
          var target := attemptReply.value;
          var group := Filter(all, InGroup(target));
          var ranked := SortByScore(group);
          var rank := FindIndex(ranked, attemptId) + 1;
          rankData := RankData(rank, |ranked|, Percentile(|ranked|, rank));
          assert |ranked| == |multiset(ranked)| == |group|;
        }
      }
      loading := false;
    }
  }
}
