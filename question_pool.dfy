/** The questions endpoint: all questions, or those of one category when a
    category id is given, in a random order, cut to 20 for a short quiz and
    100 for a full one.

    The store is a parameter: its reply to the query, either an error or the
    rows of the questions table. The random order is any permutation, chosen
    nondeterministically. */
module QuestionPool {
  import opened Wrappers
  import opened Types
  import opened Seqs

  datatype StoreReply = StoreError(message: string) | Table(rows: Option<seq<Question>>)

  datatype PoolResponse = Failure(status: nat, error: string) | Served(questions: seq<Question>)

  /** How many questions a quiz type receives; no limit for any other value. */
  function Cap(quizType: Option<string>): (c: Option<nat>)
    ensures c.Some? <==> quizType == Some("short") || quizType == Some("full")
  {
    if quizType == Some("short") then Some(20)
    else if quizType == Some("full") then Some(100)
    else None
  }

  /** The category filter applies only when the parameter is non-empty. */
  predicate Matches(categoryId: Option<string>, q: Question)
  {
    !Truthy(categoryId) || q.categoryId == categoryId.value
  }

  /** The rows the query selects. */
  function Selection(rows: seq<Question>, categoryId: Option<string>): seq<Question>
  {
    Filter(rows, q => Matches(categoryId, q))
  }

  /** The number of questions served from a pool of `n`. */
  function ServedCount(n: nat, cap: Option<nat>): nat
  {
    match cap
    case None => n
    case Some(c) => if n <= c then n else c
  }

  /** The handler. A store error gives a 500; otherwise the selection is
      shuffled and cut. The served questions all match the category, come
      from the selection without repetition beyond it, and number the cap or
      the whole selection, whichever is smaller. */
  method GetQuestions(categoryId: Option<string>, quizType: Option<string>, store: StoreReply)
    returns (r: PoolResponse)
    ensures store.StoreError? <==> r == Failure(500, "Failed to fetch questions")
    ensures store.Table? ==> r.Served?
    ensures store.Table? ==>
      var pool := Selection(store.rows.GetOr([]), categoryId);
      |r.questions| == ServedCount(|pool|, Cap(quizType))
      && multiset(r.questions) <= multiset(pool)
      && (Cap(quizType).None? ==> multiset(r.questions) == multiset(pool))
      && forall i :: 0 <= i < |r.questions| ==> Matches(categoryId, r.questions[i])
  {
    if store.StoreError? {
      return Failure(500, "Failed to fetch questions");
    }
    var questions := Selection(store.rows.GetOr([]), categoryId);
    var pool := questions;
    if |questions| > 0 {
      assert multiset(questions) == multiset(questions);
      var shuffled :| multiset(shuffled) == multiset(questions);
      questions := shuffled;
      assert |questions| == |multiset(questions)| == |pool|;
      if quizType == Some("short") {
        TakeMultiset(questions, 20);
        questions := Take(questions, 20);
      } else if quizType == Some("full") {
        TakeMultiset(questions, 100);
        questions := Take(questions, 100);
      }
    }
    SelectedMatch(store.rows.GetOr([]), categoryId, questions);
    r := Served(questions);
  }

  /** Questions drawn from the selection all match its category. */
  lemma SelectedMatch(rows: seq<Question>, categoryId: Option<string>, qs: seq<Question>)
    requires multiset(qs) <= multiset(Selection(rows, categoryId))
    ensures forall i :: 0 <= i < |qs| ==> Matches(categoryId, qs[i])
  {
    var pool := Selection(rows, categoryId);
    forall i | 0 <= i < |qs| ensures Matches(categoryId, qs[i]) {
      assert qs[i] in multiset(pool);
    }
  }
}
