/** The administrators' question bank: every question, newest first, with a
    serial number within its category, three difficulty counts, and a list
    narrowed by a search term, a category and a difficulty.

    The store's answers and the confirmation dialog are parameters. */
module AdminQuestions {
  import opened Wrappers
  import opened Types
  import opened Seqs
  import opened Text

  // ---------------------------------------------------------------------------
  // Serial numbers

  /** One step of the second pass. The map holds both the question serials,
      under question ids, and each category's running counter, under the
      category id; a question already in the map keeps its number. */
  function SerialStep(m: map<string, nat>, q: Question): map<string, nat>
  {
    if q.id in m then m
    else
      var n := (if q.categoryId in m then m[q.categoryId] else 0) + 1;
      m[q.id := n][q.categoryId := n]
  }

  /** The map after the second pass over `qs`, in list order. */
  function Serials(qs: seq<Question>): map<string, nat>
  {
    if qs == [] then map[] else SerialStep(Serials(qs[..|qs| - 1]), qs[|qs| - 1])
  }

  function InCategory(c: string): Question -> bool
  {
    (q: Question) => q.categoryId == c
  }

  function CategoriesOf(qs: seq<Question>): set<string>
  {
    set i | 0 <= i < |qs| :: qs[i].categoryId
  }

  /** The serial-number effect's two passes. The first pass's per-category
      counts are computed and returned, though the page never reads them. */
  method ComputeSerials(qs: seq<Question>) returns (serials: map<string, nat>, counts: map<string, nat>)
    ensures serials == Serials(qs)
    ensures counts.Keys == CategoriesOf(qs)
    ensures forall c :: c in counts ==> counts[c] == Count(qs, InCategory(c))
  {
    counts := map[];
    var i := 0;
    while i < |qs|
      invariant 0 <= i <= |qs|
      invariant counts.Keys == CategoriesOf(qs[..i])
      invariant forall c :: c in counts ==> counts[c] == Count(qs[..i], InCategory(c))
    {
      var c := qs[i].categoryId;
      CountsStep(qs, i, counts);
      counts := counts[c := (if c in counts then counts[c] else 0) + 1];
      i := i + 1;
    }
    assert qs[..|qs|] == qs;
    serials := map[];
    i := 0;
    while i < |qs|
      invariant 0 <= i <= |qs|
      invariant serials == Serials(qs[..i])
    {
      SerialsPrefix(qs, i);
      serials := SerialStep(serials, qs[i]);
      i := i + 1;
    }
  }

  /** One step of the first pass: adding one to the question's category
      keeps the counts equal to the prefix's. */
  lemma CountsStep(qs: seq<Question>, i: nat, counts: map<string, nat>)
    requires i < |qs|
    requires counts.Keys == CategoriesOf(qs[..i])
    requires forall c :: c in counts ==> counts[c] == Count(qs[..i], InCategory(c))
    ensures var c := qs[i].categoryId;
      var next := counts[c := (if c in counts then counts[c] else 0) + 1];
      next.Keys == CategoriesOf(qs[..i + 1])
      && forall d :: d in next ==> next[d] == Count(qs[..i + 1], InCategory(d))
  {
    var c := qs[i].categoryId;
    assert qs[..i + 1] == qs[..i] + [qs[i]];
    PrefixCategories(qs, i);
    forall d ensures Count(qs[..i + 1], InCategory(d)) == Count(qs[..i], InCategory(d)) + (if d == c then 1 else 0) {
      CountAppend(qs[..i], [qs[i]], InCategory(d));
    }
    if c !in counts {
      CountNoneOutside(qs[..i], c);
    }
  }

  lemma PrefixCategories(qs: seq<Question>, i: nat)
    requires i < |qs|
    ensures CategoriesOf(qs[..i + 1]) == CategoriesOf(qs[..i]) + {qs[i].categoryId}
  {
    LastAdded(qs[..i + 1]);
    assert qs[..i + 1][..i] == qs[..i];
  }

  lemma SerialsPrefix(qs: seq<Question>, i: nat)
    requires i < |qs|
    ensures Serials(qs[..i + 1]) == SerialStep(Serials(qs[..i]), qs[i])
  {
    assert qs[..i + 1][..i] == qs[..i];
  }

  /** A category none of the questions has counts none of them. */
  lemma CountNoneOutside(qs: seq<Question>, c: string)
    requires c !in CategoriesOf(qs)
    ensures Count(qs, InCategory(c)) == 0
  {
    forall i | 0 <= i < |qs| ensures !InCategory(c)(qs[i]) {
      assert qs[i].categoryId in CategoriesOf(qs);
    }
    CountNone(qs, InCategory(c));
  }

  /** Question ids are distinct, and no question id is also a category id. */
  predicate Distinct(qs: seq<Question>)
  {
    (forall i, j :: 0 <= i < j < |qs| ==> qs[i].id != qs[j].id)
    && (forall i, j :: 0 <= i < |qs| && 0 <= j < |qs| ==> qs[i].id != qs[j].categoryId)
  }

  function IdsOf(qs: seq<Question>): set<string>
  {
    set i | 0 <= i < |qs| :: qs[i].id
  }

  lemma LastAdded(qs: seq<Question>)
    requires qs != []
    ensures IdsOf(qs) == IdsOf(qs[..|qs| - 1]) + {qs[|qs| - 1].id}
    ensures CategoriesOf(qs) == CategoriesOf(qs[..|qs| - 1]) + {qs[|qs| - 1].categoryId}
  {
    var front := qs[..|qs| - 1];
    forall k | k in IdsOf(qs) ensures k in IdsOf(front) + {qs[|qs| - 1].id} {
      var i :| 0 <= i < |qs| && qs[i].id == k;
      if i < |front| {
        assert front[i] == qs[i];
      }
    }
    forall k | k in CategoriesOf(qs) ensures k in CategoriesOf(front) + {qs[|qs| - 1].categoryId} {
      var i :| 0 <= i < |qs| && qs[i].categoryId == k;
      if i < |front| {
        assert front[i] == qs[i];
      }
    }
    forall k | k in IdsOf(front) ensures k in IdsOf(qs) {
      var i :| 0 <= i < |front| && front[i].id == k;
      assert qs[i] == front[i];
    }
    forall k | k in CategoriesOf(front) ensures k in CategoriesOf(qs) {
      var i :| 0 <= i < |front| && front[i].categoryId == k;
      assert qs[i] == front[i];
    }
  }

  /** The map's keys are question ids and categories. */
  lemma {:induction false} SerialsKeys(qs: seq<Question>)
    ensures Serials(qs).Keys <= IdsOf(qs) + CategoriesOf(qs)
  {
    if qs != [] {
      SerialsKeys(qs[..|qs| - 1]);
      LastAdded(qs);
    }
  }

  /** With distinct ids, the earlier questions have distinct ids, and the
      last question's id and category are no earlier question's id. */
  lemma FreshLast(qs: seq<Question>)
    requires Distinct(qs) && qs != []
    ensures var front, q := qs[..|qs| - 1], qs[|qs| - 1];
      Distinct(front) && q.id !in IdsOf(front) + CategoriesOf(front) && q.categoryId !in IdsOf(front)
  {
    var n := |qs|;
    var front, q := qs[..n - 1], qs[n - 1];
    forall i, j | 0 <= i < |front| && 0 <= j < |front| ensures front[i].id != front[j].categoryId {
      assert qs[i].id != qs[j].categoryId;
    }
  }

  /** With distinct ids the last question is new to the map, and its
      category's counter then holds the number of earlier questions of it. */
  lemma {:induction false} LastStep(qs: seq<Question>)
    requires Distinct(qs) && qs != []
    ensures var front, q := qs[..|qs| - 1], qs[|qs| - 1];
      var k := Count(front, InCategory(q.categoryId));
      Distinct(front)
      && Serials(qs) == Serials(front)[q.id := k + 1][q.categoryId := k + 1]
      && Count(qs, InCategory(q.categoryId)) == k + 1
    decreases |qs|, 0
  {
    var n := |qs|;
    var front, q := qs[..n - 1], qs[n - 1];
    var c := q.categoryId;
    FreshLast(qs);
    PreviousCounter(front, q);
    var k := Count(front, InCategory(c));
    assert Serials(qs) == SerialStep(Serials(front), q);
    assert Serials(qs) == Serials(front)[q.id := k + 1][c := k + 1];
    assert qs == front + [q];
    CountAppend(front, [q], InCategory(c));
  }

  /** Before a question new to the list is numbered, its id is not in the
      map and its category's counter holds the number of earlier questions
      of that category. */
  lemma PreviousCounter(front: seq<Question>, q: Question)
    requires Distinct(front)
    requires q.id !in IdsOf(front) + CategoriesOf(front) && q.categoryId !in IdsOf(front)
    ensures q.id !in Serials(front)
    ensures (if q.categoryId in Serials(front) then Serials(front)[q.categoryId] else 0)
      == Count(front, InCategory(q.categoryId))
    decreases |front|, 2
  {
    var c := q.categoryId;
    SerialsKeys(front);
    CounterFacts(front);
    if c !in CategoriesOf(front) {
      CountNoneOutside(front, c);
    }
  }

  /** With distinct ids, the counter kept under a category id is the number
      of questions in that category. */
  lemma {:induction false} CounterFacts(qs: seq<Question>)
    requires Distinct(qs)
    ensures forall c :: c in CategoriesOf(qs) ==> c in Serials(qs) && Serials(qs)[c] == Count(qs, InCategory(c))
    decreases |qs|, 1
  {
    if qs != [] {
      var n := |qs|;
      var front, q := qs[..n - 1], qs[n - 1];
      LastStep(qs);
      FreshLast(qs);
      CounterFacts(front);
      LastAdded(qs);
      assert q.id != q.categoryId by {
        assert qs[n - 1].id != qs[n - 1].categoryId;
      }
      forall d | d in CategoriesOf(qs)
        ensures d in Serials(qs) && Serials(qs)[d] == Count(qs, InCategory(d))
      {
        CounterStep(qs, d);
      }
    }
  }

  /** The step of `CounterFacts` for one category `d`, once the last
      question of `qs` has been numbered after the ones before it. */
  lemma CounterStep(qs: seq<Question>, d: string)
    requires qs != []
    requires var front, q := qs[..|qs| - 1], qs[|qs| - 1];
      var k := Count(front, InCategory(q.categoryId));
      Serials(qs) == Serials(front)[q.id := k + 1][q.categoryId := k + 1]
      && Count(qs, InCategory(q.categoryId)) == k + 1
    requires d in CategoriesOf(qs[..|qs| - 1]) + {qs[|qs| - 1].categoryId} && d != qs[|qs| - 1].id
    requires var front := qs[..|qs| - 1];
      forall c :: c in CategoriesOf(front) ==> c in Serials(front) && Serials(front)[c] == Count(front, InCategory(c))
    ensures d in Serials(qs) && Serials(qs)[d] == Count(qs, InCategory(d))
  {
    var front, q := qs[..|qs| - 1], qs[|qs| - 1];
    if d != q.categoryId {
      assert qs == front + [q];
      CountAppend(front, [q], InCategory(d));
      assert Count([q], InCategory(d)) == 0;
    }
  }

  /** Within each category the questions are numbered 1, 2, 3, ... in list
      order: a question's serial is the number of questions of its category
      up to and including it. */
  lemma SerialsSpec(qs: seq<Question>)
    requires Distinct(qs)
    ensures forall i :: 0 <= i < |qs| ==>
      qs[i].id in Serials(qs) && Serials(qs)[qs[i].id] == Count(qs[..i + 1], InCategory(qs[i].categoryId))
  {
    forall i | 0 <= i < |qs|
      ensures qs[i].id in Serials(qs) && Serials(qs)[qs[i].id] == Count(qs[..i + 1], InCategory(qs[i].categoryId))
    {
      SerialAt(qs, i);
    }
  }

  /** The serial of the question at one position, by induction on the
      questions after it. */
  lemma {:induction false} SerialAt(qs: seq<Question>, i: nat)
    requires Distinct(qs) && i < |qs|
    ensures qs[i].id in Serials(qs) && Serials(qs)[qs[i].id] == Count(qs[..i + 1], InCategory(qs[i].categoryId))
    decreases |qs|
  {
    if i == |qs| - 1 {
      SerialOfLast(qs);
    } else {
      SerialAt(qs[..|qs| - 1], i);
      SerialKept(qs, i);
    }
  }

  /** The last question's serial counts its category's questions. */
  lemma SerialOfLast(qs: seq<Question>)
    requires Distinct(qs) && qs != []
    ensures var n := |qs|;
      qs[n - 1].id in Serials(qs) && Serials(qs)[qs[n - 1].id] == Count(qs[..n], InCategory(qs[n - 1].categoryId))
  {
    var n := |qs|;
    var front, q := qs[..n - 1], qs[n - 1];
    LastStep(qs);
    var k := Count(front, InCategory(q.categoryId));
    assert q.id != q.categoryId by {
      assert qs[n - 1].id != qs[n - 1].categoryId;
    }
    LastSerial(qs, k + 1);
  }

  /** Appending a question leaves the serial of an earlier one unchanged. */
  lemma SerialKept(qs: seq<Question>, i: nat)
    requires Distinct(qs) && i < |qs| - 1
    requires var front := qs[..|qs| - 1];
      front[i].id in Serials(front) && Serials(front)[front[i].id] == Count(front[..i + 1], InCategory(front[i].categoryId))
    ensures qs[i].id in Serials(qs) && Serials(qs)[qs[i].id] == Count(qs[..i + 1], InCategory(qs[i].categoryId))
  {
    var front := qs[..|qs| - 1];
    LastStep(qs);
    DistinctFromLast(qs, i);
    assert qs[i] == front[i] && qs[..i + 1] == front[..i + 1];
  }

  lemma DistinctFromLast(qs: seq<Question>, i: nat)
    requires Distinct(qs) && i < |qs| - 1
    ensures qs[i].id != qs[|qs| - 1].id && qs[i].id != qs[|qs| - 1].categoryId
  {
  }

  /** The last question's serial counts its category's questions. */
  lemma LastSerial(qs: seq<Question>, v: nat)
    requires qs != []
    requires var front, q := qs[..|qs| - 1], qs[|qs| - 1];
      Serials(qs) == Serials(front)[q.id := v][q.categoryId := v]
      && Count(qs, InCategory(q.categoryId)) == v
      && q.id != q.categoryId
    ensures var n := |qs|;
      qs[n - 1].id in Serials(qs) && Serials(qs)[qs[n - 1].id] == Count(qs[..n], InCategory(qs[n - 1].categoryId))
  {
    assert qs[..|qs|] == qs;
  }

  /** `serialNumbers[id] || '-'`: `None` stands for the dash. */
  function SerialShown(serials: map<string, nat>, id: string): Option<nat>
  {
    if id in serials && serials[id] != 0 then Some(serials[id]) else None
  }

  /** Every listed question shows its position within its category, which
      is at least 1, and an id that is neither a question nor a category
      shows the dash. */
  lemma SerialShownForListed(qs: seq<Question>, i: nat, other: string)
    requires Distinct(qs) && i < |qs|
    ensures var n := Count(qs[..i + 1], InCategory(qs[i].categoryId));
      n >= 1 && SerialShown(Serials(qs), qs[i].id) == Some(n)
    ensures other !in IdsOf(qs) + CategoriesOf(qs) ==> SerialShown(Serials(qs), other) == None
  {
    SerialAt(qs, i);
    CountsItself(qs, i);
    SerialsKeys(qs);
  }

  /** A question counts toward its own category's number. */
  lemma CountsItself(qs: seq<Question>, i: nat)
    requires i < |qs|
    ensures Count(qs[..i + 1], InCategory(qs[i].categoryId)) >= 1
  {
    assert Count(qs[..i + 1], InCategory(qs[i].categoryId))
        == Count(qs[..i] + [qs[i]], InCategory(qs[i].categoryId)) by {
      assert qs[..i + 1] == qs[..i] + [qs[i]];
    }
    CountAppend(qs[..i], [qs[i]], InCategory(qs[i].categoryId));
    assert Count([qs[i]], InCategory(qs[i].categoryId)) == 1;
  }

  // ---------------------------------------------------------------------------
  // Filters and counts

  /** The three filters; an empty category or difficulty lets every question
      through. */
  predicate MatchesFilters(q: Question, term: string, category: string, difficulty: string)
  {
    Contains(Lower(q.question), Lower(term))
    && (category == "" || q.categoryId == category)
    && (difficulty == "" || q.difficulty.Name() == difficulty)
  }

  function Matching(term: string, category: string, difficulty: string): Question -> bool
  {
    (q: Question) => MatchesFilters(q, term, category, difficulty)
  }

  function Filtered(qs: seq<Question>, term: string, category: string, difficulty: string): seq<Question>
  {
    Filter(qs, Matching(term, category, difficulty))
  }

  /** The list keeps exactly the questions that pass all three filters, in
      order, and is never longer than the bank. */
  lemma FilteredSpec(qs: seq<Question>, term: string, category: string, difficulty: string)
    ensures var r := Filtered(qs, term, category, difficulty);
      IsSubsequence(r, qs) && |r| <= |qs|
      && (forall q :: q in r <==> q in qs && MatchesFilters(q, term, category, difficulty))
  {
    var keep := Matching(term, category, difficulty);
    FilterIsSubsequence(qs, keep);
    forall q | q in qs && MatchesFilters(q, term, category, difficulty)
      ensures q in Filtered(qs, term, category, difficulty)
    {
      var i :| 0 <= i < |qs| && qs[i] == q;
      assert keep(qs[i]);
    }
  }

  /** With no filter set the whole bank is listed. */
  lemma NoFilters(qs: seq<Question>)
    ensures Filtered(qs, "", "", "") == qs
  {
    forall i | 0 <= i < |qs|
      ensures Matching("", "", "")(qs[i])
    {
      ContainsEmpty(Lower(qs[i].question));
    }
    FilterAll(qs, Matching("", "", ""));
  }

  function OfDifficulty(d: Difficulty): Question -> bool
  {
    (q: Question) => q.difficulty == d
  }

  /** The count shown for one difficulty. */
  function DifficultyCount(qs: seq<Question>, d: Difficulty): (n: nat)
    ensures n <= |qs|
  {
    CountAtMostLength(qs, OfDifficulty(d));
    Count(qs, OfDifficulty(d))
  }

  /** Every question has one of the three difficulties, so the three counts
      add up to the total. */
  lemma {:induction false} DifficultyCountsSum(qs: seq<Question>)
    ensures DifficultyCount(qs, Easy) + DifficultyCount(qs, Medium) + DifficultyCount(qs, Hard) == |qs|
  {
    if qs != [] {
      DifficultyCountsSum(qs[1..]);
    }
  }

  // ---------------------------------------------------------------------------
  // The page

  class QuestionBank {
    var questions: seq<Question>
    var categories: seq<Category>
    var searchTerm: string
    var selectedCategory: string
    var selectedDifficulty: string
    var loading: bool
    var serialNumbers: map<string, nat>

    constructor ()
      ensures questions == [] && categories == [] && loading && serialNumbers == map[]
      ensures searchTerm == "" && selectedCategory == "" && selectedDifficulty == ""
    {
      questions, categories := [], [];
      searchTerm, selectedCategory, selectedDifficulty := "", "", "";
      loading, serialNumbers := true, map[];
    }

    /** The serial-number effect, run whenever the list changes: an empty
        list leaves the previous numbers in place. */
    method RenumberQuestions()
      modifies this`serialNumbers
      ensures |questions| > 0 ==> serialNumbers == Serials(questions)
      ensures |questions| == 0 ==> serialNumbers == old(serialNumbers)
    {
      if |questions| > 0 {
        var counts;
        serialNumbers, counts := ComputeSerials(questions);
      }
    }

    /** The first load; `None` is a store answer without data. */
    method Load(questionRows: Option<seq<Question>>, categoryRows: Option<seq<Category>>)
      modifies this`questions, this`categories, this`loading, this`serialNumbers
      ensures questions == questionRows.GetOr([]) && categories == categoryRows.GetOr([]) && !loading
      ensures |questions| > 0 ==> serialNumbers == Serials(questions)
      ensures |questions| == 0 ==> serialNumbers == old(serialNumbers)
    {
      questions, categories := questionRows.GetOr([]), categoryRows.GetOr([]);
      loading := false;
      RenumberQuestions();
    }

    /** `handleDeleteQuestion`: once confirmed and deleted without error, the
        list is fetched again (`refreshed`). */
    method DeleteQuestion(id: string, confirmed: bool, deleteError: Option<string>, refreshed: Option<seq<Question>>)
      modifies this`questions, this`serialNumbers
      ensures (confirmed && deleteError.None?) ==> questions == refreshed.GetOr([])
      ensures !(confirmed && deleteError.None?) ==>
        (questions == old(questions) && serialNumbers == old(serialNumbers))
      ensures (confirmed && deleteError.None? && |questions| > 0) ==> serialNumbers == Serials(questions)
    {
      if confirmed && deleteError.None? {
        questions := refreshed.GetOr([]);
        RenumberQuestions();
      }
    }

    function Listed(): seq<Question>
      reads this
    {
      Filtered(questions, searchTerm, selectedCategory, selectedDifficulty)
    }

    /** "Showing n of m questions". */
    function ShowingCounts(): (r: (nat, nat))
      reads this
      ensures r.0 <= r.1 == |questions|
    {
      FilteredSpec(questions, searchTerm, selectedCategory, selectedDifficulty);
      (|Listed()|, |questions|)
    }
  }
}
