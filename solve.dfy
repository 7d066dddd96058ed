/** The student's quiz-selection page: categories grouped by type, each with
    an icon and a description picked by keyword, a short or full quiz, a
    details form that is validated before the quiz starts, and the way back.

    The categories endpoint's answer and the alert are parameters. */
module StudentSolve {
  import opened Wrappers
  import opened Types
  import opened Seqs
  import opened Text
  import Quiz
  import QuestionPool

  // ---------------------------------------------------------------------------
  // Keyword rules

  /** A label given to a subject whose lowercase name contains one of the
      keywords. */
  datatype Rule = Rule(keywords: seq<string>, shown: string)

  predicate RuleMatches(subject: string, rule: Rule)
  {
    exists k :: 0 <= k < |rule.keywords| && Contains(subject, rule.keywords[k])
  }

  /** The position of the first rule that matches, or `|rules|` when none
      does. */
  function FirstMatch(subject: string, rules: seq<Rule>): (i: nat)
    ensures i <= |rules|
    ensures forall j :: 0 <= j < i ==> !RuleMatches(subject, rules[j])
    ensures i < |rules| ==> RuleMatches(subject, rules[i])
  {
    if rules == [] then 0
    else if RuleMatches(subject, rules[0]) then 0
    else FirstMatch(subject, rules[1..]) + 1
  }

  /** The label of the first matching rule, or `default`. */
  function Pick(subject: string, rules: seq<Rule>, default: string): (r: string)
    ensures forall i :: (0 <= i < |rules| && RuleMatches(subject, rules[i])
      && (forall j :: 0 <= j < i ==> !RuleMatches(subject, rules[j]))) ==> r == rules[i].shown
    ensures (forall i :: 0 <= i < |rules| ==> !RuleMatches(subject, rules[i])) ==> r == default
  {
    var i := FirstMatch(subject, rules);
    if i < |rules| then rules[i].shown else default
  }

  // ---------------------------------------------------------------------------
  // Subject icon

  const Abacus := "\U{1F9EE}"
  const Atom := "\U{269B}\U{FE0F}"
  const Books := "\U{1F4DA}"

  /** `getSubjectIcon`'s keyword tests, in the order they are tried. */
  const IconRules: seq<Rule> := [
    Rule(["math", "algebra", "calculus"], Abacus),
    Rule(["physics"], Atom),
    Rule(["chemistry"], "\U{1F9EA}"),
    Rule(["biology", "life"], "\U{1F9EC}"),
    Rule(["english", "literature"], "\U{1F4D6}"),
    Rule(["history"], "\U{1F3DB}\U{FE0F}"),
    Rule(["geography"], "\U{1F30D}"),
    Rule(["computer", "programming"], "\U{1F4BB}"),
    Rule(["art", "design"], "\U{1F3A8}"),
    Rule(["music"], "\U{1F3B5}"),
    Rule(["economics"], "\U{1F4CA}"),
    Rule(["psychology"], "\U{1F9E0}"),
    Rule(["engineering"], "\U{2699}\U{FE0F}"),
    Rule(["medical", "medicine"], "\U{1FA7A}"),
    Rule(["law", "legal"], "\U{2696}\U{FE0F}"),
    Rule(["business"], "\U{1F4BC}")]

  /** `getSubjectIcon`: the icon of the first rule with a keyword in the
      lowercase name, and the books for a name no rule knows. */
  function SubjectIcon(name: string): (r: string)
    ensures forall i :: (0 <= i < |IconRules| && RuleMatches(Lower(name), IconRules[i])
      && (forall j :: 0 <= j < i ==> !RuleMatches(Lower(name), IconRules[j]))) ==> r == IconRules[i].shown
    ensures r == Books <==> forall i :: 0 <= i < |IconRules| ==> !RuleMatches(Lower(name), IconRules[i])
  {
    var i := FirstMatch(Lower(name), IconRules);
    assert i < |IconRules| ==> IconRules[i].shown != Books;
    Pick(Lower(name), IconRules, Books)
  }

  /** The icon does not depend on the case of the name. */
  lemma IconIgnoresCase(name: string)
    ensures SubjectIcon(Lower(name)) == SubjectIcon(name)
  {
    LowerIdempotent(name);
  }

  /** The first matching rule wins: a name that mentions both mathematics
      and physics gets the mathematics icon. */
  lemma FirstRuleWins()
    ensures RuleMatches(Lower("Mathematical Physics"), IconRules[1])
    ensures SubjectIcon("Mathematical Physics") == Abacus
  {
    var s := Lower("Mathematical Physics");
    assert s == "mathematical physics";
    assert OccursAt(s, "math", 0);
    assert IconRules[0].keywords[0] == "math" && Contains(s, "math");
    assert RuleMatches(s, IconRules[0]);
    assert OccursAt(s, "physics", 13);
    assert IconRules[1].keywords[0] == "physics";
  }

  // ---------------------------------------------------------------------------
  // Subject description

  const CompetitiveText := "Comprehensive exam preparation with practice tests and strategies"
  const GeneralText := "Comprehensive study material and practice questions"

  /** `getSubjectDescription`'s keyword tests, in the order they are tried. */
  const DescriptionRules: seq<Rule> := [
    Rule(["math"], "Mathematical concepts, problem solving, and analytical thinking"),
    Rule(["physics"], "Physical laws, mechanics, and scientific phenomena"),
    Rule(["chemistry"], "Chemical reactions, molecular structures, and laboratory concepts"),
    Rule(["biology"], "Life sciences, anatomy, and biological processes"),
    Rule(["english"], "Language skills, literature analysis, and communication"),
    Rule(["history"], "Historical events, civilizations, and cultural studies"),
    Rule(["geography"], "Earth sciences, maps, and environmental studies"),
    Rule(["computer"], "Programming, algorithms, and technology concepts")]

  /** `getSubjectDescription`: the exam-preparation text for every
      competitive category, whatever its name; otherwise the text of the
      first keyword in the lowercase name, or the general text. */
  function SubjectDescription(name: string, kind: CategoryType): string
  {
    if kind == Competitive then CompetitiveText
    else Pick(Lower(name), DescriptionRules, GeneralText)
  }

  /** The exam-preparation text is shown exactly for competitive categories,
      and the general text exactly for subjects no keyword names. */
  lemma DescriptionSpec(name: string, kind: CategoryType)
    ensures SubjectDescription(name, kind) == CompetitiveText <==> kind == Competitive
    ensures SubjectDescription(name, kind) == GeneralText <==>
      kind == Subject && forall i :: 0 <= i < |DescriptionRules| ==> !RuleMatches(Lower(name), DescriptionRules[i])
  {
    var i := FirstMatch(Lower(name), DescriptionRules);
    if i < |DescriptionRules| {
      assert DescriptionRules[i].shown != CompetitiveText && DescriptionRules[i].shown != GeneralText;
    }
  }

  // ---------------------------------------------------------------------------
  // Grouping by type

  /** `Array.from(new Set(xs))`: the distinct values in the order of their
      first occurrence. */
  function Distinct(xs: seq<CategoryType>): (r: seq<CategoryType>)
    ensures forall x :: x in r <==> x in xs
    ensures forall i, j :: 0 <= i < j < |r| ==> r[i] != r[j]
  {
    if xs == [] then []
    else
      var front := Distinct(xs[..|xs| - 1]);
      assert xs == xs[..|xs| - 1] + [xs[|xs| - 1]];
      if xs[|xs| - 1] in front then front else front + [xs[|xs| - 1]]
  }

  /** `a` occurs in `xs` before any occurrence of `b`. */
  predicate OccursBefore(xs: seq<CategoryType>, a: CategoryType, b: CategoryType)
  {
    exists p :: 0 <= p < |xs| && xs[p] == a && b !in xs[..p]
  }

  /** The distinct values come in the order of their first occurrence. */
  lemma {:induction false} DistinctOrder(xs: seq<CategoryType>)
    ensures forall i, j :: 0 <= i < j < |Distinct(xs)| ==> OccursBefore(xs, Distinct(xs)[i], Distinct(xs)[j])
  {
    if xs != [] {
      var n := |xs|;
      var init, last := xs[..n - 1], xs[n - 1];
      var front := Distinct(init);
      DistinctOrder(init);
      assert xs == init + [last];
      var r := Distinct(xs);
      forall i, j | 0 <= i < j < |r| ensures OccursBefore(xs, r[i], r[j]) {
        if j < |front| {
          assert r[i] == front[i] && r[j] == front[j];
          assert OccursBefore(init, front[i], front[j]);
          var p :| 0 <= p < |init| && init[p] == r[i] && r[j] !in init[..p];
          assert xs[..p] == init[..p];
        } else {
          assert r[j] == last && last !in init;
          assert r[i] == front[i] && r[i] in init;
          var p :| 0 <= p < |init| && init[p] == r[i];
          assert xs[..p] == init[..p];
          assert forall q :: 0 <= q < p ==> init[..p][q] == init[q];
        }
      }
    }
  }

  function Kinds(cats: seq<Category>): seq<CategoryType>
  {
    Distinct(seq(|cats|, i requires 0 <= i < |cats| => cats[i].kind))
  }

  function OfKind(kind: CategoryType): Category -> bool
  {
    (c: Category) => c.kind == kind
  }

  /** The cards under a type's header. */
  function Group(cats: seq<Category>, kind: CategoryType): seq<Category>
  {
    Filter(cats, OfKind(kind))
  }

  /** Each category is shown exactly once: its type has one header, and it
      appears under that header and no other. */
  lemma EachCategoryOnce(cats: seq<Category>, c: Category)
    requires c in cats
    ensures c.kind in Kinds(cats)
    ensures forall i :: 0 <= i < |Kinds(cats)| ==> (c in Group(cats, Kinds(cats)[i]) <==> Kinds(cats)[i] == c.kind)
    ensures forall i, j :: 0 <= i < j < |Kinds(cats)| ==> Kinds(cats)[i] != Kinds(cats)[j]
  {
    var k :| 0 <= k < |cats| && cats[k] == c;
    var kinds := seq(|cats|, i requires 0 <= i < |cats| => cats[i].kind);
    assert kinds[k] == c.kind;
    assert OfKind(c.kind)(cats[k]);
  }

  // ---------------------------------------------------------------------------
  // The details form

  datatype StudentInfo = StudentInfo(name: string, email: string, mobile: string)

  predicate NonSpace(s: string)
  {
    forall i :: 0 <= i < |s| ==> !IsSpace(s[i])
  }

  /** `/\S+@\S+\.\S+/` matches `s[a..e]`, with the `@` at `p` and the dot
      at `d`. */
  predicate EmailAt(s: string, a: int, p: int, d: int, e: int)
  {
    0 <= a < p && p + 1 < d && d + 1 < e <= |s|
    && NonSpace(s[a..p]) && s[p] == '@' && NonSpace(s[p + 1..d]) && s[d] == '.' && NonSpace(s[d + 1..e])
  }

  /** The email test: the pattern matches somewhere in `s`; it is not
      anchored. */
  predicate LooksLikeEmail(s: string)
  {
    exists a, p, d, e | 0 <= a < p < d < e <= |s| :: EmailAt(s, a, p, d, e)
  }

  /** The same test stated on the characters around `@` and the dot: a
      non-space before the `@`, a non-empty run of non-spaces, a dot, and a
      non-space after it. */
  predicate EmailShape(s: string)
  {
    exists p, d | 0 < p < d < |s| - 1 :: ShapeAt(s, p, d)
  }

  predicate ShapeAt(s: string, p: int, d: int)
  {
    0 < p && p + 1 < d < |s| - 1
    && !IsSpace(s[p - 1]) && s[p] == '@' && NonSpace(s[p + 1..d]) && s[d] == '.' && !IsSpace(s[d + 1])
  }

  lemma EmailShapeIff(s: string)
    ensures LooksLikeEmail(s) <==> EmailShape(s)
  {
    if LooksLikeEmail(s) {
      MatchGivesShape(s);
    }
    if EmailShape(s) {
      ShapeGivesMatch(s);
    }
  }

  lemma MatchGivesShape(s: string)
    requires LooksLikeEmail(s)
    ensures EmailShape(s)
  {
    var a, p, d, e :| 0 <= a < p < d < e <= |s| && EmailAt(s, a, p, d, e);
    assert s[p - 1] == s[a..p][p - 1 - a];
    assert s[d + 1] == s[d + 1..e][0];
    assert ShapeAt(s, p, d);
  }

  lemma ShapeGivesMatch(s: string)
    requires EmailShape(s)
    ensures LooksLikeEmail(s)
  {
    var p, d :| 0 < p < d < |s| - 1 && ShapeAt(s, p, d);
    assert NonSpace(s[p - 1..p]);
    assert NonSpace(s[d + 1..d + 2]);
    assert EmailAt(s, p - 1, p, d, d + 2);
  }

  /** Text around an address that passes the test does not make it fail. */
  lemma EmailUnanchored(s: string, before: string, after: string)
    requires LooksLikeEmail(s)
    ensures LooksLikeEmail(before + s + after)
  {
    var a, p, d, e :| 0 <= a < p < d < e <= |s| && EmailAt(s, a, p, d, e);
    var k := |before|;
    EmailAtShift(before, s, after, a, p, d, e);
    assert EmailAt(before + s + after, k + a, k + p, k + d, k + e);
  }

  /** A match inside `s` is a match, shifted, inside `before + s + after`. */
  lemma EmailAtShift(before: string, s: string, after: string, a: nat, p: nat, d: nat, e: nat)
    requires EmailAt(s, a, p, d, e)
    ensures EmailAt(before + s + after, |before| + a, |before| + p, |before| + d, |before| + e)
  {
    var t := before + s + after;
    var k := |before|;
    SliceOfMiddle(before, s, after, a, p);
    SliceOfMiddle(before, s, after, p + 1, d);
    SliceOfMiddle(before, s, after, d + 1, e);
    assert t[k + p] == s[p] && t[k + d] == s[d];
    assert EmailAt(t, k + a, k + p, k + d, k + e);
  }

  lemma SliceOfMiddle(before: string, s: string, after: string, i: nat, j: nat)
    requires i <= j <= |s|
    ensures (before + s + after)[|before| + i..|before| + j] == s[i..j]
  {
    var t := before + s + after;
    var k := |before|;
    assert forall m :: 0 <= m < j - i ==> t[k + i..k + j][m] == t[k + i + m] == s[i + m] == s[i..j][m];
  }

  /** A plain address passes, and so does one inside other text. */
  lemma EmailAccepted()
    ensures LooksLikeEmail("a@b.c")
    ensures LooksLikeEmail("mail me: a@b.c!")
  {
    var s := "a@b.c";
    assert NonSpace(s[0..1]) && NonSpace(s[2..3]) && NonSpace(s[4..5]);
    assert EmailAt(s, 0, 1, 3, 5);
    EmailUnanchored(s, "mail me: ", "!");
    assert "mail me: " + s + "!" == "mail me: a@b.c!";
  }

  /** An address without a dot after the `@`, or with a space before it,
      fails. */
  lemma EmailRejected()
    ensures !LooksLikeEmail("a@b")
    ensures !LooksLikeEmail("a @b.c")
  {
    if LooksLikeEmail("a@b") {
      MatchGivesShape("a@b");
    }
    if LooksLikeEmail("a @b.c") {
      MatchGivesShape("a @b.c");
    }
  }

  /** `mobile.replace(/\D/g, '')`: the mobile number's digits, in order. */
  function Digits(s: string): string
  {
    Filter(s, IsDigit)
  }

  /** A whitespace-only field is empty once trimmed, and no address or
      number that passes its test is. */
  lemma PassingFieldsAreFilled(email: string, mobile: string)
    ensures LooksLikeEmail(email) ==> Trim(email) != ""
    ensures |Digits(mobile)| == 10 ==> Trim(mobile) != ""
  {
    TrimEmptyIff(email);
    TrimEmptyIff(mobile);
    if LooksLikeEmail(email) {
      var a, p, d, e :| 0 <= a < p < d < e <= |email| && EmailAt(email, a, p, d, e);
      assert !IsSpace(email[p]);
    }
    if |Digits(mobile)| == 10 {
      assert Digits(mobile)[0] in mobile && IsDigit(Digits(mobile)[0]);
    }
  }

  const NameRequired := "Name is required"
  const EmailRequired := "Email is required"
  const EmailInvalid := "Please enter a valid email"
  const MobileRequired := "Mobile number is required"
  const MobileInvalid := "Please enter a valid 10-digit mobile number"

  /** The details the quiz accepts: a name, an address that passes the test,
      and exactly ten digits in the mobile number. */
  predicate Accepted(info: StudentInfo)
  {
    Trim(info.name) != "" && LooksLikeEmail(info.email) && |Digits(info.mobile)| == 10
  }

  /** The messages `validateForm` leaves for `info`: one per failing field,
      "required" for a blank field and "invalid" for a filled one that fails
      its test. */
  predicate FieldMessages(info: StudentInfo, errors: map<string, string>)
  {
    errors.Keys <= {"name", "email", "mobile"}
    && ("name" in errors <==> Trim(info.name) == "")
    && ("name" in errors ==> errors["name"] == NameRequired)
    && ("email" in errors <==> !LooksLikeEmail(info.email))
    && ("email" in errors ==> errors["email"] == if Trim(info.email) == "" then EmailRequired else EmailInvalid)
    && ("mobile" in errors <==> |Digits(info.mobile)| != 10)
    && ("mobile" in errors ==> errors["mobile"] == if Trim(info.mobile) == "" then MobileRequired else MobileInvalid)
  }

  /** `validateForm`: one message per failing field, and success exactly
      when there is none. */
  method ValidateForm(info: StudentInfo) returns (errors: map<string, string>, valid: bool)
    ensures FieldMessages(info, errors)
    ensures valid <==> errors == map[]
    ensures valid <==> Accepted(info)
  {
    PassingFieldsAreFilled(info.email, info.mobile);
    errors := map[];
    if Trim(info.name) == "" {
      errors := errors["name" := NameRequired];
    }
    if Trim(info.email) == "" {
      errors := errors["email" := EmailRequired];
    } else if !LooksLikeEmail(info.email) {
      errors := errors["email" := EmailInvalid];
    }
    if Trim(info.mobile) == "" {
      errors := errors["mobile" := MobileRequired];
    } else if |Digits(info.mobile)| != 10 {
      errors := errors["mobile" := MobileInvalid];
    }
    valid := |errors.Keys| == 0;
  }

  // ---------------------------------------------------------------------------
  // The page

  /** The line under the start button. */
  function ReadyLine(t: QuizType): string
  {
    if t == Short then "20 Questions / 30 Minutes" else "100 Questions / 3 Hours"
  }

  /** The line agrees with what the questions endpoint serves at most and
      with the quiz clock. */
  lemma ReadyLineAgrees(t: QuizType)
    ensures t == Short ==> (ReadyLine(t) == "20 Questions / 30 Minutes"
      && QuestionPool.Cap(Some(t.Name())) == Some(20) && Quiz.Duration(t) == 30 * 60)
    ensures t == Full ==> (ReadyLine(t) == "100 Questions / 3 Hours"
      && QuestionPool.Cap(Some(t.Name())) == Some(100) && Quiz.Duration(t) == 3 * 60 * 60)
  {
  }

  datatype Screen = Selection(formShown: bool) | QuizScreen

  class SolvePage {
    var categories: seq<Category>
    var selectedCategory: string
    var quizType: QuizType
    var showQuiz: bool
    var showStudentForm: bool
    var info: StudentInfo
    var errors: map<string, string>

    /** The form is open only with a category chosen, and the quiz runs only
        with a category and accepted details. */
    ghost predicate Valid()
      reads this
    {
      (showStudentForm ==> selectedCategory != "")
      && (showQuiz ==> selectedCategory != "" && Accepted(info))
    }

    constructor ()
      ensures Valid()
      ensures categories == [] && selectedCategory == "" && quizType == Short
      ensures !showQuiz && !showStudentForm && info == StudentInfo("", "", "") && errors == map[]
    {
      categories, selectedCategory, quizType := [], "", Short;
      showQuiz, showStudentForm := false, false;
      info, errors := StudentInfo("", "", ""), map[];
    }

    function CurrentScreen(): Screen
      reads this
    {
      if showQuiz then QuizScreen else Selection(showStudentForm)
    }

    /** `fetchCategories`: the list of an ok answer; anything else keeps the
        list. */
    method FetchCategories(reply: Option<seq<Category>>)
      modifies this`categories
      ensures categories == if reply.Some? then reply.value else old(categories)
    {
      if reply.Some? {
        categories := reply.value;
      }
    }

    /** A category card; the cards are covered while the form is open. */
    method SelectCategory(id: string)
      requires Valid() && !showQuiz && !showStudentForm
      modifies this`selectedCategory
      ensures Valid() && selectedCategory == id
    {
      selectedCategory := id;
    }

    method SelectQuizType(t: QuizType)
      modifies this`quizType
      ensures quizType == t
    {
      quizType := t;
    }

    /** Typing into the form. */
    method EditInfo(newInfo: StudentInfo)
      requires Valid() && showStudentForm && !showQuiz
      modifies this`info
      ensures Valid() && info == newInfo
    {
      info := newInfo;
    }

    /** `handleStartQuiz`: without a category the alert is raised and
        nothing changes; with one the form opens. */
    method StartQuiz() returns (alerted: bool)
      requires Valid()
      modifies this`showStudentForm
      ensures Valid()
      ensures alerted <==> selectedCategory == ""
      ensures showStudentForm == (old(showStudentForm) || !alerted)
    {
      if selectedCategory == "" {
        alerted := true;
        return;
      }
      alerted := false;
      showStudentForm := true;
    }

    /** `handleStudentFormSubmit`: the errors are replaced; accepted details
        close the form and start the quiz. */
    method SubmitForm()
      requires Valid() && showStudentForm && !showQuiz
      modifies this`errors, this`showStudentForm, this`showQuiz
      ensures Valid()
      ensures FieldMessages(info, errors)
      ensures (errors == map[]) == Accepted(info)
      ensures Accepted(info) ==> !showStudentForm && showQuiz
      ensures !Accepted(info) ==> showStudentForm && !showQuiz
    {
      var valid;
      errors, valid := ValidateForm(info);
      if valid {
        showStudentForm := false;
        showQuiz := true;
      }
    }

    /** `handleQuizBack`: both screens close and the details and the
        category are cleared. */
    method QuizBack()
      modifies this`showQuiz, this`showStudentForm, this`info, this`selectedCategory
      ensures Valid()
      ensures !showQuiz && !showStudentForm && info == StudentInfo("", "", "") && selectedCategory == ""
    {
      showQuiz, showStudentForm := false, false;
      info := StudentInfo("", "", "");
      selectedCategory := "";
    }

    /** The form's cancel button. */
    method CancelForm()
      requires Valid()
      modifies this`showStudentForm
      ensures Valid() && !showStudentForm
    {
      showStudentForm := false;
    }
  }
}
