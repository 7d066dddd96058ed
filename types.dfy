/** The records the quiz platform and the notice board exchange with their
    store, with every string-literal union of the source as an enumeration.
    Each enumeration has the tag the source writes (`Name`) and its reading
    back from a string (`Parse...`), for the places where the source compares
    an incoming string with a tag. */
module Types {
  import opened Wrappers

  /** `Category.type`. */
  datatype CategoryType = Subject | Competitive {
    function Name(): string
    {
      match this
      case Subject => "subject"
      case Competitive => "competitive"
    }
  }

  /** `Question.question_type`. */
  datatype QuestionType = TextQuestion | Mathematical {
    function Name(): string
    {
      match this
      case TextQuestion => "text"
      case Mathematical => "mathematical"
    }
  }

  /** An option letter: `Question.correct_answer`, `QuizAnswer.selected_answer`
      and the values of the quiz's answer map. */
  datatype Letter = A | B | C | D {
    function Name(): string
    {
      match this
      case A => "A"
      case B => "B"
      case C => "C"
      case D => "D"
    }
  }

  /** `Question.difficulty`. */
  datatype Difficulty = Easy | Medium | Hard {
    function Name(): string
    {
      match this
      case Easy => "easy"
      case Medium => "medium"
      case Hard => "hard"
    }
  }

  /** `QuizAttempt.quiz_type`. */
  datatype QuizType = Short | Full {
    function Name(): string
    {
      match this
      case Short => "short"
      case Full => "full"
    }
  }

  function ParseCategoryType(s: string): (r: Option<CategoryType>)
    ensures r.Some? ==> r.value.Name() == s
  {
    if s == "subject" then Some(Subject)
    else if s == "competitive" then Some(Competitive)
    else None
  }

  function ParseDifficulty(s: string): (r: Option<Difficulty>)
    ensures r.Some? ==> r.value.Name() == s
  {
    if s == "easy" then Some(Easy)
    else if s == "medium" then Some(Medium)
    else if s == "hard" then Some(Hard)
    else None
  }

  function ParseQuizType(s: string): (r: Option<QuizType>)
    ensures r.Some? ==> r.value.Name() == s
  {
    if s == "short" then Some(Short)
    else if s == "full" then Some(Full)
    else None
  }

  function ParseLetter(s: string): (r: Option<Letter>)
    ensures r.Some? ==> r.value.Name() == s
  {
    if s == "A" then Some(A)
    else if s == "B" then Some(B)
    else if s == "C" then Some(C)
    else if s == "D" then Some(D)
    else None
  }

  /** Reading a tag back gives the value that wrote it, so the tags are distinct. */
  lemma TagsRoundTrip(c: CategoryType, d: Difficulty, q: QuizType, l: Letter)
    ensures ParseCategoryType(c.Name()) == Some(c)
    ensures ParseDifficulty(d.Name()) == Some(d)
    ensures ParseQuizType(q.Name()) == Some(q)
    ensures ParseLetter(l.Name()) == Some(l)
  {
  }

  datatype Category = Category(id: string, name: string, kind: CategoryType, createdAt: string)

  datatype Question = Question(
    id: string,
    categoryId: string,
    question: string,
    questionType: QuestionType,
    optionA: string,
    optionB: string,
    optionC: string,
    optionD: string,
    correctAnswer: Letter,
    explanation: Option<string>,
    difficulty: Difficulty,
    createdAt: string)

  /** A stored quiz attempt. `score` and `accuracy` are percentages. */
  datatype QuizAttempt = QuizAttempt(
    id: string,
    studentName: string,
    studentEmail: string,
    studentMobile: string,
    categoryId: string,
    quizType: QuizType,
    totalQuestions: nat,
    correctAnswers: nat,
    wrongAnswers: int,
    timeTaken: int,
    score: real,
    accuracy: real,
    startedAt: string,
    completedAt: string)

  datatype QuizAnswer = QuizAnswer(
    id: string,
    attemptId: string,
    questionId: string,
    selectedAnswer: Letter,
    isCorrect: bool,
    createdAt: string)

  /** A notice; the four file fields are optional. */
  datatype Notice = Notice(
    id: string,
    title: string,
    content: string,
    fileUrl: Option<string>,
    fileName: Option<string>,
    fileType: Option<string>,
    fileSize: Option<int>,
    createdAt: string,
    updatedAt: string)

  /** What the upload endpoint answers on success. */
  datatype FileUploadResponse = FileUploadResponse(
    fileUrl: string,
    directUrl: string,
    fileName: string,
    fileId: string,
    fileType: string,
    fileSize: nat,
    fileCategory: string)

  /** JavaScript truthiness of an optional string: absent and `''` are falsy. */
  predicate Truthy(s: Option<string>)
  {
    s.Some? && s.value != ""
  }

  /** JavaScript truthiness of an optional number: absent and `0` are falsy. */
  predicate TruthyNumber(n: Option<int>)
  {
    n.Some? && n.value != 0
  }
}
