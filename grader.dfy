/** The grading agent (agents/grader.py): scores one answer against the job
    description and the question it answers, and says whether to probe further. */
module Grader {
  import opened Base

  /** How much of the job description the grading agent's prompt carries. */
  const JdExcerptLength := 300

  /** The parsed grade.  `feedbackInternal` is absent from the fallback. */
  datatype Grade = Grade(
    score: int,
    isCorrect: bool,
    requiresFollowup: bool,
    feedbackInternal: Option<string>)

  /** Returned when the service call or the parsing of its output fails. */
  const FallbackGrade := Grade(50, true, false, None)

  /** What the grading agent sends: the values its system prompt interpolates (the
      wording around them is not modelled) and the user message. */
  datatype GradeRequest = GradeRequest(jdExcerpt: string, currentQuestion: string, answer: string)

  function Request(userInput: string, currentQuestion: string, jdText: string): GradeRequest {
    GradeRequest(Prefix(jdText, JdExcerptLength), currentQuestion, "Candidate Answer: " + userInput)
  }

  /** `GraderAgent.evaluate`.  `grade` stands for the completion service
      followed by `json.loads`. */
  function Evaluate(userInput: string, currentQuestion: string, jdText: string,
                    grade: GradeRequest -> Outcome<Grade>): Grade
  {
    match grade(Request(userInput, currentQuestion, jdText))
    case Ok(parsed) => parsed
    case Failed => FallbackGrade
  }

  /** The request carries at most the first 300 characters of the job
      description, the question unchanged, and the answer behind its label. */
  lemma RequestContents(userInput: string, currentQuestion: string, jdText: string)
    ensures var req := Request(userInput, currentQuestion, jdText);
      && |req.jdExcerpt| == Min(JdExcerptLength, |jdText|)
      && req.jdExcerpt == jdText[..|req.jdExcerpt|]
      && req.currentQuestion == currentQuestion
      && req.answer == "Candidate Answer: " + userInput
  {
    var req := Request(userInput, currentQuestion, jdText);
    assert req.jdExcerpt == jdText[..|req.jdExcerpt|];
  }

  /** Two job descriptions that agree on their first 300 characters are graded
      alike: nothing past that prefix reaches the service. */
  lemma SeesOnlyJdPrefix(userInput: string, currentQuestion: string, jd1: string, jd2: string,
                         grade: GradeRequest -> Outcome<Grade>)
    requires Prefix(jd1, JdExcerptLength) == Prefix(jd2, JdExcerptLength)
    ensures Evaluate(userInput, currentQuestion, jd1, grade) == Evaluate(userInput, currentQuestion, jd2, grade)
  {
  }

  /** A failed call yields score 50, correct, no follow-up. */
  lemma FailureFallsBack(userInput: string, currentQuestion: string, jdText: string,
                         grade: GradeRequest -> Outcome<Grade>)
    requires grade(Request(userInput, currentQuestion, jdText)).Failed?
    ensures var g := Evaluate(userInput, currentQuestion, jdText, grade);
      g.score == 50 && g.isCorrect && !g.requiresFollowup
  {
  }

  /** A parsed grade is returned unmodified. */
  lemma ParsedPassesThrough(userInput: string, currentQuestion: string, jdText: string,
                            grade: GradeRequest -> Outcome<Grade>)
    requires grade(Request(userInput, currentQuestion, jdText)).Ok?
    ensures Evaluate(userInput, currentQuestion, jdText, grade)
         == grade(Request(userInput, currentQuestion, jdText)).value
  {
  }

  /** In particular the score is not clamped to 0..100: a score below 0 or
      above 100 that the service answers is the score reported. */
  lemma ScoreIsNotClamped(userInput: string, currentQuestion: string, jdText: string,
                          score: int, isCorrect: bool, requiresFollowup: bool)
    requires score < 0 || score > 100
    ensures Evaluate(userInput, currentQuestion, jdText,
                     _ => Ok(Grade(score, isCorrect, requiresFollowup, None))).score == score
  {
  }
}
