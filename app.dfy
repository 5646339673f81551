/** The web layer's session handling (app.py): the one in-memory session record,
    the upload of the interview context, and the per-turn chat pipeline
    profiler -> (grading agent) -> interviewer. */
module App {
  import opened Base
  import Profiler
  import Grader
  import Interviewer

  /** The record's contents: the resume text, the job description, and an
      excerpt of the last reply that the grading agent uses as "the current question". */
  datatype Context = Context(resume: string, jd: string, currentQuestion: string)

  /** The record's value when the server starts. */
  const InitialContext := Context("", "", "Introduction")

  /** How much of the end of a reply is kept as the next turn's question. */
  const QuestionContextLength := 100

  // ---------------------------------------------------------------------------
  // Upload

  /** An uploaded resume file; `text` stands for what PDF extraction yields. */
  datatype PdfFile = PdfFile(filename: string, text: string)

  /** Python truthiness of the form inputs: an uploaded file is truthy when it
      has a file name, the job description when it is present and non-empty. */
  predicate ResumeGiven(resumeFile: Option<PdfFile>) {
    resumeFile.Some? && resumeFile.value.filename != ""
  }

  predicate JdGiven(jdField: Option<string>) {
    jdField.Some? && jdField.value != ""
  }

  /** "Byte is ready." with status 200, or "Missing inputs" with status 400. */
  datatype UploadReply = Ready | MissingInputs {
    function Status(): int {
      if Ready? then 200 else 400
    }
  }

  datatype UploadResult = UploadResult(after: Context, reply: UploadReply)

  /** `upload()` as a function of the record before the request. */
  function UploadStep(c: Context, resumeFile: Option<PdfFile>, jdField: Option<string>): UploadResult {
    if ResumeGiven(resumeFile) && JdGiven(jdField) then
      UploadResult(c.(resume := resumeFile.value.text, jd := jdField.value), Ready)
    else
      UploadResult(c, MissingInputs)
  }

  /** Upload succeeds exactly when both inputs are given; it then sets resume
      and job description and keeps the current question; otherwise it answers
      400 and leaves the record as it was. */
  lemma UploadSucceedsIffBothGiven(c: Context, resumeFile: Option<PdfFile>, jdField: Option<string>)
    ensures var u := UploadStep(c, resumeFile, jdField);
      && (u.reply.Ready? <==> ResumeGiven(resumeFile) && JdGiven(jdField))
      && (u.reply.Ready? ==> u.reply.Status() == 200
                             && u.after.resume == resumeFile.value.text
                             && u.after.jd == jdField.value
                             && u.after.currentQuestion == c.currentQuestion)
      && (u.reply.MissingInputs? ==> u.reply.Status() == 400 && u.after == c)
  {
  }

  // ---------------------------------------------------------------------------
  // Chat

  /** The three completion services, each with its output already parsed. */
  datatype Services = Services(
    classify: string -> Outcome<Profiler.Profile>,
    grade: Grader.GradeRequest -> Outcome<Grader.Grade>,
    complete: seq<Interviewer.Entry> -> Outcome<string>)

  /** The gating rule: only a relevant, non-silent turn is graded. */
  predicate ShouldGrade(profile: Profiler.Profile) {
    profile.isRelevant && profile.persona != "silent"
  }

  /** The debug score: the grade's score, or the string 'N/A'. */
  datatype ScoreField = Score(value: int) | NotAvailable

  datatype Debug = Debug(persona: string, score: ScoreField, followUp: bool)

  /** The JSON body of a successful chat response. */
  datatype ChatReply = ChatReply(response: string, debug: Debug)

  /** The debug snapshot, with `grader_data.get(key, default)` read off an
      absent grade (the empty dictionary) as its default. */
  function DebugOf(profile: Profiler.Profile, graderData: Option<Grader.Grade>): Debug {
    Debug(profile.persona,
          if graderData.Some? then Score(graderData.value.score) else NotAvailable,
          graderData.Some? && graderData.value.requiresFollowup)
  }

  /** What a chat turn computed, and the record after it.  `reply` is `Failed`
      when the interviewer's call fails: the exception leaves `chat()` before
      the record is written. */
  datatype Turn = Turn(
    profile: Profiler.Profile,
    graderData: Option<Grader.Grade>,
    reply: Outcome<ChatReply>,
    after: Context)

  /** The messages the interviewer sends for this turn. */
  function InterviewerMessages(c: Context, userMsg: string, history: seq<Message>,
                               profile: Profiler.Profile, graderData: Option<Grader.Grade>): seq<Interviewer.Entry>
  {
    Interviewer.Messages(Interviewer.Prompt(c.resume, c.jd, profile, graderData), history, userMsg)
  }

  /** `chat()` as a function of the record before the request. */
  function ChatStep(c: Context, userMsg: string, history: seq<Message>, svc: Services): Turn {
    var profile := Profiler.Analyze(userMsg, history, svc.classify);
    var graderData :=
      if ShouldGrade(profile) then Some(Grader.Evaluate(userMsg, c.currentQuestion, c.jd, svc.grade))
      else None;
    match svc.complete(InterviewerMessages(c, userMsg, history, profile, graderData))
    case Failed => Turn(profile, graderData, Failed, c)
    case Ok(raw) =>
      Turn(profile, graderData, Ok(ChatReply(raw, DebugOf(profile, graderData))),
           c.(currentQuestion := Last(raw, QuestionContextLength)))
  }

  /** The profiler runs on every turn; the grading agent runs if and only if the
      profile is relevant and not silent, and otherwise the grade is empty. */
  lemma GradedIffRelevantAndNotSilent(c: Context, userMsg: string, history: seq<Message>, svc: Services)
    ensures var t := ChatStep(c, userMsg, history, svc);
      && t.profile == Profiler.Analyze(userMsg, history, svc.classify)
      && (t.graderData.Some? <==> t.profile.isRelevant && t.profile.persona != "silent")
  {
  }

  /** The grading agent is given the current question and job description as they
      were before this turn's update. */
  lemma GraderSeesRecordBeforeTurn(c: Context, userMsg: string, history: seq<Message>, svc: Services)
    ensures var t := ChatStep(c, userMsg, history, svc);
      t.graderData.Some? ==> t.graderData.value == Grader.Evaluate(userMsg, c.currentQuestion, c.jd, svc.grade)
  {
  }

  /** A turn that is not graded does not consult the grading service: any
      other grading service gives the same turn. */
  lemma SkippedGraderIsNotConsulted(c: Context, userMsg: string, history: seq<Message>, svc: Services,
                                    otherGrade: Grader.GradeRequest -> Outcome<Grader.Grade>)
    requires !ShouldGrade(Profiler.Analyze(userMsg, history, svc.classify))
    ensures ChatStep(c, userMsg, history, svc) == ChatStep(c, userMsg, history, svc.(grade := otherGrade))
  {
  }

  /** After a successful turn the current question is the last
      `min(100, |reply|)` characters of the raw reply; after a failed one the
      record is unchanged. */
  lemma QuestionIsEndOfReply(c: Context, userMsg: string, history: seq<Message>, svc: Services)
    ensures var t := ChatStep(c, userMsg, history, svc);
      && (t.reply.Ok? ==>
            var raw := t.reply.value.response;
            && |t.after.currentQuestion| == Min(QuestionContextLength, |raw|)
            && raw == raw[..|raw| - |t.after.currentQuestion|] + t.after.currentQuestion)
      && (t.reply.Failed? ==> t.after == c)
  {
    var t := ChatStep(c, userMsg, history, svc);
    if t.reply.Ok? {
      var raw := t.reply.value.response;
      var q := t.after.currentQuestion;
      assert raw[|raw| - |q|..] == q;
      assert raw == raw[..|raw| - |q|] + raw[|raw| - |q|..];
    }
  }

  /** A chat turn never changes the resume or the job description. */
  lemma ChatKeepsResumeAndJd(c: Context, userMsg: string, history: seq<Message>, svc: Services)
    ensures var t := ChatStep(c, userMsg, history, svc);
      t.after.resume == c.resume && t.after.jd == c.jd
  {
  }

  /** The response is the interviewer's raw output, and the debug snapshot
      reports the persona, the grade's score or 'N/A', and the grade's
      follow-up flag or False. */
  lemma ReplyContents(c: Context, userMsg: string, history: seq<Message>, svc: Services)
    ensures var t := ChatStep(c, userMsg, history, svc);
      var sent := svc.complete(InterviewerMessages(c, userMsg, history, t.profile, t.graderData));
      && (t.reply.Ok? <==> sent.Ok?)
      && (t.reply.Ok? ==>
            && t.reply.value.response == sent.value
            && t.reply.value.debug.persona == t.profile.persona
            && (t.reply.value.debug.score.NotAvailable? <==> !ShouldGrade(t.profile))
            && (ShouldGrade(t.profile) ==> t.reply.value.debug.score.value == t.graderData.value.score)
            && (t.reply.value.debug.followUp <==> t.graderData.Some? && t.graderData.value.requiresFollowup))
  {
  }

  /** A timed-out turn is never graded, whatever the services would answer. */
  lemma SilentTurnNeverGraded(c: Context, userMsg: string, history: seq<Message>, svc: Services)
    requires Contains(userMsg, Profiler.SilenceToken)
    ensures var t := ChatStep(c, userMsg, history, svc);
      && t.profile == Profiler.SilentProfile
      && t.graderData.None?
      && (t.reply.Ok? ==> t.reply.value.debug == Debug("silent", NotAvailable, false))
  {
    Profiler.SilenceShortCircuits(userMsg, history, svc.classify);
  }

  /** Across two turns: a graded second turn is graded against the last 100
      characters of the first turn's reply, and the job description uploaded
      before them. */
  lemma NextTurnGradedAgainstPreviousReply(c: Context, msg1: string, history1: seq<Message>,
                                           msg2: string, history2: seq<Message>, svc: Services)
    requires ChatStep(c, msg1, history1, svc).reply.Ok?
    ensures var t1 := ChatStep(c, msg1, history1, svc);
      var t2 := ChatStep(t1.after, msg2, history2, svc);
      t2.graderData.Some? ==>
        t2.graderData.value == Grader.Evaluate(msg2, Last(t1.reply.value.response, QuestionContextLength), c.jd, svc.grade)
  {
  }

  // ---------------------------------------------------------------------------
  // The session record

  /** The module-level `session_context` dictionary, updated in place by the
      two request handlers. */
  class Session {
    var resume: string
    var jd: string
    var currentQuestion: string

    function State(): Context
      reads this
    {
      Context(resume, jd, currentQuestion)
    }

    constructor ()
      ensures State() == InitialContext
      ensures resume == "" && jd == "" && currentQuestion == "Introduction"
    {
      resume := "";
      jd := "";
      currentQuestion := "Introduction";
    }

    /** `upload()`: writes resume and job description only when both are given. */
    method Upload(resumeFile: Option<PdfFile>, jdField: Option<string>) returns (reply: UploadReply)
      modifies this`resume, this`jd
      ensures UploadResult(State(), reply) == UploadStep(old(State()), resumeFile, jdField)
    {
      if ResumeGiven(resumeFile) && JdGiven(jdField) {
        resume := resumeFile.value.text;
        jd := jdField.value;
        reply := Ready;
      } else {
        reply := MissingInputs;
      }
    }

    /** `chat()`: profile, grade when the gate allows, generate the reply, and
        keep its end as the next turn's question; nothing else is written. */
    method Chat(userMsg: string, history: seq<Message>, svc: Services) returns (reply: Outcome<ChatReply>)
      modifies this`currentQuestion
      ensures reply == ChatStep(old(State()), userMsg, history, svc).reply
      ensures State() == ChatStep(old(State()), userMsg, history, svc).after
    {
      var profileData := Profiler.Analyze(userMsg, history, svc.classify);
      var graderData: Option<Grader.Grade> := None;
      if profileData.isRelevant && profileData.persona != "silent" {
        graderData := Some(Grader.Evaluate(userMsg, currentQuestion, jd, svc.grade));
      }
      var rawResponse := Interviewer.GenerateResponse(userMsg, history, resume, jd,
                                                      profileData, graderData, svc.complete);
      if rawResponse.Failed? {
        return Failed;
      }
      currentQuestion := Last(rawResponse.value, QuestionContextLength);
      reply := Ok(ChatReply(rawResponse.value, DebugOf(profileData, graderData)));
    }
  }
}
