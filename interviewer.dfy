/** The interviewer agent (agents/interviewer.py): builds the message list for
    the completion service and returns the service's reply as it is. */
module Interviewer {
  import opened Base
  import Profiler
  import Grader

  /** How much of the resume and of the job description the prompt carries. */
  const ContextExcerptLength := 500

  /** The values the system prompt interpolates; its wording is not modelled.
      `score` and `requiresFollowup` are absent (Python's `None` from `dict.get`)
      when the turn was not graded. */
  datatype InterviewerPrompt = InterviewerPrompt(
    resumeExcerpt: string,
    jdExcerpt: string,
    persona: string,
    isRelevant: bool,
    score: Option<int>,
    requiresFollowup: Option<bool>)

  /** One entry of the message list sent to the service: the system prompt, or a
      chat message (from the history, or the new user message). */
  datatype Entry = SystemEntry(prompt: InterviewerPrompt) | ChatEntry(message: Message)
  {
    function Role(): string {
      match this
      case SystemEntry(_) => "system"
      case ChatEntry(m) => m.role
    }
  }

  function Prompt(resume: string, jd: string, profile: Profiler.Profile,
                  grade: Option<Grader.Grade>): (p: InterviewerPrompt)
    ensures |p.resumeExcerpt| == Min(ContextExcerptLength, |resume|)
    ensures |p.jdExcerpt| == Min(ContextExcerptLength, |jd|)
    ensures p.resumeExcerpt == resume[..|p.resumeExcerpt|] && p.jdExcerpt == jd[..|p.jdExcerpt|]
    ensures p.persona == profile.persona && p.isRelevant == profile.isRelevant
    ensures grade.None? ==> p.score.None? && p.requiresFollowup.None?
    ensures grade.Some? ==> p.score == Some(grade.value.score)
    ensures grade.Some? ==> p.requiresFollowup == Some(grade.value.requiresFollowup)
  {
    var p := InterviewerPrompt(
      Prefix(resume, ContextExcerptLength),
      Prefix(jd, ContextExcerptLength),
      profile.persona,
      profile.isRelevant,
      if grade.Some? then Some(grade.value.score) else None,
      if grade.Some? then Some(grade.value.requiresFollowup) else None);
    assert p.resumeExcerpt == resume[..|p.resumeExcerpt|];
    assert p.jdExcerpt == jd[..|p.jdExcerpt|];
    p
  }

  /** The message list the service receives: the system prompt first, then the
      history in its order and unmodified, then the user message. */
  function Messages(prompt: InterviewerPrompt, history: seq<Message>, userInput: string): (ms: seq<Entry>)
    ensures |ms| == |history| + 2
    ensures ms[0] == SystemEntry(prompt) && ms[0].Role() == "system"
    ensures forall k :: 0 <= k < |history| ==> ms[k + 1] == ChatEntry(history[k])
    ensures ms[|history| + 1] == ChatEntry(Message("user", userInput))
  {
    [SystemEntry(prompt)]
      + seq(|history|, k requires 0 <= k < |history| => ChatEntry(history[k]))
      + [ChatEntry(Message("user", userInput))]
  }

  /** `InterviewerAgent.generate_response`.  The reply is the service's text,
      neither split at its [ANALYSIS]/[RESPONSE] markers nor defaulted: a failed
      call is passed on to the caller. */
  method GenerateResponse(userInput: string, history: seq<Message>, resume: string, jd: string,
                          profilerData: Profiler.Profile, graderData: Option<Grader.Grade>,
                          complete: seq<Entry> -> Outcome<string>)
    returns (reply: Outcome<string>)
    ensures reply == complete(Messages(Prompt(resume, jd, profilerData, graderData), history, userInput))
  {
    var prompt := Prompt(resume, jd, profilerData, graderData);
    var messages := [SystemEntry(prompt)];
    for i := 0 to |history|
      invariant |messages| == i + 1
      invariant messages[0] == SystemEntry(prompt)
      invariant forall k :: 0 <= k < i ==> messages[k + 1] == ChatEntry(history[k])
    {
      messages := messages + [ChatEntry(history[i])];
    }
    messages := messages + [ChatEntry(Message("user", userInput))];
    assert messages == Messages(prompt, history, userInput);
    reply := complete(messages);
  }
}
