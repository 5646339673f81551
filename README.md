# Mock interview agent: session record and turn pipeline

This project models the deterministic layer of a Flask mock-interview server
("Byte"). The server talks to a candidate through three LLM agents:

- a **profiler** classifies each utterance into a persona, a relevance flag and a sentiment;
- a **grading agent** scores an answer against the job description and the current question;
- an **interviewer** writes the next reply.

The repository also holds a fourth agent, a **feedback generator**. It builds a
report from score statistics and a transcript of the conversation. The server
never imports or calls it (app.py:19-23 and 37-41 set up only the three agents
above), so it is modelled as a module of its own.

Every call to the completion service is a function parameter here. Each such
parameter returns `Ok(parsed value)` or `Failed`. The parameter stands for the
client call together with `json.loads`, so a failure covers network errors and
unparsable output alike. Prompt wording is not modelled. Each prompt is a record
of the values the source interpolates into it, such as the job-description prefix
or the current question.

Modules, one per source file:

- `Base`: `Option`, `Outcome` and `Message`, plus Python's slicing `s[:n]` (`Prefix`) and `s[-n:]` (`Last`) and the substring test `t in s` (`Contains`).
- `Profiler` (agents/profiler.py): `Analyze`. It has the silence-token short-circuit, the fallback result and the pass-through of the parsed result.
- `Grader` (agents/grader.py): `Evaluate`. It builds a request holding the first 300 characters of the job description. A failure gives the fallback grade.
- `Interviewer` (agents/interviewer.py): `GenerateResponse`. This is a method that builds the message list step by step, as the source does, and is proved against the specification function `Messages`.
- `FeedbackGenerator` (agents/feedback_generator.py): score statistics, the transcript of the last 20 exchanges, the 1000-character excerpts, and the report or its fallback.
- `App` (app.py): the `Session` class stands for the module-level `session_context` record. Its `Upload` and `Chat` methods are proved against the pure step functions `UploadStep` and `ChatStep`. The properties are lemmas about those functions.

Points where the code's behaviour is easy to misread:

- Upload writes only `resume` and `jd`. It does not reset `current_question`.
- The grading agent's score is passed through unclamped. Nothing restricts it to 0..100.
- The profiler's parsed output is returned as it is. No field is defaulted on its own.
- The session record holds only `resume`, `jd` and `current_question`. The code keeps no interview phase, question count, score history, anomaly log or session archive, and it has no termination phrases, so none of these is modelled.
- A failed interviewer call raises out of `chat()` before the record is written. The model returns `Failed` and leaves the record unchanged.

## Model

| member | source | states |
|---|---|---|
| `Base.Prefix` | agents/grader.py:17 | `s[:n]` has length `min(n, len(s))` and agrees with `s` position by position |
| `Base.Last` | app.py:149 | `s[-n:]` has length `min(n, len(s))` and consists of the final elements of `s`, in order |
| `Base.Contains` | agents/profiler.py:17 | the substring test holds exactly when the token occurs at some position of the input |
| `Profiler.SilenceShortCircuits` | agents/profiler.py:17-19 | an input containing `[SYSTEM_TIMEOUT]` gives persona `silent` with `is_relevant` false, whatever the service would answer (the service is not consulted) |
| `Profiler.FailureFallsBack` | agents/profiler.py:83-85 | a failed call gives persona `normal`, relevant, sentiment `neutral` |
| `Profiler.ParsedPassesThrough` | agents/profiler.py:81 | a parsed result is returned unchanged, with no field defaulted |
| `Profiler.OnlyUserInputIsSent` | agents/profiler.py:13-71 | the result depends only on the service's answer to `"User Input: " + user_input`; the context history has no influence |
| `Grader.RequestContents` | agents/grader.py:15-63 | the request carries exactly the first min(300, len(jd)) characters of the job description, the current question, and `"Candidate Answer: " + user_input` |
| `Grader.SeesOnlyJdPrefix` | agents/grader.py:17 | job descriptions that agree on their first 300 characters are graded alike |
| `Grader.FailureFallsBack` | agents/grader.py:75-77 | a failed call gives score 50, correct, no follow-up |
| `Grader.ParsedPassesThrough` | agents/grader.py:73 | a parsed grade is returned unmodified |
| `Grader.ScoreIsNotClamped` | agents/grader.py:73 | a score below 0 or above 100 that the service answers is the score reported; in-range scores are covered by `Grader.ParsedPassesThrough` |
| `Interviewer.Prompt` | agents/interviewer.py:25-31 | the prompt carries the first min(500, len(text)) characters of the resume and of the job description, the persona and relevance, and the grade's score and follow-up flag, which are absent exactly when the turn was not graded |
| `Interviewer.Messages` | agents/interviewer.py:105-109 | the list has len(history) + 2 entries: the system prompt first, then the history in order and unmodified, then role `user` with the input |
| `Interviewer.GenerateResponse` | agents/interviewer.py:105-123 | the message list built step by step is the list `Messages` specifies, and the reply is the service's output for it, unparsed; a failure is passed on |
| `FeedbackGenerator.Highest` | agents/feedback_generator.py:23 | the maximum is an element of the list and no score exceeds it |
| `FeedbackGenerator.Lowest` | agents/feedback_generator.py:24 | the minimum is an element of the list and no score is below it |
| `FeedbackGenerator.Statistics` | agents/feedback_generator.py:22-24 | an empty list gives average, max and min 0; otherwise max and min are elements and bound every score |
| `FeedbackGenerator.SumBounds` | agents/feedback_generator.py:22 | scores within `[lo, hi]` sum to between `lo * n` and `hi * n` |
| `FeedbackGenerator.SumWithinRange` | agents/feedback_generator.py:22-24 | for a non-empty list `min * n <= sum <= max * n` |
| `FeedbackGenerator.AverageWithinRange` | agents/feedback_generator.py:22-24 | for a non-empty list the average lies in `[min, max]`, and the score range `max - min` reported in the prompt is not negative |
| `FeedbackGenerator.LineShape` | agents/feedback_generator.py:28 | a transcript line is `"Q: "` for role `assistant` and `"A: "` otherwise, then the first min(200, len(content)) characters of the content |
| `FeedbackGenerator.SummaryLines` | agents/feedback_generator.py:27-30 | the transcript has one line for each of the last min(20, len(history)) exchanges, in their original order |
| `FeedbackGenerator.SummaryUsesLastTwenty` | agents/feedback_generator.py:29 | histories whose last 20 exchanges agree give the same transcript |
| `FeedbackGenerator.ContextExcerptIsPrefix` | agents/feedback_generator.py:42-45 | the conditional truncation equals the prefix slice of 1000 characters and is idempotent |
| `FeedbackGenerator.PromptContents` | agents/feedback_generator.py:21-55 | the prompt carries the 1000-character excerpts, the question count, the statistics of exactly the given scores, the range `max - min` (never negative), and the transcript of the last 20 exchanges |
| `FeedbackGenerator.FailureGivesFallbackReport` | agents/feedback_generator.py:136-155 | a failed call gives the fallback report carrying the average score (0 with no scores), not an error |
| `FeedbackGenerator.GeneratedPassesThrough` | agents/feedback_generator.py:123-135 | a written report is returned as the service produced it |
| `App.UploadSucceedsIffBothGiven` | app.py:77-91 | upload succeeds if and only if both inputs are given; it then sets resume and job description and keeps the current question; otherwise it answers 400 and leaves the record unchanged |
| `App.GradedIffRelevantAndNotSilent` | app.py:111-121 | every turn is profiled; a grade exists if and only if the profile is relevant and not `silent`, and is otherwise empty |
| `App.GraderSeesRecordBeforeTurn` | app.py:121 | the grading agent receives the current question and job description from before this turn's update |
| `App.SkippedGraderIsNotConsulted` | app.py:117-121 | an ungraded turn is the same under any grading service |
| `App.QuestionIsEndOfReply` | app.py:149 | after a turn the current question is the last min(100, len(reply)) characters of the raw reply; after a failed interviewer call the record is unchanged |
| `App.ChatKeepsResumeAndJd` | app.py:97-167 | a chat turn never changes resume or job description |
| `App.ReplyContents` | app.py:129-167 | the response is the interviewer's raw output; debug holds the persona, the score or `'N/A'` exactly when ungraded, and the follow-up flag or `False` |
| `App.SilentTurnNeverGraded` | app.py:119 | a turn containing the silence token is profiled silent and never graded; its debug is persona `silent`, score `'N/A'`, follow-up `False` |
| `App.NextTurnGradedAgainstPreviousReply` | app.py:121-149 | a graded second turn is graded against the last 100 characters of the first turn's reply |
| `App.Session.constructor` | app.py:47-55 | the record starts as `resume = ""`, `jd = ""`, `current_question = "Introduction"` |
| `App.Session.Upload` | app.py:83-91 | the new record and the reply are those `UploadStep` gives; only `resume` and `jd` may be written |
| `App.Session.Chat` | app.py:97-167 | the reply and the new record are those `ChatStep` gives; only `current_question` may be written |

## Left out

- HTTP transport: Flask routing, CORS, `render_template`, JSON encoding of requests and responses, and `app.run`. Status codes appear only as `UploadReply.Status()`.
- PDF text extraction with pypdf. The uploaded resume is a file name plus the text extraction would yield. An extraction error is not modelled.
- The Groq client and `json.loads`. Each agent's service call is a function parameter that returns a parsed record or `Failed`. The wording of every prompt, the model names and the temperatures are not modelled.
- Malformed service output, for example a parsed profile without `is_relevant`, which makes `chat()` raise a missing-key error. Parsed results are records with required fields.
- A request without a `message` field. The profiler's substring test then raises, and the model takes the message as a string.
- Float formatting of the average (`:.1f`). Scores are integers and the average is an exact real.
- `Base.Last` models `s[-n:]` only for positive `n` (it requires `n > 0`), the only bounds the source uses. In Python `s[-0:]` is the whole string.
- Concurrent requests: each `upload()` and `chat()` is modelled as one atomic step of the single `Session`. Flask's threaded server can interleave them on the shared `session_context`, and the model does not capture those interleavings. An upload landing between the grading agent's read of `jd` (app.py:121) and the interviewer's reads of `resume` and `jd` (app.py:129-143) makes the two agents see different job descriptions. Two concurrent chats can both read `current_question` before either writes it at app.py:149, so the last writer wins.
- Strings are sequences of Unicode code points, as in Python 3. No normalisation or encoding is modelled.
- The interviewer agent's message roles are strings taken from the history as sent, and the system prompt is a record, not text.
- The feedback generator is never called by the server (see the opening), so no route or session state connects to it.
