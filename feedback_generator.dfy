/** The feedback generator (agents/feedback_generator.py): score statistics, a
    transcript of the last exchanges, and the final report. */
module FeedbackGenerator {
  import opened Base

  /** How many of the most recent exchanges the transcript keeps. */
  const TranscriptWindow := 20
  /** How much of each exchange the transcript keeps. */
  const LineExcerptLength := 200
  /** How much of the resume and of the job description the prompt carries. */
  const ContextExcerptLength := 1000

  // ---------------------------------------------------------------------------
  // Score statistics

  function Sum(scores: seq<int>): int {
    if scores == [] then 0 else scores[0] + Sum(scores[1..])
  }

  /** Python's `max` over a non-empty list. */
  function Highest(scores: seq<int>): (m: int)
    requires scores != []
    ensures m in scores
    ensures forall s :: s in scores ==> s <= m
  {
    if |scores| == 1 then scores[0]
    else
      var rest := Highest(scores[1..]);
      assert forall s :: s in scores ==> s == scores[0] || s in scores[1..];
      if scores[0] >= rest then scores[0] else rest
  }

  /** Python's `min` over a non-empty list. */
  function Lowest(scores: seq<int>): (m: int)
    requires scores != []
    ensures m in scores
    ensures forall s :: s in scores ==> m <= s
  {
    if |scores| == 1 then scores[0]
    else
      var rest := Lowest(scores[1..]);
      assert forall s :: s in scores ==> s == scores[0] || s in scores[1..];
      if scores[0] <= rest then scores[0] else rest
  }

  datatype Stats = Stats(average: real, highest: int, lowest: int)

  /** The statistics the report states; every one of them is 0 for an
      interview with no scores.  The average is exact here (no float rounding). */
  function Statistics(scores: seq<int>): (st: Stats)
    ensures scores == [] ==> st == Stats(0.0, 0, 0)
    ensures scores != [] ==> st.highest in scores && st.lowest in scores
    ensures forall s :: s in scores ==> st.lowest <= s <= st.highest
  {
    if scores == [] then Stats(0.0, 0, 0)
    else Stats((Sum(scores) as real) / (|scores| as real), Highest(scores), Lowest(scores))
  }

  /** The "Score Range" line of the prompt. */
  function ScoreRange(st: Stats): int {
    st.highest - st.lowest
  }

  /** Scores that all lie in [lo, hi] sum to between lo and hi times their number. */
  lemma {:induction false} SumBounds(scores: seq<int>, lo: int, hi: int)
    requires forall s :: s in scores ==> lo <= s <= hi
    ensures lo * |scores| <= Sum(scores) <= hi * |scores|
  {
    if scores != [] {
      assert scores[0] in scores;
      assert forall s :: s in scores[1..] ==> s in scores;
      SumBounds(scores[1..], lo, hi);
      assert lo * |scores| == lo + lo * |scores[1..]|;
      assert hi * |scores| == hi + hi * |scores[1..]|;
    }
  }

  /** An integer total between lo * n and hi * n, divided by n, lies between lo and hi. */
  lemma QuotientBetween(total: int, n: int, lo: int, hi: int)
    requires n > 0
    requires lo * n <= total <= hi * n
    ensures lo as real <= (total as real) / (n as real) <= hi as real
  {
    var q := (total as real) / (n as real);
    assert q * (n as real) == total as real;
    assert (lo * n) as real == (lo as real) * (n as real);
    assert (hi * n) as real == (hi as real) * (n as real);
  }

  /** For a non-empty list, `min * n <= sum <= max * n`. */
  lemma SumWithinRange(scores: seq<int>)
    requires scores != []
    ensures Lowest(scores) * |scores| <= Sum(scores) <= Highest(scores) * |scores|
  {
    SumBounds(scores, Lowest(scores), Highest(scores));
  }

  /** Hence the average lies between the lowest and the highest score, and the
      range is never negative. */
  lemma AverageWithinRange(scores: seq<int>)
    requires scores != []
    ensures Statistics(scores).lowest as real <= Statistics(scores).average <= Statistics(scores).highest as real
    ensures ScoreRange(Statistics(scores)) >= 0
  {
    SumWithinRange(scores);
    QuotientBetween(Sum(scores), |scores|, Lowest(scores), Highest(scores));
  }

  // ---------------------------------------------------------------------------
  // Conversation summary

  /** One transcript line: "Q: " for the interviewer's turns, "A: " for every
      other role, then the first 200 characters of the text. */
  function Line(exchange: Message): string {
    (if exchange.role == "assistant" then "Q: " else "A: ") + Prefix(exchange.content, LineExcerptLength)
  }

  lemma LineShape(exchange: Message)
    ensures var line := Line(exchange);
      && |line| == 3 + Min(LineExcerptLength, |exchange.content|)
      && line[..3] == (if exchange.role == "assistant" then "Q: " else "A: ")
      && line[3..] == exchange.content[..|line| - 3]
  {
    var line := Line(exchange);
    assert line[3..] == Prefix(exchange.content, LineExcerptLength);
  }

  /** One transcript line per exchange, in order. */
  function Lines(exchanges: seq<Message>): (lines: seq<string>)
    ensures |lines| == |exchanges|
    ensures forall k :: 0 <= k < |lines| ==> lines[k] == Line(exchanges[k])
  {
    seq(|exchanges|, k requires 0 <= k < |exchanges| => Line(exchanges[k]))
  }

  /** The transcript lines: one per exchange among the last 20, in their order. */
  function SummaryLines(history: seq<Message>): (lines: seq<string>)
    ensures |lines| == Min(TranscriptWindow, |history|)
    ensures forall k :: 0 <= k < |lines| ==> lines[k] == Line(history[|history| - |lines| + k])
  {
    Lines(Last(history, TranscriptWindow))
  }

  /** Python's `sep.join(lines)`. */
  function Join(lines: seq<string>, sep: string): string {
    if lines == [] then ""
    else if |lines| == 1 then lines[0]
    else lines[0] + sep + Join(lines[1..], sep)
  }

  function ConversationSummary(history: seq<Message>): string {
    Join(SummaryLines(history), "\n")
  }

  /** The transcript depends on the last 20 exchanges only: histories that end
      alike are summarised alike. */
  lemma SummaryUsesLastTwenty(history1: seq<Message>, history2: seq<Message>)
    requires Last(history1, TranscriptWindow) == Last(history2, TranscriptWindow)
    ensures ConversationSummary(history1) == ConversationSummary(history2)
  {
  }

  // ---------------------------------------------------------------------------
  // Resume and job description excerpts

  /** The prompt's `text[:1000] if len(text) > 1000 else text`. */
  function ContextExcerpt(text: string): string {
    if |text| > ContextExcerptLength then text[..ContextExcerptLength] else text
  }

  /** The conditional is a plain prefix slice, and slicing again changes nothing. */
  lemma ContextExcerptIsPrefix(text: string)
    ensures ContextExcerpt(text) == Prefix(text, ContextExcerptLength)
    ensures |ContextExcerpt(text)| == Min(ContextExcerptLength, |text|)
    ensures ContextExcerpt(ContextExcerpt(text)) == ContextExcerpt(text)
  {
  }

  // ---------------------------------------------------------------------------
  // The report

  /** The values the system prompt interpolates; its wording is not modelled. */
  datatype FeedbackPrompt = FeedbackPrompt(
    resumeExcerpt: string,
    jdExcerpt: string,
    questionCount: int,
    stats: Stats,
    scoreRange: int,
    conversation: string)

  /** A report written by the service, or the fixed report that carries the
      average score when the service call fails. */
  datatype Report = Generated(text: string) | FallbackReport(averageScore: real)

  function Prompt(history: seq<Message>, resume: string, jd: string,
                  allScores: seq<int>, questionCount: int): FeedbackPrompt
  {
    var st := Statistics(allScores);
    FeedbackPrompt(ContextExcerpt(resume), ContextExcerpt(jd), questionCount, st,
                   ScoreRange(st), ConversationSummary(history))
  }

  /** `FeedbackGeneratorAgent.generate_comprehensive_feedback`.  `write` stands
      for the completion service, applied to the prompt. */
  function GenerateComprehensiveFeedback(history: seq<Message>, resume: string, jd: string,
                                         allScores: seq<int>, questionCount: int,
                                         write: FeedbackPrompt -> Outcome<string>): Report
  {
    match write(Prompt(history, resume, jd, allScores, questionCount))
    case Ok(text) => Generated(text)
    case Failed => FallbackReport(Statistics(allScores).average)
  }

  /** A failed call never surfaces as an error: the fallback report is
      returned, with the average score (0 when there are no scores). */
  lemma FailureGivesFallbackReport(history: seq<Message>, resume: string, jd: string,
                                   allScores: seq<int>, questionCount: int,
                                   write: FeedbackPrompt -> Outcome<string>)
    requires write(Prompt(history, resume, jd, allScores, questionCount)).Failed?
    ensures var r := GenerateComprehensiveFeedback(history, resume, jd, allScores, questionCount, write);
      && r.FallbackReport?
      && r.averageScore == Statistics(allScores).average
      && (allScores == [] ==> r.averageScore == 0.0)
  {
  }

  /** A written report is returned as the service produced it. */
  lemma GeneratedPassesThrough(history: seq<Message>, resume: string, jd: string,
                               allScores: seq<int>, questionCount: int,
                               write: FeedbackPrompt -> Outcome<string>)
    requires write(Prompt(history, resume, jd, allScores, questionCount)).Ok?
    ensures GenerateComprehensiveFeedback(history, resume, jd, allScores, questionCount, write)
         == Generated(write(Prompt(history, resume, jd, allScores, questionCount)).value)
  {
  }

  /** The prompt carries the statistics of exactly the given scores with their
      range, the first 1000 characters of resume and job description, the
      question count, and the transcript of the last 20 exchanges. */
  lemma PromptContents(history: seq<Message>, resume: string, jd: string,
                       allScores: seq<int>, questionCount: int)
    ensures var p := Prompt(history, resume, jd, allScores, questionCount);
      && p.resumeExcerpt == Prefix(resume, ContextExcerptLength)
      && p.jdExcerpt == Prefix(jd, ContextExcerptLength)
      && p.questionCount == questionCount
      && p.stats == Statistics(allScores)
      && p.scoreRange == p.stats.highest - p.stats.lowest
      && p.scoreRange >= 0
      && p.conversation == ConversationSummary(history)
  {
    ContextExcerptIsPrefix(resume);
    ContextExcerptIsPrefix(jd);
    if allScores != [] {
      assert Statistics(allScores).lowest in allScores;
    }
  }
}
