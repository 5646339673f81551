/** The profiler agent (agents/profiler.py): classifies one candidate utterance
    into a persona, a relevance flag and a sentiment. */
module Profiler {
  import opened Base

  /** The token the front end sends in place of an answer when the candidate's
      time runs out. */
  const SilenceToken := "[SYSTEM_TIMEOUT]"

  /** The parsed classification.  The service's JSON is taken as a record with
      these fields; the fixed results below leave `sentiment` or `advice` out,
      as the source's dictionaries do. */
  datatype Profile = Profile(
    persona: string,
    isRelevant: bool,
    sentiment: Option<string>,
    advice: Option<string>)

  /** Returned for a timed-out turn, without consulting the service. */
  const SilentProfile := Profile("silent", false, None, Some("User is away. Prompt them gently."))

  /** Returned when the service call or the parsing of its output fails. */
  const FallbackProfile := Profile("normal", true, Some("neutral"), None)

  /** The user message sent to the service; the system prompt is a constant. */
  function UserContent(userInput: string): string {
    "User Input: " + userInput
  }

  /** `ProfilerAgent.analyze`.  `classify` stands for the completion service
      followed by `json.loads`, applied to the user message of the request. */
  function Analyze(userInput: string, contextHistory: seq<Message>,
                   classify: string -> Outcome<Profile>): Profile
  {
    if Contains(userInput, SilenceToken) then SilentProfile
    else match classify(UserContent(userInput))
      case Ok(parsed) => parsed
      case Failed => FallbackProfile
  }

  /** An utterance containing the silence token is classified silent and
      irrelevant whatever the service would answer: the service is not consulted. */
  lemma SilenceShortCircuits(userInput: string, contextHistory: seq<Message>,
                             classify: string -> Outcome<Profile>)
    requires Contains(userInput, SilenceToken)
    ensures Analyze(userInput, contextHistory, classify) == SilentProfile
    ensures Analyze(userInput, contextHistory, classify).persona == "silent"
    ensures !Analyze(userInput, contextHistory, classify).isRelevant
  {
  }

  /** A failed call yields persona "normal", relevant, neutral sentiment. */
  lemma FailureFallsBack(userInput: string, contextHistory: seq<Message>,
                         classify: string -> Outcome<Profile>)
    requires !Contains(userInput, SilenceToken)
    requires classify(UserContent(userInput)).Failed?
    ensures Analyze(userInput, contextHistory, classify) == FallbackProfile
    ensures Analyze(userInput, contextHistory, classify).persona == "normal"
    ensures Analyze(userInput, contextHistory, classify).isRelevant
    ensures Analyze(userInput, contextHistory, classify).sentiment == Some("neutral")
  {
  }

  /** A parsed answer is returned as it is, no field defaulted or rewritten. */
  lemma ParsedPassesThrough(userInput: string, contextHistory: seq<Message>,
                            classify: string -> Outcome<Profile>)
    requires !Contains(userInput, SilenceToken)
    requires classify(UserContent(userInput)).Ok?
    ensures Analyze(userInput, contextHistory, classify) == classify(UserContent(userInput)).value
  {
  }

  /** The service is consulted on one request only, built from the utterance:
      two services agreeing on that request give the same classification, and
      the conversation history plays no part. */
  lemma OnlyUserInputIsSent(userInput: string, history1: seq<Message>, history2: seq<Message>,
                            classify1: string -> Outcome<Profile>,
                            classify2: string -> Outcome<Profile>)
    requires classify1(UserContent(userInput)) == classify2(UserContent(userInput))
    ensures Analyze(userInput, history1, classify1) == Analyze(userInput, history2, classify2)
  {
  }
}
