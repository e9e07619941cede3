/**
 * The request side of src/rag_chat.py: the sliding-window rate limiter, the
 * one-hour response cache, the conversation log, prompt selection, response
 * decoration and the decisions `rag_query` takes before and after calling
 * the language model. The clock, the model call and the number formatting
 * are parameters; module-level globals are the fields of `ChatSession`.
 */
module RagChat {
  import opened Wrappers
  import opened Text
  import opened OrderedMaps
  import opened Metadata
  import opened Retrieval
  import opened Alignment
  import opened Keywords
  import opened Corpus

  const MaxCallsPerMinute: nat := 10
  const RateWindow: int := 60
  const CacheLifetime: int := 3600
  /** How much of the context goes into the cache key. */
  const CacheKeyContext: nat := 500
  /** The search depth used for questions about the job description. */
  const JdSearchDepth: nat := 8
  const KeywordLineLimit: nat := 15

  /** The mode literals `build_prompt` and `rag_query` compare against, character for character. */
  const RoastMode: string := "\U{F8FF}\U{FC}\U{EE}\U{2022} Roast Mode"
  const ConstructiveMode: string := "\U{F8FF}\U{FC}\U{ED}\U{B0} Constructive Mode"
  /** The labels the user interface passes (src/resume_roaster_app.py:146). */
  const UiRoastMode: string := "\U{1F525} Roast Mode"
  const UiConstructiveMode: string := "\U{1F4A1} Constructive Mode"

  // ---------------------------------------------------------------------
  // Rate limiter
  // ---------------------------------------------------------------------

  /** The timestamps still inside the one-minute window at time now, in their order. */
  function Recent(times: seq<int>, now: int): seq<int> {
    Filter(times, t => now - t < RateWindow)
  }

  predicate NonDecreasing(s: seq<int>) {
    forall i, j :: 0 <= i < j < |s| ==> s[i] <= s[j]
  }

  predicate NotAfter(s: seq<int>, now: int) {
    forall i :: 0 <= i < |s| ==> s[i] <= now
  }

  /** Pruning keeps exactly the timestamps less than a minute old, never grows the list, and is idempotent. */
  lemma RecentSpec(times: seq<int>, now: int)
    ensures |Recent(times, now)| <= |times|
    ensures forall t :: t in Recent(times, now) <==> t in times && now - t < RateWindow
    ensures Recent(Recent(times, now), now) == Recent(times, now)
  {
    FilterSpec(times, t => now - t < RateWindow);
    FilterTwice(times, t => now - t < RateWindow);
  }

  lemma {:induction false} FilterTwice<T>(s: seq<T>, p: T -> bool)
    ensures Filter(Filter(s, p), p) == Filter(s, p)
    decreases |s|
  {
    if s != [] {
      var prev := Filter(s[..|s| - 1], p);
      FilterTwice(s[..|s| - 1], p);
      var x := s[|s| - 1];
      if p(x) {
        assert (prev + [x])[..|prev + [x]| - 1] == prev;
      }
    }
  }

  /** Pruning keeps the timestamps in order. */
  lemma {:induction false} RecentKeepsOrder(times: seq<int>, now: int)
    requires NonDecreasing(times)
    ensures NonDecreasing(Recent(times, now))
    decreases |times|
  {
    if times != [] {
      var init, x := times[..|times| - 1], times[|times| - 1];
      RecentKeepsOrder(init, now);
      FilterSpec(init, t => now - t < RateWindow);
      var prev := Recent(init, now);
      if now - x < RateWindow {
        forall i | 0 <= i < |prev|
          ensures prev[i] <= x
        {
          assert prev[i] in init;
        }
      }
    }
  }

  /** With no timestamp later than now, a refusal asks to wait more than 0 and at most 60 seconds. */
  lemma WaitBounds(times: seq<int>, now: int)
    requires NotAfter(times, now)
    requires Recent(times, now) != []
    ensures 0 < RateWindow - (now - Recent(times, now)[0]) <= RateWindow
  {
    RecentSpec(times, now);
    var first := Recent(times, now)[0];
    assert first in Recent(times, now);
  }

  function RateLimitMessage(wait: nat): string {
    ("\U{201A}\U{E8}\U{2265} Rate limit reached. Please wait ") + NatToString(wait)
      + (" seconds before asking another question. " + "(This prevents API quota issues)")
  }

  // ---------------------------------------------------------------------
  // Prompts
  // ---------------------------------------------------------------------

  /** The three fixed system messages of `build_prompt`. */
  datatype SystemPrompt = RoastPrompt | ConstructivePrompt | NormalPrompt

  function SystemPromptFor(mode: string): SystemPrompt {
    if mode == RoastMode then RoastPrompt
    else if mode == ConstructiveMode then ConstructivePrompt
    else NormalPrompt
  }

  const AlignmentHeading: string := "                JOB DESCRIPTION " + "ALIGNMENT:\n                - Match " + "Score: "

  /** The body of the alignment block: the match score and the weak sections ("None" when there are none). */
  function AlignmentBody(report: Report, oneDecimal: real -> string): string {
    var weak := if report.weakSections != [] then Join(report.weakSections, ", ") else "None";
    AlignmentHeading + oneDecimal(report.overallMatch) + ("%\n                - Sections needing " + "improvement: ") + weak
      + ("\n\n                Address gaps between " + "the resume and JD requirements in " + "your feedback.\n                ")
  }

  /** The job-description alignment block of the user message: empty without a comparison. */
  function JdContext(comparison: Option<Report>, oneDecimal: real -> string): (r: string)
    ensures r == [] <==> comparison.None?
  {
    match comparison
    case None => ""
    case Some(report) => "\n" + AlignmentBody(report, oneDecimal)
  }

  const ResumeContentHeading: string := "\n\n                RESUME CONTENT:\n" + "                "
  const UserRequestHeading: string := "\n\n                USER REQUEST: "

  /** `build_prompt`: the system message and the user message. */
  function BuildPrompt(query: string, context: string, mode: string, comparison: Option<Report>,
                       oneDecimal: real -> string): (SystemPrompt, string)
  {
    (SystemPromptFor(mode), JdContext(comparison, oneDecimal) + ResumeContentHeading + context + UserRequestHeading + query)
  }

  /**
   * The system message is chosen by exact equality with the two mode
   * literals (any other mode, the interface's labels among them, gets the
   * normal one); the user message opens with the alignment block, which is
   * empty exactly when there is no comparison, and carries both the context
   * and the query.
   */
  lemma BuildPromptSpec(query: string, context: string, mode: string, comparison: Option<Report>,
                        oneDecimal: real -> string)
    ensures var (system, user) := BuildPrompt(query, context, mode, comparison, oneDecimal);
      && (system == RoastPrompt <==> mode == RoastMode)
      && (system == ConstructivePrompt <==> mode == ConstructiveMode)
      && (system == NormalPrompt <==> mode != RoastMode && mode != ConstructiveMode)
      && StartsWith(user, JdContext(comparison, oneDecimal))
      && (comparison.None? <==> JdContext(comparison, oneDecimal) == [])
      && Contains(user, context)
      && Contains(user, query)
  {
    assert RoastMode[2] != ConstructiveMode[2];
    PiecesOfConcat(JdContext(comparison, oneDecimal), ResumeContentHeading, context, UserRequestHeading, query);
  }

  /** The interface's mode labels are not the literals `build_prompt` tests, so both get the normal prompt. */
  lemma InterfaceModesGetNormalPrompt()
    ensures SystemPromptFor(UiRoastMode) == NormalPrompt
    ensures SystemPromptFor(UiConstructiveMode) == NormalPrompt
  {
    assert UiRoastMode[0] != RoastMode[0];
    assert UiConstructiveMode[0] != ConstructiveMode[0];
  }

  // ---------------------------------------------------------------------
  // Decoration and filtering
  // ---------------------------------------------------------------------

  const RoastHeader: string := "\U{F8FF}\U{FC}\U{EE}\U{2022} **ROAST MODE** \U{F8FF}\U{FC}\U{EE}\U{2022}\n\n"
  const RoastFooter: string := "\n\n---\n\U{F8FF}\U{FC}\U{ED}\U{C4} *Now go fix this mess.* " + "\U{F8FF}\U{FC}\U{ED}\U{C4}"
  const ConstructiveHeader: string := "\U{F8FF}\U{FC}\U{ED}\U{B0} **CONSTRUCTIVE ANALYSIS** \U{F8FF}\U{FC}\U{ED}\U{B0}\n" + "\n"
  const ConstructiveFooter: string := "\n\n---\n*You've got this! Every improvement " + "matters.*"

  /** header + response + footer, and the three pieces can be read back off the result. */
  function Decorate(header: string, response: string, footer: string): (r: string)
    ensures |r| == |header| + |response| + |footer|
    ensures r[..|header|] == header
    ensures r[|header|..|header| + |response|] == response
    ensures r[|header| + |response|..] == footer
  {
    header + response + footer
  }

  /** `enhance_roast_response` */
  function EnhanceRoastResponse(response: string): string {
    Decorate(RoastHeader, response, RoastFooter)
  }

  /** `enhance_constructive_response` */
  function EnhanceConstructiveResponse(response: string): string {
    Decorate(ConstructiveHeader, response, ConstructiveFooter)
  }

  /** Stripping the fixed header and footer gives the response back. */
  lemma EnhanceInverse(response: string)
    ensures var r := EnhanceRoastResponse(response);
      && StartsWith(r, RoastHeader)
      && r[|RoastHeader|..|r| - |RoastFooter|] == response
      && r[|r| - |RoastFooter|..] == RoastFooter
    ensures var r := EnhanceConstructiveResponse(response);
      && StartsWith(r, ConstructiveHeader)
      && r[|ConstructiveHeader|..|r| - |ConstructiveFooter|] == response
      && r[|r| - |ConstructiveFooter|..] == ConstructiveFooter
  {
  }

  const FilteredMessage: string := "Response contained inappropriate " + "content. Rephrasing to focus on " + "resume quality..."
  const BlockedPatterns: seq<string> := []

  /** The filter of `apply_minimal_filter` for a given pattern list. */
  function FilterResponse(response: string, blocked: seq<string>): string {
    if exists i :: 0 <= i < |blocked| && Contains(Lower(response), blocked[i]) then FilteredMessage else response
  }

  /** `apply_minimal_filter`: with no blocked patterns it returns its input. */
  function ApplyMinimalFilter(response: string): (r: string)
    ensures r == response
  {
    FilterResponse(response, BlockedPatterns)
  }

  // ---------------------------------------------------------------------
  // Decisions of rag_query
  // ---------------------------------------------------------------------

  const JdTerms: seq<string> := ["jd", "job description", "match", "missing", "gap"]
  const KeywordTerms: seq<string> := ["keyword", "missing", "gap", "ats"]
  const MatchTerms: seq<string> := ["match", "compare", "jd"]

  /** Python truthiness of an optional string. */
  predicate Truthy(s: Option<string>) {
    s.Some? && s.value != ""
  }

  /** `any(term in query.lower() for term in terms)` */
  predicate Mentions(query: string, terms: seq<string>) {
    exists i :: 0 <= i < |terms| && Contains(Lower(query), terms[i])
  }

  /** The search depth: 8 for a question about a non-empty job description, k otherwise. */
  function SearchDepth(query: string, jd: Option<string>, k: nat): nat {
    if Truthy(jd) && Mentions(query, JdTerms) then JdSearchDepth else k
  }

  function KeywordLine(keywords: seq<string>): string {
    "\n\nKEY JD TERMS: " + Join(Prefix(keywords, KeywordLineLimit), ", ")
  }

  /** The string `get_cache_key` hashes. */
  function CacheKey(query: string, context: string, mode: string): string {
    query + "|" + Prefix(context, CacheKeyContext) + "|" + mode
  }

  function MatchSummary(report: Report, oneDecimal: real -> string): string {
    "\n\n\U{F8FF}\U{FC}\U{EC}\U{E4} **JD Match Score: " + oneDecimal(report.overallMatch) + "%**"
      + (if report.weakSections != [] then "\n\U{201A}\U{F6}\U{2020}\U{D4}\U{220F}\U{E8} Weak sections: " + Join(report.weakSections, ", ") else "")
  }

  /** The decorated answer of a successful model call. */
  function FinalResponse(text: string, mode: string, query: string, comparison: Option<Report>,
                         oneDecimal: real -> string): string
  {
    var filtered := ApplyMinimalFilter(text);
    var decorated :=
      if mode == RoastMode then EnhanceRoastResponse(filtered)
      else if mode == ConstructiveMode then EnhanceConstructiveResponse(filtered)
      else filtered;
    decorated + (if comparison.Some? && Mentions(query, MatchTerms) then MatchSummary(comparison.value, oneDecimal) else "")
  }

  /**
   * The model's text always appears in the answer; in any mode other than the
   * two literals, and without a match summary, the answer is that text.
   */
  lemma FinalResponseSpec(text: string, mode: string, query: string, comparison: Option<Report>,
                          oneDecimal: real -> string)
    ensures Contains(FinalResponse(text, mode, query, comparison, oneDecimal), text)
    ensures mode != RoastMode && mode != ConstructiveMode && !(comparison.Some? && Mentions(query, MatchTerms))
      ==> FinalResponse(text, mode, query, comparison, oneDecimal) == text
    ensures mode == RoastMode ==> StartsWith(FinalResponse(text, mode, query, comparison, oneDecimal), RoastHeader)
    ensures mode == ConstructiveMode ==> StartsWith(FinalResponse(text, mode, query, comparison, oneDecimal), ConstructiveHeader)
  {
    var filtered := ApplyMinimalFilter(text);
    var tail := if comparison.Some? && Mentions(query, MatchTerms) then MatchSummary(comparison.value, oneDecimal) else "";
    if mode == RoastMode {
      DecoratedContains(RoastHeader, text, RoastFooter, tail);
    } else if mode == ConstructiveMode {
      DecoratedContains(ConstructiveHeader, text, ConstructiveFooter, tail);
    } else {
      assert FinalResponse(text, mode, query, comparison, oneDecimal) == text + tail;
      assert (text + tail)[0..|text|] == text;
      ContainsAt(text + tail, text, 0);
    }
  }

  lemma DecoratedContains(header: string, text: string, footer: string, tail: string)
    ensures var r := Decorate(header, text, footer) + tail;
      StartsWith(r, header) && Contains(r, text)
  {
    var d := Decorate(header, text, footer);
    var r := d + tail;
    assert r[|header|..|header| + |text|] == d[|header|..|header| + |text|];
    ContainsAt(r, text, |header|);
    assert r[..|header|] == d[..|header|];
  }

  const ApiErrorText: string :=
    "\U{201A}\U{F9}\U{E5} **OpenRouter API Error**\n\n"
    + ("                Please check your " + "OpenRouter API key:\n\n")
    + ("                1. Get an API key " + "from: https://openrouter.ai/keys\n")
    + ("                2. Add to your .env " + "file: OPENROUTER_API_KEY=your-key-here\n")
    + ("                3. Make sure you " + "have credits in your OpenRouter " + "account\n\n")
    + "                Error details: "
  const RoastCrashText: string :=
    ("\U{F8FF}\U{FC}\U{EE}\U{2022} The system crashed trying to " + "process this resume. ")
    + ("That should tell you something. " + "Fix your API key first though.")
  const GenericErrorText: string := "I encountered an error. Please check " + "your OpenRouter API key. Error: "
  /** The error `call_openrouter_api` raises while no key is configured. */
  const MissingKeyMessage: string := "OPENROUTER_API_KEY not found in " + "environment variables"

  predicate IsApiError(error: string) {
    var lowered := Lower(error);
    Contains(lowered, "api") || Contains(lowered, "key") || Contains(lowered, "auth")
  }

  /** The reply `rag_query` gives when an exception with message `error` reaches its handler. */
  function ErrorResponse(error: string, mode: string): string {
    if IsApiError(error) then ApiErrorText + Prefix(error, 200)
    else if mode == RoastMode then RoastCrashText
    else GenericErrorText + Prefix(error, 150)
  }

  /** With no key configured, every request that reaches the model ends in the API-error reply, whatever the mode. */
  lemma MissingKeyReply(mode: string)
    ensures ErrorResponse(MissingKeyMessage, mode) == ApiErrorText + MissingKeyMessage
  {
    var lowered := Lower(MissingKeyMessage);
    assert MissingKeyMessage[11] == 'A' && MissingKeyMessage[12] == 'P' && MissingKeyMessage[13] == 'I';
    assert lowered[11] == 'a' && lowered[12] == 'p' && lowered[13] == 'i';
    assert lowered[11..14] == "api";
    ContainsAt(lowered, "api", 11);
  }

  // ---------------------------------------------------------------------
  // Conversation log
  // ---------------------------------------------------------------------

  datatype Exchange = Exchange(query: string, response: string, mode: string, hadJd: bool)

  function CountMode(h: seq<Exchange>, mode: string): (n: nat)
    ensures n <= |h|
  {
    if h == [] then 0 else CountMode(h[..|h| - 1], mode) + (if h[|h| - 1].mode == mode then 1 else 0)
  }

  function CountJd(h: seq<Exchange>): (n: nat)
    ensures n <= |h|
  {
    if h == [] then 0 else CountJd(h[..|h| - 1]) + (if h[|h| - 1].hadJd then 1 else 0)
  }

  /** No exchange is counted both as a roast and as a constructive one. */
  lemma {:induction false} ModeCountsBounded(h: seq<Exchange>)
    ensures CountMode(h, RoastMode) + CountMode(h, ConstructiveMode) <= |h|
    decreases |h|
  {
    if h != [] {
      ModeCountsBounded(h[..|h| - 1]);
      assert RoastMode[0] != ConstructiveMode[0] || RoastMode[1] != ConstructiveMode[1] || RoastMode[2] != ConstructiveMode[2];
    }
  }

  const NoHistoryText: string := "No conversation history yet."
  const SummaryHeading: string := "\U{F8FF}\U{FC}\U{EC}\U{E4} Session Summary:\n- Total exchanges: "

  /** `get_conversation_summary` */
  function ConversationSummary(h: seq<Exchange>): (r: string)
    ensures r == NoHistoryText <==> h == []
  {
    if h == [] then NoHistoryText
    else
      var r := SummaryHeading + NatToString(|h|)
        + "\n- \U{F8FF}\U{FC}\U{EE}\U{2022} Roast Mode: " + NatToString(CountMode(h, RoastMode))
        + "\n- \U{F8FF}\U{FC}\U{ED}\U{B0} Constructive Mode: " + NatToString(CountMode(h, ConstructiveMode))
        + "\n- With JD: " + NatToString(CountJd(h)) + "\n";
      assert r[0] == SummaryHeading[0] != NoHistoryText[0];
      r
  }

  // ---------------------------------------------------------------------
  // Session state
  // ---------------------------------------------------------------------

  /** A cache file's contents: the response and when it was saved. */
  datatype CachedResponse = CachedResponse(response: string, timestamp: int)

  /** What the retrieval step hands to the model call: the context and the JD comparison. */
  datatype Request = Request(context: string, comparison: Option<Report>)

  /** How a request ended. */
  datatype Path = RetrievalFailed | CacheHit | RateLimited | Answered | ApiFailed

  /**
   * The module state of src/rag_chat.py: the call timestamps of the rate
   * limiter, the conversation history and the cache directory, keyed by the
   * string the cache key is hashed from.
   */
  class ChatSession {
    var apiCallTimes: seq<int>
    var history: seq<Exchange>
    var cache: map<string, CachedResponse>

    /** A fresh process: no calls, no history, and whatever cache files earlier runs left. */
    constructor(cached: map<string, CachedResponse>)
      ensures apiCallTimes == [] && history == [] && cache == cached
    {
      apiCallTimes := [];
      history := [];
      cache := cached;
    }

    /** `check_cache`: the stored response, if there is one and it is less than an hour old. */
    function CheckCache(key: string, now: int): (r: Option<string>)
      reads this
      ensures r.Some? <==> key in cache && now - cache[key].timestamp < CacheLifetime
      ensures r.Some? ==> r.value == cache[key].response
    {
      if key in cache && now - cache[key].timestamp < CacheLifetime then Some(cache[key].response) else None
    }

    /** `save_to_cache`: afterwards the key answers with this response for the next hour, and every other key as before. */
    method SaveToCache(key: string, response: string, now: int)
      modifies this
      ensures cache == old(cache)[key := CachedResponse(response, now)]
      ensures apiCallTimes == old(apiCallTimes) && history == old(history)
      ensures forall t :: CheckCache(key, t) == (if t - now < CacheLifetime then Some(response) else None)
      ensures forall k, t :: k != key ==> CheckCache(k, t) == old(CheckCache(k, t))
    {
      cache := cache[key := CachedResponse(response, now)];
    }

    /**
     * `check_rate_limit`: prune the timestamps to the last minute, then
     * refuse when 10 or more remain, asking to wait until the oldest of them
     * leaves the window.
     */
    method CheckRateLimit(now: int) returns (canProceed: bool, waitTime: int)
      modifies this
      ensures apiCallTimes == Recent(old(apiCallTimes), now)
      ensures history == old(history) && cache == old(cache)
      ensures canProceed <==> |apiCallTimes| < MaxCallsPerMinute
      ensures canProceed ==> waitTime == 0
      ensures !canProceed ==> waitTime == RateWindow - (now - apiCallTimes[0]) && waitTime > 0
    {
      apiCallTimes := Recent(apiCallTimes, now);
      var calls := |apiCallTimes|;
      if calls >= MaxCallsPerMinute {
        RecentSpec(old(apiCallTimes), now);
        assert apiCallTimes[0] in apiCallTimes;
        return false, RateWindow - (now - apiCallTimes[0]);
      }
      return true, 0;
    }

    /** `record_api_call`: one timestamp at the end, nothing else changes. */
    method RecordApiCall(now: int)
      modifies this
      ensures apiCallTimes == old(apiCallTimes) + [now]
      ensures history == old(history) && cache == old(cache)
    {
      apiCallTimes := apiCallTimes + [now];
    }

    /** `clear_conversation_history` */
    method ClearConversationHistory()
      modifies this
      ensures history == [] && ConversationSummary(history) == NoHistoryText
      ensures apiCallTimes == old(apiCallTimes) && cache == old(cache)
    {
      history := [];
    }

    /**
     * The part of `rag_query` after retrieval: the cache is consulted first
     * (an empty cached response counts as a miss), then the rate limit, and
     * only then is the call made by `CallModel`.
     */
    method Answer(query: string, mode: string, jd: Option<string>, req: Request, now: int, answeredAt: int,
                  callModel: (SystemPrompt, string) -> Result<string, string>, oneDecimal: real -> string)
      returns (response: string, path: Path)
      modifies this
      ensures path != RetrievalFailed
      ensures var hit := old(CheckCache(CacheKey(query, req.context, mode), now));
        path == CacheHit <==> hit.Some? && hit.value != ""
      ensures path == CacheHit ==>
        && response == old(cache[CacheKey(query, req.context, mode)].response)
        && apiCallTimes == old(apiCallTimes) && history == old(history) && cache == old(cache)
      ensures path != CacheHit ==>
        (path == RateLimited <==> |Recent(old(apiCallTimes), now)| >= MaxCallsPerMinute)
      ensures path == RateLimited ==>
        && apiCallTimes == Recent(old(apiCallTimes), now)
        && 0 < RateWindow - (now - apiCallTimes[0])
        && response == RateLimitMessage(RateWindow - (now - apiCallTimes[0]))
        && history == old(history) && cache == old(cache)
      ensures path == Answered || path == ApiFailed ==>
        CallOutcome(old(Recent(apiCallTimes, now)), old(history), old(cache), query, mode, jd, req, now, answeredAt,
                    callModel, oneDecimal, response, path)
    {
      var key := CacheKey(query, req.context, mode);
      var cached := CheckCache(key, now);
      if cached.Some? && cached.value != "" {
        return cached.value, CacheHit;
      }
      var canProceed, waitTime := CheckRateLimit(now);
      if !canProceed {
        return RateLimitMessage(waitTime), RateLimited;
      }
      response, path := CallModel(query, mode, jd, req, now, answeredAt, callModel, oneDecimal);
    }

    /**
     * What a request that passed the cache and the rate limit leaves behind:
     * the call is recorded before it is made, so it counts against the limit
     * even when it fails; a successful answer is cached and logged, a failed
     * one is neither.
     */
    ghost predicate CallOutcome(times: seq<int>, log: seq<Exchange>, files: map<string, CachedResponse>,
                                query: string, mode: string, jd: Option<string>, req: Request, now: int, answeredAt: int,
                                callModel: (SystemPrompt, string) -> Result<string, string>,
                                oneDecimal: real -> string, response: string, path: Path)
      reads this
    {
      var prompt := BuildPrompt(query, req.context, mode, req.comparison, oneDecimal);
      var reply := callModel(prompt.0, prompt.1);
      && apiCallTimes == times + [now]
      && (path == Answered ==>
        && reply.Ok?
        && response == FinalResponse(reply.value, mode, query, req.comparison, oneDecimal)
        && cache == files[CacheKey(query, req.context, mode) := CachedResponse(response, answeredAt)]
        && history == log + [Exchange(query, response, mode, jd.Some?)])
      && (path == ApiFailed ==>
        && reply.Err?
        && response == ErrorResponse(reply.error, mode)
        && cache == files && history == log)
    }

    /**
     * Record the call at `now`, make it, and on success decorate the answer,
     * cache it stamped with `answeredAt` (the clock read once the model has
     * replied) and log it.
     */
    method CallModel(query: string, mode: string, jd: Option<string>, req: Request, now: int, answeredAt: int,
                     callModel: (SystemPrompt, string) -> Result<string, string>, oneDecimal: real -> string)
      returns (response: string, path: Path)
      modifies this
      ensures path == Answered || path == ApiFailed
      ensures CallOutcome(old(apiCallTimes), old(history), old(cache), query, mode, jd, req, now, answeredAt,
                          callModel, oneDecimal, response, path)
    {
      var prompt := BuildPrompt(query, req.context, mode, req.comparison, oneDecimal);
      RecordApiCall(now);
      var reply := callModel(prompt.0, prompt.1);
      if reply.Err? {
        return ErrorResponse(reply.error, mode), ApiFailed;
      }
      response := FinalResponse(reply.value, mode, query, req.comparison, oneDecimal);
      SaveToCache(CacheKey(query, req.context, mode), response, answeredAt);
      history := history + [Exchange(query, response, mode, jd.Some?)];
      path := Answered;
    }
  }

  /**
   * The retrieval part of `rag_query`: the JD comparison (only for a
   * non-empty job description, taken before the search), the context at the
   * chosen depth, filtered to sections unless a job description was passed
   * at all, and the keyword line for keyword questions.
   */
  method PrepareRequest(store: Store, query: string, jd: Option<string>, k: nat,
                        encode: string -> Vector, score: (Vector, Vector) -> real,
                        rank: (seq<Vector>, Vector, nat) -> seq<Candidate>, twoDecimals: real -> string,
                        capitalized: string -> seq<string>, tech: string -> seq<string>)
    returns (r: Result<Request, string>)
    modifies store
    ensures store.savedIndex == old(store.savedIndex) && store.savedMetadata == old(store.savedMetadata)
    ensures store.savedJd == old(store.savedJd)
    ensures !old(store.Searchable()) ==> r == Err(NoIndexMessage)
    ensures old(store.Searchable()) ==> store.index.Some?
    ensures old(store.Searchable()) ==>
      var depth := SearchDepth(query, jd, k);
      var filter := ContextFilter(jd.Some?);
      var found := Search(rank(store.index.value, encode(query), SearchK(depth, filter)), store.metadata, filter, depth);
      && (found.Err? ==> r == Err(found.error))
      && (found.Ok? ==>
          && r.Ok?
          && r.value.comparison == (if Truthy(jd) then old(Compare(store.metadata, store.jdEmbedding, encode, score)) else None)
          && r.value.context == ContextString(found.value, twoDecimals)
             + (if Truthy(jd) && Mentions(query, KeywordTerms) then KeywordLine(JdKeywords(store.metadata, capitalized, tech)) else ""))
  {
    var comparison: Option<Report> := None;
    if Truthy(jd) {
      comparison := store.CompareResumeToJd(encode, score);
    }
    var depth := SearchDepth(query, jd, k);
    var context := store.GetRelevantContext(query, depth, jd.Some?, encode, rank, twoDecimals);
    if context.Err? {
      return Err(context.error);
    }
    var text := context.value;
    if Truthy(jd) && Mentions(query, KeywordTerms) {
      text := text + KeywordLine(JdKeywords(store.metadata, capitalized, tech));
    }
    return Ok(Request(text, comparison));
  }

  /**
   * `rag_query`: when retrieval raises (no index, or the IndexError of the
   * search) the error reaches the handler and nothing of the session
   * changes; otherwise `Answer` decides with the prepared request.
   */
  method RagQuery(session: ChatSession, store: Store, query: string, mode: string, jd: Option<string>, k: nat,
                  now: int, answeredAt: int, encode: string -> Vector, score: (Vector, Vector) -> real,
                  rank: (seq<Vector>, Vector, nat) -> seq<Candidate>,
                  callModel: (SystemPrompt, string) -> Result<string, string>,
                  oneDecimal: real -> string, twoDecimals: real -> string,
                  capitalized: string -> seq<string>, tech: string -> seq<string>)
    returns (response: string, path: Path)
    modifies session, store
    ensures !old(store.Searchable()) ==> path == RetrievalFailed && response == ErrorResponse(NoIndexMessage, mode)
    ensures old(store.Searchable()) ==> store.index.Some?
    ensures old(store.Searchable()) ==>
      var depth := SearchDepth(query, jd, k);
      var filter := ContextFilter(jd.Some?);
      var found := Search(rank(store.index.value, encode(query), SearchK(depth, filter)), store.metadata, filter, depth);
      (path == RetrievalFailed <==> found.Err?) && (found.Err? ==> response == ErrorResponse(found.error, mode))
    ensures path == RetrievalFailed ==>
      && session.apiCallTimes == old(session.apiCallTimes)
      && session.history == old(session.history) && session.cache == old(session.cache)
    ensures path == CacheHit || path == RateLimited ==>
      |session.apiCallTimes| <= |old(session.apiCallTimes)| && session.history == old(session.history)
    ensures path == Answered || path == ApiFailed ==>
      session.apiCallTimes == Recent(old(session.apiCallTimes), now) + [now]
    ensures path == Answered ==> |session.history| == |old(session.history)| + 1
    ensures path != Answered ==> session.history == old(session.history)
  {
    var req := PrepareRequest(store, query, jd, k, encode, score, rank, twoDecimals, capitalized, tech);
    if req.Err? {
      return ErrorResponse(req.error, mode), RetrievalFailed;
    }
    RecentSpec(session.apiCallTimes, now);
    response, path := session.Answer(query, mode, jd, req.value, now, answeredAt, callModel, oneDecimal);
  }
}
