/**
 * `process_detail_file`: the per-document decision. A document without a
 * research payload is not applicable; otherwise the report body is
 * normalised, a keyword gate decides whether the model is called at all, the
 * call picks a token budget by input length and falls back once to the
 * larger-context client on a token-limit error, and the parsed answer's
 * `Has New Rating` decides the verdict. Every failure of the model or parse
 * phase is caught and recorded.
 */
module Extraction {
  import opened Wrappers
  import opened Text
  import opened Records
  import opened Normalize
  import opened Agent

  const NoPayloadReason := "No researchPayload found in the JSON content."
  const NoKeywordReason := "No downgrade information found in the HTML content."
  const NoVerdictReason := "LLM model can't find downgrade information."
  const RequestFailedPrefix := "Request to LLM model failed, the error message is: "
  const TokenLimitPhrase := "exceeded model token limit"

  const InvalidReasonKey := "InvalidReason"
  const VerdictKey := "Has New Rating"

  /** Below this many characters of model input the standard output budget is used. */
  const ShortInputLimit := 4096
  const StandardBudget := 4096
  const LongBudget := 4096 * 4

  /**
   * The second value `try_parse_json_object` returns: a dict, or something
   * else (named by its Python type) on which `.get` then raises.
   */
  datatype ParseOutcome = ParsedObject(fields: map<string, Json>) | NotAnObject(pythonType: string)

  /**
   * The module-level configuration: API keys, the extraction prompt, the HTTP
   * transport and the JSON-repair helper.
   */
  datatype Environment = Environment(
    openaiKey: string,
    moonshotKey: string,
    prompt: string,
    transport: ChatRequest -> HttpOutcome,
    parse: string -> ParseOutcome)

  /** `openai_agent`: the client every first attempt goes to. */
  function PrimaryAgent(env: Environment): (a: ChatAgent)
    ensures a.provider == OpenAI && a.apiKey == env.openaiKey && a.model == "gpt-4o"
    ensures a.baseUrl == "https://api.openai.com/v1" && a.proxy == None
  {
    OpenAIChatAgent(env.openaiKey, "gpt-4o", None)
  }

  /** `longer_moonshot_agent`: the 32k-context client used after a token-limit error. */
  function FallbackAgent(env: Environment): (a: ChatAgent)
    ensures a.provider == Moonshot && a.apiKey == env.moonshotKey && a.model == "moonshot-v1-32k"
    ensures a.baseUrl == "https://api.moonshot.cn/v1" && a.proxy == None
  {
    MoonshotAgent(env.moonshotKey, "moonshot-v1-32k")
  }

  /** One `get_response` call: which client, on what input, with which output budget. */
  datatype Invocation = Invocation(agent: ChatAgent, input: string, maxTokens: nat)

  function Invoke(env: Environment, inv: Invocation): Result<string, string>
    requires inv.agent.provider != ZhiPu
  {
    GetResponse(inv.agent, inv.input, env.prompt, 0.0, inv.maxTokens, env.transport)
  }

  /** The reply of the model phase and the calls it made, in order. */
  datatype ModelCall = ModelCall(reply: Result<string, string>, invocations: seq<Invocation>)

  /**
   * data_extract.py:145-164. The first call always goes to the primary client
   * with 4096 output tokens for input shorter than 4096 characters and
   * 4096*4 otherwise. Exactly when it fails with a message containing
   * "exceeded model token limit" is a second, last call made, to the 32k
   * client with 4096*4 tokens, and its outcome is the reply; any other
   * failure is the reply unchanged.
   */
  function CallModel(env: Environment, text: string): (c: ModelCall)
    ensures 1 <= |c.invocations| <= 2
    ensures forall i :: 0 <= i < |c.invocations| ==> c.invocations[i].agent.provider != ZhiPu
    ensures forall i :: 0 <= i < |c.invocations| ==> c.invocations[i].input == text
    ensures c.invocations[0].agent == PrimaryAgent(env)
    ensures c.invocations[0].maxTokens == if |text| < ShortInputLimit then StandardBudget else LongBudget
    ensures var first := Invoke(env, c.invocations[0]);
      && (|c.invocations| == 2 <==> first.Failure? && Contains(first.error, TokenLimitPhrase))
      && (|c.invocations| == 1 ==> c.reply == first)
    ensures |c.invocations| == 2 ==>
      && c.invocations[1] == Invocation(FallbackAgent(env), text, LongBudget)
      && c.reply == Invoke(env, c.invocations[1])
  {
    var budget := if |text| < ShortInputLimit then StandardBudget else LongBudget;
    var first := Invocation(PrimaryAgent(env), text, budget);
    match Invoke(env, first)
    case Success(reply) => ModelCall(Success(reply), [first])
    case Failure(message) =>
      if Contains(message, TokenLimitPhrase) then
        var retry := Invocation(FallbackAgent(env), text, LongBudget);
        ModelCall(Invoke(env, retry), [first, retry])
      else
        ModelCall(Failure(message), [first])
  }

  /** The verdict value counts when it is the string "True" or the boolean true. */
  predicate IsConfirmed(v: Json) {
    v == JString("True") || v == JBool(true)
  }

  /** The result dict after a parsed answer, and whether it confirms a downgrade. */
  datatype Verdict = Verdict(result: map<string, Json>, downgrade: bool)

  /**
   * data_extract.py:179-188. A downgrade is confirmed exactly when the answer
   * holds `Has New Rating` as "True" or true (a missing key reads as "False").
   * Otherwise the fixed reason is recorded first. Then every key of the
   * answer is copied over, replacing an earlier value under the same key.
   */
  function Interpret(base: map<string, Json>, fields: map<string, Json>): (v: Verdict)
    ensures v.downgrade <==> VerdictKey in fields && IsConfirmed(fields[VerdictKey])
    ensures v.result.Keys == base.Keys + fields.Keys + (if v.downgrade then {} else {InvalidReasonKey})
    ensures forall k :: k in fields ==> v.result[k] == fields[k]
    ensures forall k :: k in base && k !in fields && k != InvalidReasonKey ==> v.result[k] == base[k]
    ensures !v.downgrade && InvalidReasonKey !in fields ==> v.result[InvalidReasonKey] == JString(NoVerdictReason)
    ensures v.downgrade && InvalidReasonKey !in fields && InvalidReasonKey in base ==>
      v.result[InvalidReasonKey] == base[InvalidReasonKey]
  {
    var hasNewRating := if VerdictKey in fields then fields[VerdictKey] else JString("False");
    var downgrade := hasNewRating == JString("True") || hasNewRating == JBool(true);
    var marked := if downgrade then base else base[InvalidReasonKey := JString(NoVerdictReason)];
    Verdict(marked + fields, downgrade)
  }

  /** The three keys recorded before the keyword gate, whatever happens next. */
  function BaseResult(info: BaseInfo, cleaned: string): map<string, Json> {
    map["title" := info.title, "report_publish_date" := info.publishedDate, "html_content" := JString(cleaned)]
  }

  /** The message of the `AttributeError` that `.get` raises on a value that is not a dict. */
  function AttributeErrorMessage(pythonType: string): string {
    "'" + pythonType + "' object has no attribute 'get'"
  }

  /** `process_detail_file`'s four return values, plus the model calls it made. */
  datatype Classification = Classification(
    result: map<string, Json>,
    downgrade: bool,
    isError: bool,
    hasResearchPayload: bool,
    invocations: seq<Invocation>)

  /** The outcome of a caught exception: the reason records the message. */
  function Failed(base: map<string, Json>, message: string, invocations: seq<Invocation>): (c: Classification)
    ensures c.isError && !c.downgrade && c.hasResearchPayload
    ensures c.result.Keys == base.Keys + {InvalidReasonKey}
    ensures c.result[InvalidReasonKey] == JString(RequestFailedPrefix + message)
    ensures forall k :: k in base && k != InvalidReasonKey ==> c.result[k] == base[k]
  {
    Classification(base[InvalidReasonKey := JString(RequestFailedPrefix + message)], false, true, true, invocations)
  }

  /**
   * data_extract.py:144-192: the model call, the parse and the verdict, with
   * any exception caught and recorded as an error.
   */
  function ModelPhase(env: Environment, base: map<string, Json>, text: string): (c: Classification)
    ensures c.hasResearchPayload && base.Keys <= c.result.Keys
    ensures c.invocations == CallModel(env, text).invocations
    ensures c.downgrade ==> !c.isError
    ensures !c.downgrade ==> InvalidReasonKey in c.result
    ensures c.isError ==> c.result[InvalidReasonKey].JString? && RequestFailedPrefix <= c.result[InvalidReasonKey].s
    ensures c.isError <==> CallModel(env, text).reply.Failure? || env.parse(CallModel(env, text).reply.value).NotAnObject?
    ensures CallModel(env, text).reply.Failure? ==> c == Failed(base, CallModel(env, text).reply.error, c.invocations)
    ensures CallModel(env, text).reply.Success? && env.parse(CallModel(env, text).reply.value).NotAnObject? ==>
      c == Failed(base, AttributeErrorMessage(env.parse(CallModel(env, text).reply.value).pythonType), c.invocations)
    ensures !c.isError ==> c == var v := Interpret(base, env.parse(CallModel(env, text).reply.value).fields);
      Classification(v.result, v.downgrade, false, true, c.invocations)
  {
    var call := CallModel(env, text);
    match call.reply
    case Failure(message) => Failed(base, message, call.invocations)
    case Success(reply) =>
      match env.parse(reply)
      case NotAnObject(t) => Failed(base, AttributeErrorMessage(t), call.invocations)
      case ParsedObject(fields) =>
        var v := Interpret(base, fields);
        Classification(v.result, v.downgrade, false, true, call.invocations)
  }

  /**
   * `process_detail_file` on a parsed detail document. The first `baseInfo`
   * entry is read outside the exception handler, so a document with a payload
   * must have one.
   */
  function ProcessDetail(env: Environment, d: DetailRecord): (c: Classification)
    requires d.researchPayload.Some? ==> |d.baseInfo| > 0
    ensures c.hasResearchPayload <==> d.researchPayload.Some?
    ensures c.downgrade ==> c.hasResearchPayload && !c.isError
    ensures !c.hasResearchPayload ==>
      && c.result == map[InvalidReasonKey := JString(NoPayloadReason)]
      && !c.downgrade && !c.isError && c.invocations == []
    ensures c.hasResearchPayload ==> {"title", "report_publish_date", "html_content"} <= c.result.Keys
    ensures c.isError ==> |c.invocations| >= 1
    ensures !c.downgrade ==> InvalidReasonKey in c.result
    ensures c.isError ==> c.result[InvalidReasonKey].JString? && RequestFailedPrefix <= c.result[InvalidReasonKey].s
  {
    match d.researchPayload
    case None => Classification(map[InvalidReasonKey := JString(NoPayloadReason)], false, false, false, [])
    case Some(payload) =>
      var n := NormalizeReport(payload.htmlContent.GetOr(""));
      KeywordPhase(env, d.baseInfo[0], n)
  }

  /**
   * data_extract.py:135-192: the base keys, then the keyword gate or the model
   * phase. A client is called exactly when the model input mentions "upgrade"
   * or "downgrade"; otherwise the document is invalid with the fixed reason.
   * Either way the title, date and snapshot stay recorded.
   */
  function KeywordPhase(env: Environment, info: BaseInfo, n: NormalizedText): (c: Classification)
    ensures c.hasResearchPayload
    ensures c.invocations == [] <==> !n.hasUpgradeKeyword && !n.hasDowngradeKeyword
    ensures !n.hasUpgradeKeyword && !n.hasDowngradeKeyword ==>
      && !c.downgrade && !c.isError && InvalidReasonKey in c.result
      && c.result[InvalidReasonKey] == JString(NoKeywordReason)
    ensures BaseResult(info, n.cleanedHtml).Keys <= c.result.Keys
  {
    var base := BaseResult(info, n.cleanedHtml);
    if !(n.hasUpgradeKeyword || n.hasDowngradeKeyword) then
      Classification(base[InvalidReasonKey := JString(NoKeywordReason)], false, false, true, [])
    else
      ModelPhase(env, base, n.collapsedText)
  }

  lemma GatedFacts(env: Environment, info: BaseInfo, n: NormalizedText)
    requires !n.hasUpgradeKeyword && !n.hasDowngradeKeyword
    ensures var c := KeywordPhase(env, info, n);
      && c.invocations == [] && !c.downgrade && !c.isError && c.hasResearchPayload
      && c.result[InvalidReasonKey] == JString(NoKeywordReason)
      && c.result["title"] == info.title
      && c.result["report_publish_date"] == info.publishedDate
      && c.result["html_content"] == JString(n.cleanedHtml)
  {
    assert "title" != InvalidReasonKey && "report_publish_date" != InvalidReasonKey && "html_content" != InvalidReasonKey;
  }

  lemma FailureFacts(env: Environment, info: BaseInfo, n: NormalizedText)
    requires (n.hasUpgradeKeyword || n.hasDowngradeKeyword) && CallModel(env, n.collapsedText).reply.Failure?
    ensures var c := KeywordPhase(env, info, n);
      && c.isError && !c.downgrade
      && c.invocations == CallModel(env, n.collapsedText).invocations
      && c.result[InvalidReasonKey] == JString(RequestFailedPrefix + CallModel(env, n.collapsedText).reply.error)
      && c.result["title"] == info.title
      && c.result["html_content"] == JString(n.cleanedHtml)
  {
    var base := BaseResult(info, n.cleanedHtml);
    assert KeywordPhase(env, info, n) == ModelPhase(env, base, n.collapsedText);
    assert "title" in base && "title" != InvalidReasonKey;
    assert "html_content" in base && "html_content" != InvalidReasonKey;
  }

  /**
   * data_extract.py:133-140. When the model input mentions neither "upgrade"
   * nor "downgrade", no client is called and the document is invalid with the
   * fixed reason, its title, date and snapshot recorded.
   */
  lemma KeywordGate(env: Environment, d: DetailRecord)
    requires d.researchPayload.Some? && |d.baseInfo| > 0
    requires var n := NormalizeReport(d.researchPayload.value.htmlContent.GetOr(""));
      !n.hasUpgradeKeyword && !n.hasDowngradeKeyword
    ensures var c := ProcessDetail(env, d);
      && c.invocations == [] && !c.downgrade && !c.isError && c.hasResearchPayload
      && c.result[InvalidReasonKey] == JString(NoKeywordReason)
      && c.result["title"] == d.baseInfo[0].title
      && c.result["report_publish_date"] == d.baseInfo[0].publishedDate
      && c.result["html_content"] == JString(NormalizeReport(d.researchPayload.value.htmlContent.GetOr("")).cleanedHtml)
  {
    var n := NormalizeReport(d.researchPayload.value.htmlContent.GetOr(""));
    GatedFacts(env, d.baseInfo[0], n);
  }

  /**
   * data_extract.py:144-192. Past the gate, a failing model phase (including
   * a failing fallback) marks the document as an error whose reason carries
   * the failure's message; the title, date and snapshot stay recorded.
   */
  lemma ModelFailureIsCaught(env: Environment, d: DetailRecord)
    requires d.researchPayload.Some? && |d.baseInfo| > 0
    requires var n := NormalizeReport(d.researchPayload.value.htmlContent.GetOr(""));
      (n.hasUpgradeKeyword || n.hasDowngradeKeyword) && CallModel(env, n.collapsedText).reply.Failure?
    ensures var n := NormalizeReport(d.researchPayload.value.htmlContent.GetOr(""));
      var c := ProcessDetail(env, d);
      && c.isError && !c.downgrade
      && c.invocations == CallModel(env, n.collapsedText).invocations
      && c.result[InvalidReasonKey] == JString(RequestFailedPrefix + CallModel(env, n.collapsedText).reply.error)
      && c.result["title"] == d.baseInfo[0].title
      && c.result["html_content"] == JString(n.cleanedHtml)
  {
    var n := NormalizeReport(d.researchPayload.value.htmlContent.GetOr(""));
    FailureFacts(env, d.baseInfo[0], n);
  }

  /**
   * data_extract.py:170-188. Past the gate with a successful reply parsed to a
   * dict, the flag is the verdict's value and every answer key is in the result.
   */
  lemma VerdictDecidesDowngrade(env: Environment, d: DetailRecord)
    requires d.researchPayload.Some? && |d.baseInfo| > 0
    requires var n := NormalizeReport(d.researchPayload.value.htmlContent.GetOr(""));
      var reply := CallModel(env, n.collapsedText).reply;
      && (n.hasUpgradeKeyword || n.hasDowngradeKeyword)
      && reply.Success? && env.parse(reply.value).ParsedObject?
    ensures var n := NormalizeReport(d.researchPayload.value.htmlContent.GetOr(""));
      var fields := env.parse(CallModel(env, n.collapsedText).reply.value).fields;
      var c := ProcessDetail(env, d);
      && !c.isError
      && (c.downgrade <==> VerdictKey in fields && (fields[VerdictKey] == JString("True") || fields[VerdictKey] == JBool(true)))
      && (forall k :: k in fields ==> c.result[k] == fields[k])
      && (!c.downgrade && InvalidReasonKey !in fields ==> c.result[InvalidReasonKey] == JString(NoVerdictReason))
  {
    var n := NormalizeReport(d.researchPayload.value.htmlContent.GetOr(""));
    var base := BaseResult(d.baseInfo[0], n.cleanedHtml);
    var call := CallModel(env, n.collapsedText);
    assert ProcessDetail(env, d) == ModelPhase(env, base, n.collapsedText);
  }
}
