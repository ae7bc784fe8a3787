/**
 * The three chat-completion clients: how each one shapes its request, how a
 * non-200 answer becomes an error message, and how the ZhiPu client pulls a
 * fenced JSON block out of the model's reply. The HTTP transport and the
 * OpenAI SDK are oracles passed in as functions.
 */
module Agent {
  import opened Wrappers
  import opened Text

  // ---------------------------------------------------------------------------
  // Clients and requests
  // ---------------------------------------------------------------------------

  datatype Provider = ZhiPu | Moonshot | OpenAI

  datatype ChatAgent = ChatAgent(
    provider: Provider,
    apiKey: string,
    baseUrl: string,
    model: string,
    proxy: Option<string>)

  /** `ZhiPuAgent(api_key)` with its default endpoint and model. */
  function ZhiPuAgent(apiKey: string): (a: ChatAgent)
    ensures a.provider == ZhiPu && a.apiKey == apiKey && a.proxy == None
    ensures a.baseUrl == "https://open.bigmodel.cn/api/paas/v4/" && a.model == "glm-4-plus"
  {
    ChatAgent(ZhiPu, apiKey, "https://open.bigmodel.cn/api/paas/v4/", "glm-4-plus", None)
  }

  /** `MoonshotAgent(api_key, model=...)` with the default endpoint. */
  function MoonshotAgent(apiKey: string, model: string): (a: ChatAgent)
    ensures a.provider == Moonshot && a.apiKey == apiKey && a.model == model && a.proxy == None
    ensures a.baseUrl == "https://api.moonshot.cn/v1"
  {
    ChatAgent(Moonshot, apiKey, "https://api.moonshot.cn/v1", model, None)
  }

  /** `OpenAIChatAgent(api_key, model=..., proxy=...)` with the default endpoint. */
  function OpenAIChatAgent(apiKey: string, model: string, proxy: Option<string>): (a: ChatAgent)
    ensures a.provider == OpenAI && a.apiKey == apiKey && a.model == model && a.proxy == proxy
    ensures a.baseUrl == "https://api.openai.com/v1"
  {
    ChatAgent(OpenAI, apiKey, "https://api.openai.com/v1", model, proxy)
  }

  datatype Role = System | User

  datatype ChatMessage = ChatMessage(role: Role, content: string)

  /** Which output-length key the body carries, if any. */
  datatype TokenLimit = Unlimited | MaxTokens(n: nat) | MaxCompletionTokens(n: nat)

  /** One chat-completion POST: target, bearer credential, and the JSON body's fields. */
  datatype ChatRequest = ChatRequest(
    url: string,
    authorization: string,
    proxy: Option<string>,
    model: string,
    messages: seq<ChatMessage>,
    temperature: real,
    tokenLimit: TokenLimit,
    jsonObjectFormat: bool)

  /**
   * What the transport produced: an HTTP answer (status, body text, and the
   * `choices[0].message.content` read from it, or the exception reading it
   * raised), or an exception before any answer arrived.
   */
  datatype HttpOutcome =
    | Responded(status: nat, text: string, content: Result<string, string>)
    | Raised(message: string)

  const GlmJsonResponsePrefix: string :=
    "You should always follow the instructions and output a valid JSON object.\n"
    + "    The structure of the JSON object you can found in the instructions, use {\"answer\": \"$your_answer\"} as the default structure\n"
    + "    if you are not sure about the structure.\n"
    + "    \n"
    + "    And you should always end the block with a \"```\" to indicate the end of the JSON object.\n"
    + "    \n"
    + "    <instructions>\n"
    + "    "

  const GlmJsonResponseSuffix: string :=
    "Output:\n"
    + "    </instructions>\n"
    + "    \n"
    + "    "

  const ChatCompletionsPath := "/chat/completions"

  /**
   * The ZhiPu request: the prompt wrapped after the fixed JSON prefix as the
   * system message, the input followed by the fixed suffix as the user
   * message, no output-length key. Both pieces can be read back exactly.
   */
  function ZhiPuRequest(agent: ChatAgent, input: string, prompt: string, temperature: real): (req: ChatRequest)
    ensures |req.messages| == 2
    ensures req.messages[0].role == System && req.messages[1].role == User
    ensures var sys := req.messages[0].content;
      |sys| == |GlmJsonResponsePrefix| + |prompt|
      && sys[..|GlmJsonResponsePrefix|] == GlmJsonResponsePrefix && sys[|GlmJsonResponsePrefix|..] == prompt
    ensures var user := req.messages[1].content;
      |user| == |input| + |GlmJsonResponseSuffix|
      && user[..|input|] == input && user[|input|..] == GlmJsonResponseSuffix
    ensures req.model == agent.model && req.temperature == temperature
    ensures req.tokenLimit == Unlimited && !req.jsonObjectFormat
  {
    ChatRequest(
      agent.baseUrl + "chat/completions", "Bearer " + agent.apiKey, agent.proxy, agent.model,
      [ChatMessage(System, GlmJsonResponsePrefix + prompt), ChatMessage(User, input + GlmJsonResponseSuffix)],
      temperature, Unlimited, false)
  }

  /**
   * The Moonshot and OpenAI request: system message = prompt, user message =
   * input, posted to `<base_url>/chat/completions` with a bearer header.
   * Moonshot sends `max_tokens`; OpenAI sends `max_completion_tokens` and asks
   * for a JSON-object response.
   */
  function HttpRequest(agent: ChatAgent, input: string, prompt: string, temperature: real, maxTokens: nat): (req: ChatRequest)
    requires agent.provider != ZhiPu
    ensures req.messages == [ChatMessage(System, prompt), ChatMessage(User, input)]
    ensures |req.url| == |agent.baseUrl| + |ChatCompletionsPath|
    ensures req.url[..|agent.baseUrl|] == agent.baseUrl && req.url[|agent.baseUrl|..] == ChatCompletionsPath
    ensures |req.authorization| == 7 + |agent.apiKey|
    ensures req.authorization[..7] == "Bearer " && req.authorization[7..] == agent.apiKey
    ensures req.model == agent.model && req.temperature == temperature
    ensures agent.provider == Moonshot ==> req.tokenLimit == MaxTokens(maxTokens) && !req.jsonObjectFormat
    ensures agent.provider == OpenAI ==> req.tokenLimit == MaxCompletionTokens(maxTokens) && req.jsonObjectFormat
    ensures agent.provider == Moonshot ==> req.proxy == None
    ensures agent.provider == OpenAI ==> req.proxy == agent.proxy
  {
    var limit := if agent.provider == Moonshot then MaxTokens(maxTokens) else MaxCompletionTokens(maxTokens);
    ChatRequest(
      agent.baseUrl + ChatCompletionsPath, "Bearer " + agent.apiKey,
      if agent.provider == OpenAI then agent.proxy else None, agent.model,
      [ChatMessage(System, prompt), ChatMessage(User, input)],
      temperature, limit, agent.provider == OpenAI)
  }

  /**
   * The HTTP clients post to their provider's completions endpoint with the
   * key as bearer credential; only the OpenAI client passes its proxy on.
   */
  lemma ClientEndpoints(key: string, model: string, proxy: Option<string>, input: string, prompt: string, temperature: real, maxTokens: nat)
    ensures var req := HttpRequest(MoonshotAgent(key, model), input, prompt, temperature, maxTokens);
      && req.url == "https://api.moonshot.cn/v1/chat/completions"
      && req.authorization == "Bearer " + key && req.proxy == None
    ensures var req := HttpRequest(OpenAIChatAgent(key, model, proxy), input, prompt, temperature, maxTokens);
      && req.url == "https://api.openai.com/v1/chat/completions"
      && req.authorization == "Bearer " + key && req.proxy == proxy
  {
  }

  // ---------------------------------------------------------------------------
  // Errors and responses
  // ---------------------------------------------------------------------------

  const StatusLabel := "response status: "
  const TextLabel := ", response text: "

  /**
   * The message of the exception a non-200 answer raises. The status is
   * written in canonical decimal (no leading zero), so it can be read back
   * from its digits, and the body text is its unaltered tail.
   */
  function StatusErrorMessage(status: nat, text: string): (m: string)
    ensures exists digits ::
      && m == StatusLabel + digits + TextLabel + text
      && digits != []
      && (forall k :: 0 <= k < |digits| ==> '0' <= digits[k] <= '9')
      && (|digits| > 1 ==> digits[0] != '0')
      && DecimalValue(digits) == status
  {
    StatusLabel + NatToString(status) + TextLabel + text
  }

  /**
   * Whatever phrase the provider put in the body reaches the error message,
   * so the caller's phrase test on the message sees it.
   */
  lemma StatusErrorKeepsPhrase(status: nat, text: string, phrase: string)
    requires Contains(text, phrase)
    ensures Contains(StatusErrorMessage(status, text), phrase)
  {
    var k :| 0 <= k <= |text| && Occurs(text, phrase, k);
    var head := StatusLabel + NatToString(status) + TextLabel;
    assert (head + text)[|head|..] == text;
    OccursInSuffix(head + text, |head|, phrase, k);
    assert StatusErrorMessage(status, text) == head + text;
  }

  /**
   * `get_response` of the Moonshot and OpenAI clients: the content only from a
   * 200 answer whose content could be read; a non-200 answer fails with the
   * status message; any raised exception fails with its own message.
   */
  function GetResponse(
    agent: ChatAgent, input: string, prompt: string, temperature: real, maxTokens: nat,
    transport: ChatRequest -> HttpOutcome): (r: Result<string, string>)
    requires agent.provider != ZhiPu
    ensures var out := transport(HttpRequest(agent, input, prompt, temperature, maxTokens));
      && (r.Success? <==> out.Responded? && out.status == 200 && out.content.Success?)
      && (r.Success? ==> r.value == out.content.value)
      && (out.Responded? && out.status != 200 ==> r == Failure(StatusErrorMessage(out.status, out.text)))
      && (out.Raised? ==> r == Failure(out.message))
      && (out.Responded? && out.status == 200 && out.content.Failure? ==> r == Failure(out.content.error))
  {
    match transport(HttpRequest(agent, input, prompt, temperature, maxTokens))
    case Raised(message) => Failure(message)
    case Responded(status, text, content) =>
      if status != 200 then Failure(StatusErrorMessage(status, text)) else content
  }

  // ---------------------------------------------------------------------------
  // ZhiPuAgent.PATTERN = r"```(?:json\s+)?(\W.*?)```" with re.DOTALL
  // ---------------------------------------------------------------------------

  const Fence := "```"
  const JsonTag := "json"

  /**
   * One way PATTERN can match `s`: the opening fence at `p`, the capture
   * `s[q..e]`, the closing fence at `e`. The capture starts right after the
   * fence, or after `json` and a non-empty run of whitespace; its first
   * character is not a word character; `.` also matches newlines.
   */
  ghost predicate FencePath(s: string, p: int, q: int, e: int) {
    && Occurs(s, Fence, p)
    && 0 <= q < |s|
    && (q == p + 3 || (Occurs(s, JsonTag, p + 3) && p + 8 <= q && forall k :: p + 7 <= k < q ==> IsSpace(s[k])))
    && !IsWordChar(s[q])
    && q < e && Occurs(s, Fence, e)
  }

  ghost predicate HasFence(s: string) {
    exists p, q, e :: FencePath(s, p, q, e)
  }

  /**
   * The match `re.search` reports: the leftmost start; at that start the
   * optional group is tried first and `\s+` gives back characters one at a
   * time, so the latest capture start wins; the lazy `.*?` then takes the
   * nearest closing fence.
   */
  ghost predicate PreferredFence(s: string, p: int, q: int, e: int) {
    && FencePath(s, p, q, e)
    && forall p', q', e' :: FencePath(s, p', q', e') ==>
      p <= p' && (p' == p ==> q' <= q && (q' == q ==> e <= e'))
  }

  /** `(\W.*?)```` with the capture starting at `q`: the nearest fence after `q`. */
  function CaptureEnd(s: string, q: nat): (r: Option<nat>)
    ensures r.Some? ==> q < |s| && !IsWordChar(s[q]) && q < r.value && Occurs(s, Fence, r.value)
    ensures r.Some? ==> forall e :: q < e < r.value ==> !Occurs(s, Fence, e)
    ensures r.None? ==> forall e :: q < |s| && !IsWordChar(s[q]) && q < e ==> !Occurs(s, Fence, e)
  {
    if q < |s| && !IsWordChar(s[q]) then FindFrom(s, Fence, q + 1) else None
  }

  /** The alternative that skips the optional group: the capture starts right after the fence. */
  function BareMatch(s: string, p: nat): (r: Option<(nat, nat)>)
    ensures r.Some? ==> r.value.0 == p + 3 && CaptureEnd(s, p + 3) == Some(r.value.1)
    ensures r.None? ==> CaptureEnd(s, p + 3).None?
  {
    match CaptureEnd(s, p + 3)
    case Some(e) => Some((p + 3, e))
    case None => None
  }

  /** Backtracking through `\s+`: try capture start `q`, then `q - 1`, down to one whitespace, then the bare alternative. */
  function GroupMatch(s: string, p: nat, q: nat): (r: Option<(nat, nat)>)
    requires Occurs(s, Fence, p) && Occurs(s, JsonTag, p + 3)
    requires p + 8 <= q <= |s|
    requires forall k :: p + 7 <= k < q ==> IsSpace(s[k])
    requires forall q', e' :: FencePath(s, p, q', e') ==> q' <= q
    decreases q
    ensures r.Some? ==> FencePath(s, p, r.value.0, r.value.1)
    ensures r.Some? ==> forall q', e' :: FencePath(s, p, q', e') ==>
      q' <= r.value.0 && (q' == r.value.0 ==> r.value.1 <= e')
    ensures r.None? ==> forall q', e' :: !FencePath(s, p, q', e')
  {
    match CaptureEnd(s, q)
    case Some(e) => Some((q, e))
    case None =>
      if q == p + 8 then BareMatch(s, p) else GroupMatch(s, p, q - 1)
  }

  /** The preferred match of PATTERN whose opening fence is at `p`, if any. */
  function MatchAt(s: string, p: nat): (r: Option<(nat, nat)>)
    requires Occurs(s, Fence, p)
    ensures r.Some? ==> FencePath(s, p, r.value.0, r.value.1)
    ensures r.Some? ==> forall q', e' :: FencePath(s, p, q', e') ==>
      q' <= r.value.0 && (q' == r.value.0 ==> r.value.1 <= e')
    ensures r.None? ==> forall q', e' :: !FencePath(s, p, q', e')
  {
    if Occurs(s, JsonTag, p + 3) then
      var top := SpaceRunEnd(s, p + 7);
      if top >= p + 8 then GroupMatch(s, p, top) else BareMatch(s, p)
    else BareMatch(s, p)
  }

  /** `PATTERN.search` from index `from` on. */
  function SearchFrom(s: string, from: nat): (r: Option<(nat, nat, nat)>)
    decreases |s| - from
    ensures r.Some? ==> from <= r.value.0 && FencePath(s, r.value.0, r.value.1, r.value.2)
    ensures r.Some? ==> forall p', q', e' :: from <= p' && FencePath(s, p', q', e') ==>
      r.value.0 <= p' && (p' == r.value.0 ==> q' <= r.value.1 && (q' == r.value.1 ==> r.value.2 <= e'))
    ensures r.None? ==> forall p', q', e' :: from <= p' ==> !FencePath(s, p', q', e')
  {
    if from + 3 > |s| then None
    else if Occurs(s, Fence, from) then
      match MatchAt(s, from)
      case Some((q, e)) => Some((from, q, e))
      case None => SearchFrom(s, from + 1)
    else SearchFrom(s, from + 1)
  }

  /**
   * `ZhiPuAgent.get_response` post-processing: with a match, the first
   * match's capture with surrounding whitespace stripped; without one, the
   * model's text unchanged.
   */
  function ExtractFenced(text: string): (r: string)
    ensures !HasFence(text) ==> r == text
    ensures HasFence(text) ==> exists p, q, e :: PreferredFence(text, p, q, e) && r == Strip(text[q..e])
  {
    var found := SearchFrom(text, 0);
    if found.Some? then
      var (p, q, e) := found.value;
      assert PreferredFence(text, p, q, e) by {
        forall p', q', e' | FencePath(text, p', q', e')
          ensures p <= p' && (p' == p ==> q' <= q && (q' == q ==> e <= e'))
        {
          assert 0 <= p';
        }
      }
      Strip(text[q..e])
    else
      assert !HasFence(text) by {
        forall p', q', e'
          ensures !FencePath(text, p', q', e')
        {
        }
      }
      text
  }

  /** PATTERN's preferred match, when there is one, is unique. */
  lemma PreferredFenceUnique(s: string, p: int, q: int, e: int, p': int, q': int, e': int)
    requires PreferredFence(s, p, q, e) && PreferredFence(s, p', q', e')
    ensures p == p' && q == q' && e == e'
  {
  }

  /** Where the pieces of a `json`-tagged fenced block sit in the joined text. */
  lemma JsonBlockLayout(ws: string, body: string)
    ensures var text := Fence + JsonTag + ws + body + Fence;
      var q0, e0 := 7 + |ws|, 7 + |ws| + |body|;
      && |text| == e0 + 3
      && text[0..3] == Fence && text[3..7] == JsonTag
      && (forall k :: 7 <= k < q0 ==> text[k] == ws[k - 7])
      && (forall k :: q0 <= k < e0 ==> text[k] == body[k - q0])
      && text[q0..e0] == body
      && text[e0..e0 + 3] == Fence
  {
    var text := Fence + JsonTag + ws + body + Fence;
    var e0 := 7 + |ws| + |body|;
    var front := Fence + JsonTag + ws + body;
    assert |front| == e0 && text == front + Fence;
    assert forall k :: 0 <= k < 3 ==> text[e0 + k] == Fence[k];
  }

  /** The fence shape the prompt asks for: its preferred match is the whole block. */
  lemma JsonBlockPreferred(ws: string, body: string)
    requires ws != [] && forall k :: 0 <= k < |ws| ==> IsSpace(ws[k])
    requires body != [] && !IsWordChar(body[0]) && !IsSpace(body[0])
    requires forall k :: 0 <= k < |body| ==> body[k] != '`'
    ensures var text := Fence + JsonTag + ws + body + Fence;
      PreferredFence(text, 0, 7 + |ws|, 7 + |ws| + |body|) && text[7 + |ws|..7 + |ws| + |body|] == body
  {
    var text := Fence + JsonTag + ws + body + Fence;
    var q0 := 7 + |ws|;
    var e0 := q0 + |body|;
    JsonBlockLayout(ws, body);
    assert FencePath(text, 0, q0, e0);
    forall p', q', e' | FencePath(text, p', q', e')
      ensures 0 <= p' && (p' == 0 ==> q' <= q0 && (q' == q0 ==> e0 <= e'))
    {
      assert text[e'] == text[e'..e' + 3][0] == Fence[0];
      assert !IsSpace(text[q0]);
    }
  }

  /**
   * A reply that is exactly a `json`-tagged fence around a block that starts
   * with a character that is neither a word character nor whitespace and
   * holds no backtick comes back as that block, stripped.
   */
  lemma ExtractFencedJsonBlock(ws: string, body: string)
    requires ws != [] && forall k :: 0 <= k < |ws| ==> IsSpace(ws[k])
    requires body != [] && !IsWordChar(body[0]) && !IsSpace(body[0])
    requires forall k :: 0 <= k < |body| ==> body[k] != '`'
    ensures ExtractFenced(Fence + JsonTag + ws + body + Fence) == Strip(body)
  {
    var text := Fence + JsonTag + ws + body + Fence;
    var q0, e0 := 7 + |ws|, 7 + |ws| + |body|;
    JsonBlockPreferred(ws, body);
    assert HasFence(text);
    var p, q, e :| PreferredFence(text, p, q, e) && ExtractFenced(text) == Strip(text[q..e]);
    PreferredFenceUnique(text, p, q, e, 0, q0, e0);
  }

  /**
   * PATTERN needs a non-word character right where the capture starts, so a
   * fenced block whose text starts with a letter is no match at all and the
   * reply comes back whole, fences included.
   */
  lemma ExtractFencedNeedsNonWordStart()
    ensures ExtractFenced("```json\nabc```") == "```json\nabc```"
  {
    var s := "```json\nabc```";
    forall i | Occurs(s, Fence, i)
      ensures i == 0 || i == 11
    {
      var w := s[i..i + 3];
      assert w == Fence;
      assert w[0] == s[i] && w[1] == s[i + 1] && w[2] == s[i + 2];
      assert s[i] == '`' && s[i + 1] == '`' && s[i + 2] == '`';
    }
    assert IsWordChar(s[3]) && IsWordChar(s[8]) && !IsSpace(s[8]);
    assert !HasFence(s);
  }

  /**
   * `ZhiPuAgent.get_response`: the SDK call's failure passes through; its
   * content is post-processed by the fence extraction.
   */
  function ZhiPuGetResponse(
    agent: ChatAgent, input: string, prompt: string, temperature: real,
    sdk: ChatRequest -> Result<string, string>): (r: Result<string, string>)
    ensures var out := sdk(ZhiPuRequest(agent, input, prompt, temperature));
      && (r.Success? <==> out.Success?)
      && (out.Failure? ==> r == out)
      && (out.Success? && !HasFence(out.value) ==> r == out)
      && (out.Success? && HasFence(out.value) ==>
            exists p, q, e :: PreferredFence(out.value, p, q, e) && r == Success(Strip(out.value[q..e])))
  {
    match sdk(ZhiPuRequest(agent, input, prompt, temperature))
    case Failure(m) => Failure(m)
    case Success(content) => Success(ExtractFenced(content))
  }

  /**
   * The GLM round trip: when the SDK returns a reply in the fence shape the
   * JSON prefix asks for, the client returns the block, stripped.
   */
  lemma ZhiPuReturnsJsonBlock(
    agent: ChatAgent, input: string, prompt: string, temperature: real,
    sdk: ChatRequest -> Result<string, string>, ws: string, body: string)
    requires sdk(ZhiPuRequest(agent, input, prompt, temperature)) == Success(Fence + JsonTag + ws + body + Fence)
    requires ws != [] && forall k :: 0 <= k < |ws| ==> IsSpace(ws[k])
    requires body != [] && !IsWordChar(body[0]) && !IsSpace(body[0])
    requires forall k :: 0 <= k < |body| ==> body[k] != '`'
    ensures ZhiPuGetResponse(agent, input, prompt, temperature, sdk) == Success(Strip(body))
  {
    ExtractFencedJsonBlock(ws, body);
  }
}
