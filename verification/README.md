# MoodyInfoExtractor in Dafny

A model of the part of MoodyInfoExtractor that decides which rating reports
are downgrades. The system has four parts:

- **Crawler.** `publications/spiders/publication_spider.py` searches the
  rating agency's report directory. It sends one search per title term and
  year. It decides, per listing page, whether to read a cached list file or
  request the page. It keeps only search hits that have a title, are
  not yet on disk, and whose upper-cased title holds none of 38 listed
  "POSSIBLE …" phrases. Other "POSSIBLE" phrases do not block a hit. It saves a detail
  document only when the document has, or can obtain by a second request, a
  research payload.
- **Extraction.** `data_extract.py:process_detail_file` normalises a
  report's HTML. It applies a keyword gate. It then asks a chat model
  whether a downgrade is confirmed, with a fallback to a larger-context
  model when the token limit is exceeded. Every failure inside the exception
  handler, in the model call or the parse, is recorded as an error result.
  A few malformed documents crash before the handler (see "## Left out").
- **Driver.** A producer enqueues every detail file of the year directories
  before 2005 that has no output yet.
  Consumers write each result to the valid or the invalid partition, or
  requeue the document when the model call failed.
- **Clients.** `Agent.py` builds the chat requests. It turns a non-200
  answer into an exception message. It extracts the fenced JSON block from a
  GLM answer.

Modules, one file each:

| module | file | models |
|---|---|---|
| `Wrappers` | wrappers.dfy | `Option` and `Result` |
| `Text` | text.dfy | Python string primitives: `str.lower`/`upper`, `in`, `str.strip`, `str.isspace`, decimal rendering |
| `Records` | records.dfy | JSON values and the detail document |
| `Normalize` | normalize.dfy | the regex pipeline of data_extract.py:109-134 |
| `Agent` | agent.dfy | the three chat clients of Agent.py |
| `Extraction` | extraction.dfy | `process_detail_file` |
| `Pipeline` | pipeline.dfy | `producer` and `consumer` |
| `Spider` | spider.dfy | the crawler |

The regular expressions are modelled by what they match, not by an engine:

- A greedy `open.*close` with DOTALL removes its leftmost-longest match.
  The model proves that this match runs from the first `open` to the last
  `close`.
- `<[^>]+>` removes tags left to right.
- `\s+` collapses each whitespace run.
- The fence pattern ```` ```(?:json\s+)?(\W.*?)``` ```` takes the leftmost
  fence. Among its alternatives it takes the one a backtracking engine tries
  first: the optional `json\s+` with the longest whitespace run, then the
  shortest lazy body.

The character class `[\n|\r|"]` contains a literal `|`. The model deletes
pipes from the model input, exactly as the code does.

The outside world is passed in as parameters:

- **HTTP transport** of the Moonshot and OpenAI clients:
  `ChatRequest -> HttpOutcome`.
- **OpenAI SDK call** of the GLM client: `ChatRequest -> Result`.
- **JSON repair helper** `try_parse_json_object`, from `utli.py`, which is
  not part of this model: a function from the reply text to a parsed object
  or the name of a non-dict Python type.
- **Document fetch** of the crawler.
- **Year-window timestamps.**
- **File system:** the set of files already written and the contents of
  cached list files.

## Model

| member | source | states |
|---|---|---|
| `Normalize.RemoveGreedySpan` | data_extract.py:123-126 | `re.sub` of a greedy DOTALL span. No match leaves the text unchanged. Otherwise the leftmost-longest match is cut out and the rest of the text holds no further match, so the result holds none. |
| `Normalize.NoCloseNoRemoval` | data_extract.py:123-126 | Text without the closing tag passes the span removal unchanged. |
| `Normalize.DeleteChars` | data_extract.py:127-129 | Deleting a character class leaves none of its characters and never lengthens the text. |
| `Normalize.DeleteCharsCounts` | data_extract.py:127-129 | Every character outside the class keeps its number of occurrences, and the result is a sub-multiset of the input. |
| `Normalize.DeleteCharsConcat` | data_extract.py:127-129 | Deleting from a concatenation is deleting from each part and concatenating, so the order of kept characters is preserved. |
| `Normalize.DeleteCharsUnits` | data_extract.py:127-129 | A single character is deleted iff it is in the class. With `DeleteCharsConcat` this fixes the result character by character. |
| `Normalize.CollapseWhitespace` | data_extract.py:130 | `\s+` → one space. The result is empty iff the input is. It holds no whitespace but `' '` and never two spaces in a row. It has the same non-space characters in the same order. |
| `Normalize.CollapseWhitespaceIsReference` | data_extract.py:130 | `\s+` → one space equals a per-position reference: a whitespace character right after another is dropped, any other whitespace becomes `' '`, and every other character is kept in place. |
| `Normalize.StripTags` | data_extract.py:132 | `<[^>]+>` removal. No tag survives, no character is invented, and a first character that is not `<` is kept. |
| `Normalize.StripTagsPlainText` | data_extract.py:132 | Text without `<` is left unchanged by the tag removal. |
| `Normalize.StripTagsKeepsText` | data_extract.py:132 | A prefix without `<` is kept verbatim in front of the tag removal of the rest. |
| `Normalize.StripTagsRemovesTag` | data_extract.py:132 | A leading `<`, one or more characters other than `>`, then `>` is removed whole, and the removal continues on the rest. |
| `Normalize.StripTagsKeepsEmptyBrackets` | data_extract.py:132 | A leading `<>` is no tag (`[^>]+` needs a character) and is kept. |
| `Normalize.StripTagsKeepsUnclosed` | data_extract.py:132 | A `<` never followed by `>` is kept. |
| `Normalize.CleanHtml` | data_extract.py:109-128 | The saved snapshot holds no double quote and is never longer than the payload. Without `</head>` and `</script>` it is the lower-cased payload minus its quotes. |
| `Normalize.ModelInput` | data_extract.py:129-132 | The model input holds no `\n`, `\r`, `\|` or `"`, and no whitespace other than the plain space. |
| `Normalize.NormalizeReport` | data_extract.py:109-134 | The model input is never longer than the snapshot. The keyword flags hold iff "upgrade" / "downgrade" occurs in the lower-cased model input. |
| `Text.Strip` | Agent.py:54 | `str.strip()` returns a contiguous slice. Only whitespace lies outside it, and the slice neither begins nor ends with whitespace. |
| `Text.Lower` | data_extract.py:109 | `str.lower()` keeps the length and maps each character on its own, only `A`-`Z` change. |
| `Text.LowerIdempotent` | data_extract.py:133-134 | Lower-casing twice is lower-casing once, and no upper-case letter is left. |
| `Text.Upper` | publications/spiders/publication_spider.py:223 | `str.upper()` keeps the length and maps each character on its own, only `a`-`z` change. |
| `Text.UpperIdempotent` | publications/spiders/publication_spider.py:223 | Upper-casing twice is upper-casing once, and no lower-case letter is left. |
| `Agent.ZhiPuAgent` | Agent.py:38 | The GLM client defaults to `https://open.bigmodel.cn/api/paas/v4/` and `glm-4-plus`, with no proxy. |
| `Agent.MoonshotAgent` | Agent.py:60 | The Moonshot client keeps the given key and model and posts to `https://api.moonshot.cn/v1`. |
| `Agent.OpenAIChatAgent` | Agent.py:97 | The OpenAI client keeps the given key, model and proxy and posts to `https://api.openai.com/v1`. |
| `Agent.ZhiPuRequest` | Agent.py:41-49 | The GLM request. The system message is the fixed JSON prefix followed by the prompt. The user message is the input followed by the fixed suffix. Both can be split back exactly. No output-token limit is sent. |
| `Agent.HttpRequest` | Agent.py:80-116 | The Moonshot/OpenAI request. The messages are [system: prompt, user: input]. The request goes to `<base_url>/chat/completions` with a `Bearer <key>` header. Moonshot sends `max_tokens`. OpenAI sends `max_completion_tokens` plus the JSON-object response format and carries the agent's proxy; Moonshot carries none. |
| `Agent.ClientEndpoints` | Agent.py:60-116 | A Moonshot request goes to `https://api.moonshot.cn/v1/chat/completions` with no proxy. An OpenAI request goes to `https://api.openai.com/v1/chat/completions` with its proxy. Both carry `Bearer <key>`. |
| `Agent.StatusErrorMessage` | Agent.py:89-91 | The exception message of a non-200 answer is "response status: " + decimal digits + ", response text: " + the body. The digits have no leading zero and read back as the status, as `str(int)` writes them. |
| `Agent.StatusErrorKeepsPhrase` | Agent.py:117-119 | Any phrase in the response body also occurs in the error message. This is what lets the caller's token-limit test see it. |
| `Agent.GetResponse` | Agent.py:104-121 | Success iff the answer has status 200 and readable content. A non-200 answer fails with the status message. A raised exception fails with its own message. |
| `Agent.ExtractFenced` | Agent.py:50-56 | With no fence match the reply is returned unchanged. Otherwise the result is the stripped capture of the match the regex engine reports: leftmost fence, preferred alternative, shortest body. |
| `Agent.PreferredFenceUnique` | Agent.py:23 | The match the engine reports is unique. |
| `Agent.JsonBlockPreferred` | Agent.py:23 | For a `json`-tagged fence around a block that starts with neither a word character nor whitespace and holds no backtick, the reported match captures exactly that block. |
| `Agent.ExtractFencedJsonBlock` | Agent.py:50-56 | Round trip: such a fenced reply comes back as its block, stripped. |
| `Agent.ExtractFencedNeedsNonWordStart` | Agent.py:23 | `"```json\nabc```"` has no match, because the capture must start with `\W`. The reply comes back whole, fences included. |
| `Agent.ZhiPuGetResponse` | Agent.py:41-56 | An SDK failure passes through. A successful reply without a fence is returned unchanged. A reply with a fence gives the stripped capture of the match the regex engine reports. |
| `Agent.ZhiPuReturnsJsonBlock` | Agent.py:41-56 | Round trip through the client: an SDK reply that is a `json`-tagged fence around a block comes back as that block, stripped. |
| `Extraction.CallModel` | data_extract.py:145-164 | There are one or two calls, both on the normalised input. The first goes to gpt-4o with 4096 tokens when the input is shorter than 4096 characters, otherwise 16384. A second call happens iff the first failed with "exceeded model token limit". It goes to moonshot-v1-32k with 16384 tokens, and its outcome is the reply. |
| `Extraction.PrimaryAgent` | data_extract.py:22-24 | `openai_agent` is the OpenAI client with the OpenAI key, model `gpt-4o` and no proxy. |
| `Extraction.FallbackAgent` | data_extract.py:19-20 | `longer_moonshot_agent` is the Moonshot client with the Moonshot key and model `moonshot-v1-32k`. |
| `Extraction.Interpret` | data_extract.py:179-188 | Downgrade iff "Has New Rating" is present and is "True" or true. Otherwise the fixed LLM reason is added. Every answer key is copied over and replaces earlier values. Base keys survive. |
| `Extraction.Failed` | data_extract.py:189-192 | A caught exception marks the result as an error. Its reason is the fixed prefix + the message. The other keys are kept. |
| `Extraction.ModelPhase` | data_extract.py:144-192 | Error iff the model call failed or the parsed answer is not a dict. A failed call records its message; a non-dict answer records `'<type>' object has no attribute 'get'`, both after the failure prefix. The base keys are always kept. Downgrade implies no error. No downgrade implies a recorded reason. |
| `Extraction.ProcessDetail` | data_extract.py:99-195 | `hasResearchPayload` iff the payload key is present. Without it the result is exactly the fixed reason, with no flags and no model call. With it, title/date/snapshot are recorded. Downgrade excludes error. An error implies a model call and a reason with the failure prefix. |
| `Extraction.KeywordPhase` | data_extract.py:133-192 | A client is called iff the model input contains "upgrade" or "downgrade". Without either, the result is invalid with the fixed reason and no error. Title, date and snapshot are always recorded. |
| `Extraction.KeywordGate` | data_extract.py:133-140 | Without "upgrade"/"downgrade" in the model input, no model is called. The result is invalid with the fixed reason, title, date and snapshot. |
| `Extraction.ModelFailureIsCaught` | data_extract.py:156-192 | Past the gate, a failed model call (including the fallback) gives an error result whose reason carries the failure message. Title and snapshot are kept. |
| `Extraction.VerdictDecidesDowngrade` | data_extract.py:170-188 | Past the gate, with a reply parsed to a dict, the downgrade flag is exactly the verdict and every answer key is in the result. |
| `Pipeline.ProduceNames` | data_extract.py:218-224 | A job is enqueued for a listed name iff neither of its outputs exists. |
| `Pipeline.ProduceYear` | data_extract.py:205-224 | A year directory contributes jobs only if its year is before 2005 and it has a `detail/` directory. |
| `Pipeline.Produce` | data_extract.py:203-224 | The queue holds exactly the pending jobs: listed detail files of years before 2005 with no output in either partition. |
| `Pipeline.ProduceDistinct` | data_extract.py:203-224 | Given distinct years and file names, no job is enqueued twice. |
| `Pipeline.Start` | data_extract.py:224 | After the producer, the unfinished-task count equals the number of jobs put. |
| `Pipeline.ConsumerStep` | data_extract.py:227-245 | One consumer iteration. With a payload and no error, the result goes to valid if downgrade, else invalid, and every other output file is unchanged. An error requeues the same triple at the tail and writes nothing. Without a payload nothing happens. `task_done` is called once, `put_nowait` only on requeue. |
| `Pipeline.Run` | data_extract.py:228-245 | Any number of consumer steps keeps the unfinished count minus the queue length, and never removes a written output. |
| `Pipeline.StartConsistent` | data_extract.py:203-224 | The initial queue is consistent: the count equals the length, the jobs are distinct, and none has an output yet. |
| `Pipeline.StepConsistent` | data_extract.py:229-245 | Every consumer step keeps consistency. The counter never goes negative, and no document gets outputs in both partitions. |
| `Pipeline.RunConsistent` | data_extract.py:227-245 | Consistency holds after any number of steps. |
| `Pipeline.ErrorsNeverDrain` | data_extract.py:241-242 | While every outcome is an error, the queue keeps the same jobs and nothing is written. |
| `Pipeline.JoinMeansDrained` | data_extract.py:255 | In a consistent state, `queue.join()` can return (count 0) iff the queue is empty. |
| `Pipeline.RunCovers` | data_extract.py:232-239 | With payloads throughout, every queued job is still queued or has an output. Outputs are never removed. |
| `Pipeline.PendingMonotone` | data_extract.py:221 | More written outputs can only shrink the set of pending jobs. |
| `Pipeline.SecondRunFindsNothing` | data_extract.py:203-245 | Idempotence: after a drained run in which every document had a payload, the producer of a second run enqueues nothing. |
| `Spider.StartRequests` | publications/spiders/publication_spider.py:116-152 | There are 4 × 30 = 120 search requests. Request k has term `SearchTerms[k / 30]` and year 1995 + k mod 30, page 1, that year's window and the term as title search. The template's other fields are unchanged. |
| `Spider.StartRequestsCover` | publications/spiders/publication_spider.py:118-122 | Every (term, year) pair is requested exactly once. |
| `Spider.SearchTermsDistinct` | publications/spiders/publication_spider.py:120 | The four search terms are pairwise different. |
| `Spider.UnprocessWordsShareStem` | publications/spiders/publication_spider.py:97-114 | Every excluded phrase begins with "POSSIBLE ". |
| `Spider.ContainsAny` | publications/spiders/publication_spider.py:224-228 | The phrase scan is true iff some excluded phrase occurs in the upper-cased title. |
| `Spider.ParsePageData` | publications/spiders/publication_spider.py:210-242 | A detail request is issued exactly for hits that are not yet saved, have a title, and whose upper-cased title holds no excluded phrase. |
| `Spider.ParsePageDataUnit` | publications/spiders/publication_spider.py:214-242 | One hit yields exactly its detail request when admitted, and nothing otherwise. |
| `Spider.ParsePageDataConcat` | publications/spiders/publication_spider.py:212-242 | Filtering a listing is filtering its parts in order. With the unit case, this gives one request per admitted hit, in listing order. |
| `Spider.UnblockedWithoutStem` | publications/spiders/publication_spider.py:223-231 | A title that does not mention "POSSIBLE " in any case is never blocked. |
| `Spider.BlockedIgnoresCase` | publications/spiders/publication_spider.py:223 | A title and its upper-cased form are filtered alike. |
| `Spider.ParsePageDataRequests` | publications/spiders/publication_spider.py:214-242 | A titled, unsaved hit without "POSSIBLE " is always requested. A hit already on disk never is. |
| `Spider.TotalPages` | publications/spiders/publication_spider.py:165 | `doc_count // 200 + 1` is the unique t with 200(t-1) ≤ doc_count < 200t. |
| `Spider.PagesCoverListing` | publications/spiders/publication_spider.py:165-168 | A non-negative count requests at least one page, and every document lies on a requested page. An exact multiple of 200 asks for one page past the last document. |
| `Spider.ListFileNameInjective` | publications/spiders/publication_spider.py:171 | Different pages of one term are cached in different list files. |
| `Spider.Paginate` | publications/spiders/publication_spider.py:154-193 | Pages 1..total are handled in order. A null body gives none. A page whose list file reads is served from it through the title filter. Any other page is requested with its own page number and save path. |
| `Spider.ParseDetails` | publications/spiders/publication_spider.py:244-275 | A document is saved iff it has a payload, or its `s3Urls.asp` document answers 200. The fetched payload carries the response text and the publication id. A saved document always has a payload. |
| `Spider.SavedDetailsReachTheModel` | publications/spiders/publication_spider.py:264-269 | Every saved document takes the payload branch of the extraction. A fetched body is the HTML that the extraction normalises. |

## Left out

- Case mapping: `str.lower`/`str.upper` and regex IGNORECASE are ASCII-only here. Python's full Unicode case mapping, including characters whose case form changes length, is not modelled.
- Regex `\w` is ASCII letters, digits and `_`. `\s` and `str.strip` use Python's full whitespace set.
- Crashes outside the exception handler are not modelled. data_extract.py:108-111 runs before the `try`, so three inputs raise there: a `researchPayload` whose value is `null`, an `html_content` whose value is `null` (`None.lower()`), and an empty `baseInfo` list. An unreadable or malformed detail file raises at data_extract.py:100-101 in the same way.
- `Payload.htmlContent == None` stands for a missing `html_content` key only. For a missing key the source reads `''`, as the model does. A `null` value crashes in the source, and the model has no value for it.
- `ProcessDetail`'s precondition excludes the empty `baseInfo` list, because the source crashes on it.
- A crash also matters for the driver. It ends that consumer task before `task_done()` (data_extract.py:245). The unfinished count then never reaches zero, and `queue.join()` (data_extract.py:255) never returns. The consumer model has no crash outcome. So `JoinMeansDrained` and `SecondRunFindsNothing` speak only of runs in which no detail file crashes the extraction.
- The order of keys in the saved JSON object is not modelled: results are maps.
- Logging, `asyncio.sleep`, directory creation (`mkdir`), the JSON serialisation of outputs, and reading the detail file are left out. They are I/O.
- The ten concurrent consumers are modelled as one sequential consumer. The interleavings of asyncio tasks are not modelled, and neither is task cancellation after `queue.join()`.
- The text of the prompt and the model's answers are parameters. The real models' behaviour is outside the code.
- `try_parse_json_object` lives in `utli.py`, which is not part of this model. It is a parameter.
- `re.sub(r'', '', str_result)` is the identity and is not modelled as a step.
- The ZhiPu client's URL is joined by the OpenAI SDK. The model records the base URL with `chat/completions` appended. The SDK's own behaviour is not modelled.
- The unused `un_process_words` list, the unused `moonshot_agent` client (data_extract.py:18) and the unused `zhipu_api_key` (data_extract.py:17) are left out. data_extract.py builds no ZhiPu client.
- Pipeline.Produce: crashes of the producer are not modelled. `int(year_data_path.name)` (data_extract.py:206) runs on every entry of `data/`, so an entry whose name is not an integer, a stray plain file included, raises `ValueError`. A missing `data/` directory raises `FileNotFoundError` at data_extract.py:205. Either ends the producer task, and `await producer_task` (data_extract.py:253) then fails `main`. `YearDir` carries an already-parsed year.
- The `__main__` fallback for a running event loop is left out.
- `publications/pipelines.py` and `publications/items.py` are left out: they only pass the item on.
- The crawler's `parse_page`, which saves a fetched listing page and then filters it, is covered only through `ParsePageData`. Writing the file is I/O.
- A cached list file that raises partway through filtering has already yielded requests before the page is requested again. The model treats such a file as unreadable as a whole.
- Scrapy's duplicate-request filter for detail URLs is not modelled.
- The `entity_type` key of a fetched payload is not modelled: nothing reads it.
- The JSON bodies' constant configuration keys are not modelled: facets, excluded document types and the like. Only the fields the crawler reads or overrides are.
- The year-window timestamps depend on the local time zone. They are parameters.
- Duplicate year directories are not modelled: distinct years are assumed only by the no-duplicates lemma. Two directory names that parse to the same year (such as `2000` and `02000`) would enqueue a file twice. That case is not modelled.
