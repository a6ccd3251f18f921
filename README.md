# Interview summary chatbot — a Dafny model of its `/chat` core

The service answers a free-text question about past buyer interviews. One
`/chat` request does the following:

1. asks a language model to extract a company and a date from the question
   (`chat` also reads a `name` if the answer contains one);
2. rejects the request with a 400 when no company is left after stripping;
3. obtains a bearer token from a module-level cache, which signs in when the
   cached token is missing or about to expire;
4. searches the backend for matching interviewees, signing in again and
   retrying once when the search answers 401;
5. fetches each candidate's detail in search order, skipping failed fetches
   and details without logs, and formats one record per kept candidate from
   its first log;
6. hands the records, joined by a blank line, to a second language-model
   call that rewrites them into the answer.

The model records every outbound call of a request in a trace. A trace entry
is a sign-in, a GET with its path, query and token, or one of the two model
calls. This makes statements such as "no search before the 400", "at most
two sign-ins" and "the rewriting call comes last" statable and provable.

Modules:

- `Wrappers`: `Option` and `Result`.
- `Text`: Python's `str.strip()` over the code points `str.isspace()` accepts,
  and `str.join`. `Strip` is proved to cut exactly the whitespace margins, and
  to be idempotent.
- `Http`: backend responses, the call trace, and failures. A failure is an
  `HTTPException` with its status, an upstream error status from
  `raise_for_status`, or a completion without text.
- `Session`: the token cache. The value-level specification is `Login` and
  `GetTokenStep`. The class `TokenCache` holds the two cache entries as
  fields, and its methods `Refresh` and `GetToken` are proved against that
  specification.
- `Api`: the authorised GET with its single refresh-and-retry, the search
  query, and the detail fetch. The detail fetch swallows errors and does not
  retry.
- `Seqs`: a generic `Map` over sequences.
- `Pipeline`: the request.
  - `Normalize` normalises the extracted arguments.
  - `CollectSummaries` is the aggregation loop. It is proved against the
    specification `Summaries` and the survivor lemmas.
  - `Lookup` covers token and search, `Respond` covers aggregation and
    rewriting, and `Assemble` is `chat`'s control flow over the two.
  - `ChatRun` is the whole request as a value. `Chat` is the request as a
    method on the cache object, proved equal to `ChatRun`.

The backend, the language models and the clock are parameters (`Env`).

One behaviour is worth knowing. `chat` keeps the token `get_token` returned
and passes it to every detail fetch. When the search meets a 401 and signs in
again, the cache holds the new token, but the detail fetches still carry the
old one. `StaleTokenAfterRefresh` states this. The model follows the code
here, and so does the rest of the model.

## Model

| member | source | states |
|---|---|---|
| Session.Login | interview_summary_chatbot.py:53-62 | Exactly one sign-in call. A non-200 answer fails with a 500 and leaves the cache unchanged. A 200 stores the token and an expiry of now + expiresIn (900 when missing) − 60. |
| Session.GetTokenStep | interview_summary_chatbot.py:64-67 | No call at all exactly when the cached token is non-empty and unexpired; it is then returned with the cache unchanged. Otherwise the step is exactly one sign-in. |
| Session.DefaultLifetime | interview_summary_chatbot.py:61 | A sign-in answer without `expiresIn` keeps the token for 840 seconds. |
| Session.ReuseWindow | interview_summary_chatbot.py:61-67 | After a sign-in at t, a later `get_token` at t' makes no call exactly while the token is non-empty and t' < t + lifetime − 60, and returns that token. From then on it makes exactly one sign-in. |
| Session.FreshAtIssue | interview_summary_chatbot.py:61-66 | A freshly issued non-empty token is served from the cache at the time of issue iff its lifetime exceeds the 60-second margin. |
| Session.TokenCache.constructor | interview_summary_chatbot.py:51 | The cache starts with both entries unset. |
| Session.TokenCache.Refresh | interview_summary_chatbot.py:53-62 | Updates the two fields exactly as `Login` specifies, keeping them set or unset together. |
| Session.TokenCache.GetToken | interview_summary_chatbot.py:64-67 | The result, the new fields and the calls are exactly those of `GetTokenStep` on the old fields. |
| Api.Checked | interview_summary_chatbot.py:140-141 | Fails exactly for a 4xx/5xx status, with that status; otherwise yields the body. |
| Api.ApiGetStep | interview_summary_chatbot.py:134-141 | The first call is the GET with the given token. Without a 401 it is the only call, and the cache is unchanged. On a 401 there is exactly one sign-in: if it fails, the request fails with a 500; if not, one more GET with the new token, whose status is checked. The cache is then the sign-in's. |
| Api.NoSecondRefresh | interview_summary_chatbot.py:136-140 | A 401 on the repeated GET fails with upstream 401 after exactly three calls, one of them a sign-in. |
| Api.ApiGet | interview_summary_chatbot.py:134-141 | The method on the cache object returns, stores and calls exactly what `ApiGetStep` specifies. |
| Api.SearchParams | interview_summary_chatbot.py:144-146 | The query has limit 50, offset 0, nameSearch and companySearch. It has dateSearch exactly when the date is truthy, and no other key. |
| Api.SearchStep | interview_summary_chatbot.py:143-149 | No contract of its own: its definition is the search (`api_get` on the search path with `SearchParams`, then the `interviewees` list or empty). `SearchInterviewees` is proved equal to it, and `SearchOnlyGetsSearch` states its calls. |
| Api.SearchOnlyGetsSearch | interview_summary_chatbot.py:143-148 | Every call of a search is a sign-in or a GET of the search path with the same query. |
| Api.SearchInterviewees | interview_summary_chatbot.py:143-149 | The method, which builds the query entry by entry, matches `SearchStep`: the list under `interviewees`, or empty when it is missing. |
| Api.FetchDetail | interview_summary_chatbot.py:159-168 | No detail exactly when the status is an error or the body is absent (not JSON, or JSON `null`); otherwise the body. No refresh is tried. |
| Http.ClientStatus | interview_summary_chatbot.py:57-58 | A raised `HTTPException` reaches the client with its own status. Any other failure (an upstream `HTTPError`, a completion without text) is unhandled and reaches the client as a 500. |
| Text.TrimStartCuts | interview_summary_chatbot.py:179-180 | `lstrip` keeps a suffix, removes only whitespace, and the result does not start with whitespace. |
| Text.TrimEndCuts | interview_summary_chatbot.py:179-180 | `rstrip` keeps a prefix, removes only whitespace, and the result does not end with whitespace. |
| Text.Strip | interview_summary_chatbot.py:179-180 | The result is empty iff the input is all whitespace; otherwise it neither starts nor ends with whitespace. |
| Text.StripIsWindow | interview_summary_chatbot.py:179-180 | `Strip` returns a contiguous window of its input whose margins are whitespace only. |
| Text.StripUnique | interview_summary_chatbot.py:179-180 | Any window with whitespace-only margins and non-space ends is what `Strip` returns. |
| Text.StripIdempotent | interview_summary_chatbot.py:179-180 | Stripping twice equals stripping once. |
| Text.Join | interview_summary_chatbot.py:116 | A single part is returned as is. The length is the sum of the parts plus one separator between each pair, and the result starts with the first part. |
| Text.JoinAppend | interview_summary_chatbot.py:116 | Joining one more part appends the separator and that part. |
| Pipeline.Normalize | interview_summary_chatbot.py:179-181 | Company and name are empty exactly when the extracted value is missing, null or whitespace-only; otherwise they have no surrounding whitespace. The date is present exactly when it is truthy, and then unchanged. |
| Pipeline.CompanyLabel | interview_summary_chatbot.py:214 | The shown company is never empty: the company name when truthy, else the placeholder. |
| Pipeline.Header | interview_summary_chatbot.py:214 | No contract of its own: its definition is the record's first line, a bullet, the name, `CompanyLabel` and the last update, separated by vertical bars. |
| Pipeline.Record | interview_summary_chatbot.py:213-215 | No contract of its own: its definition is the record, the header line, a newline, then `Body`. `SummariesFollowSurvivors` states which records are made. |
| Pipeline.PlaceholderIsStripped | interview_summary_chatbot.py:211-214 | The missing-summary placeholder is unchanged by stripping. |
| Pipeline.Body | interview_summary_chatbot.py:211-214 | A missing or empty summary shows the placeholder. The body is empty exactly for a whitespace-only summary, and otherwise has no surrounding whitespace. |
| Pipeline.Picks | interview_summary_chatbot.py:193-212 | At most one pick per candidate. Its definition, over the candidates in order, is the loop's specification: a usable candidate is picked with its first log, and any other is skipped. `PicksFollowSurvivors` characterises it. |
| Pipeline.Summaries | interview_summary_chatbot.py:193-215 | No contract of its own: its definition is the records of `Picks`, in order, and it specifies `CollectSummaries`. `SummariesFollowSurvivors` and `NoSummariesIff` characterise it. |
| Pipeline.Survivors | interview_summary_chatbot.py:193-205 | Every listed position has a fetched detail with at least one log. |
| Pipeline.SurvivorsIncreasing | interview_summary_chatbot.py:193-205 | The kept positions are in search order. |
| Pipeline.SurvivorsComplete | interview_summary_chatbot.py:193-205 | Every candidate with a fetched detail and at least one log is kept. |
| Pipeline.PicksFollowSurvivors | interview_summary_chatbot.py:193-209 | The k-th pick is the k-th kept candidate with its first log, and there are no other picks. |
| Pipeline.SummariesFollowSurvivors | interview_summary_chatbot.py:193-214 | Record k is formatted from the k-th kept candidate and its first log. There is one record per kept candidate, in search order, and none for the others. |
| Pipeline.NoSummariesIff | interview_summary_chatbot.py:193-217 | There is no record at all exactly when no candidate has a fetched detail with logs. |
| Pipeline.PicksStep | interview_summary_chatbot.py:193-214 | One more candidate adds its pick after the earlier ones exactly when its detail is usable. |
| Pipeline.CollectSummaries | interview_summary_chatbot.py:193-214 | The loop yields exactly the specified records. It makes one detail GET per candidate, in order, with the given token. |
| Pipeline.NoSignInAmongDetails | interview_summary_chatbot.py:159-163 | Detail fetches never sign in. |
| Pipeline.Lookup | interview_summary_chatbot.py:186-188 | Token then search: one to four calls and at most two sign-ins, at most one when the cached token is fresh. The cache changes only after a sign-in, and the token handed on is the one `get_token` returned. |
| Pipeline.LookupCallsSplit | interview_summary_chatbot.py:186-187 | The calls are `get_token`'s, followed by the search's once a token was obtained. |
| Pipeline.LookupCallKinds | interview_summary_chatbot.py:186-187 | Token and search make only sign-ins and search GETs. |
| Pipeline.LookupFirstSearch | interview_summary_chatbot.py:186-187 | The first search GET, right after `get_token`'s calls, carries the normalised query and `get_token`'s token. |
| Pipeline.LookupFailures | interview_summary_chatbot.py:186-187 | Token and search fail only with a sign-in failure (500) or an upstream error status. |
| Pipeline.Respond | interview_summary_chatbot.py:193-222 | First one detail GET per candidate, in order. Then a rewriting call, with the records joined by a blank line, exactly when a record was made; otherwise 404. The stage answers exactly when that call returned text, and the answer is that text stripped. The join is that of line 116 and the strip that of line 128. |
| Pipeline.RespondAfterCalls | interview_summary_chatbot.py:193-222 | After a non-empty search, every GET of the final stage carries the handed-on token. The only model call, if any, is the last one, made exactly when the stage answers or the completion had no text. |
| Pipeline.Assemble | interview_summary_chatbot.py:176-222 | No contract of its own: its definition is `chat`'s control flow over the outcomes of its stages. The 400 guards, the failed search, the empty search (404), then the final stage, each with the calls made so far. The `Assembled*` lemmas state its properties. |
| Pipeline.ChatRun | interview_summary_chatbot.py:176-222 | No contract of its own: its definition is the whole request, normalisation, then `Lookup`, then `Respond`, combined by `Assemble`. `Chat` is proved equal to it, and the request-level lemmas below state its properties. |
| Pipeline.Chat | interview_summary_chatbot.py:176-222 | The request on the cache object returns, stores and calls exactly what `ChatRun` specifies. |
| Pipeline.AssembledTrace | interview_summary_chatbot.py:176-222 | The extraction call comes first. Past the guards, the token-and-search calls follow, then the final stage's calls once the search found someone. The request ends with the search's cache, and with the final stage's result once it ran. |
| Pipeline.AssembledEarly | interview_summary_chatbot.py:179-184 | The request consists of the extraction call alone exactly when the guards fail; it then fails with a 400 and keeps the cache. |
| Pipeline.EarlyRejection | interview_summary_chatbot.py:176-184 | The request makes the extraction call alone exactly when the extraction is not JSON or yields no company. It then answers 400 and leaves the cache as it was. |
| Pipeline.NobodyFound | interview_summary_chatbot.py:186-190 | A search that returns no candidate ends the request with a 404 (nobody found) right after the extraction, token and search calls. No detail is fetched, the answer model is not called, and the cache is the one the search left. |
| Pipeline.AssembledSignIns | interview_summary_chatbot.py:186-198 | The request signs in no more than the token-and-search stage does. Unless the cache is untouched, it signs in exactly as often. |
| Pipeline.SignInBound | interview_summary_chatbot.py:186-198 | A request signs in at most twice, and at most once when the cached token is fresh. It changes the cache only if it signed in. |
| Pipeline.AssembledFailures | interview_summary_chatbot.py:176-222 | Given well-formed stage failures, every failure of the request carries the status its reason is raised with, or an upstream error status, or is `SynthesisFailed` (the completion had no text; the client sees 500). |
| Pipeline.FailuresWellFormed | interview_summary_chatbot.py:176-222 | Every failure of a request carries the status its reason is raised with (400 parse or company, 404 nobody or no summaries, 500 sign-in), or an upstream 4xx/5xx, or is `SynthesisFailed` (the completion had no text; the client sees 500). |
| Pipeline.AssembledOrder | interview_summary_chatbot.py:176-222 | The extraction call is first and happens once. The rewriting call is never before the last position, and is last exactly when the request answers or the completion had no text. |
| Pipeline.AnswerComesLast | interview_summary_chatbot.py:176-222 | For every request: the extraction call is first and happens once, and the rewriting call comes only last. The request answers exactly when it made that call and the completion had text, and the answer is that text stripped. It fails with `SynthesisFailed` only when the completion had no text. |
| Pipeline.AssembledTokens | interview_summary_chatbot.py:186-198 | Every GET outside the search path carries the token the token-and-search stage handed on. |
| Pipeline.DetailsUseIssuedToken | interview_summary_chatbot.py:186-198 | Every detail GET of a request carries the token `get_token` returned at the start. |
| Pipeline.NormalizedSearch | interview_summary_chatbot.py:144-146 | The query built from the normalised arguments has page 0 of 50, the stripped company and name, and the date exactly when it is truthy. |
| Pipeline.SearchQuery | interview_summary_chatbot.py:179-187 | The first search GET directly follows the extraction and `get_token`'s sign-in, if any. It carries `get_token`'s token and the query `NormalizedSearch` describes. |
| Pipeline.RefreshedLookup | interview_summary_chatbot.py:134-141 | With a fresh cached token, a 401 on the search and a successful sign-in: three calls, the search's result, and a cache that holds the new token. |
| Pipeline.StaleTokenAfterRefresh | interview_summary_chatbot.py:186-198 | After a refresh during the search, the first detail GET still carries the old token, while the cache already holds a different, new one. |

## Left out

- HTTP transport is not modelled: URLs beyond the path, headers, timeouts, and network exceptions such as connection errors and timeouts. Each backend answer is a parameter of the request (`Env`).
- The two language-model calls are not modelled beyond their position in the trace and what they return: prompts, model names, temperature and function-calling schema. The extraction's outcome (`Unparseable` or the arguments) and the completion text are inputs.
- A completion whose content is null makes the source fail on `.strip()`, which the client sees as a 500. It is modelled as the failure `SynthesisFailed`, whose client status is 500.
- JSON details are not modelled: missing required keys (`accessToken`, `intervieweeId`, `name`, `updatedAt`), bodies that are not JSON, and values of the wrong type. Records assume those keys are present.
- Session.TokenCache.Refresh: a 200 sign-in answer whose `expiresIn` is JSON `null` is not modelled. The source writes the token at line 60 and then raises at line 61, so a first sign-in leaves the token set and the expiry unset. Every later `get_token` then raises at line 65 (a 500) and never signs in again. `Valid()`, which `Chat` requires, excludes that state; the model's `expiresIn` is `None` only for a missing key.
- The texts of the `HTTPException` details, including the sign-in response text, are not modelled. Failures carry a reason and a status instead.
- The clock is one integer number of seconds per request. Sub-second precision, and time passing between `get_token` and a refresh within one request, are not modelled.
- The detail endpoint is a fixed function of token and interviewee id, so asking twice gives the same answer.
- Startup configuration is not modelled: environment variables, the `RuntimeError`s on missing settings, the startup debug prints, FastAPI routing and pydantic models.
- The diagnostic prints during a request (lines 107, 147, 167, 197, 201 and 206) are not modelled. They only write to the console.
- A detail body that is JSON but not an object (a list, a string, a number) is returned by `fetch_interview_detail` as it is. `detail.get("logs", [])` at line 204 then raises, and the client gets a 500. A detail here is either absent or an object with optional logs, so the model cannot represent that body, and no request of the model fails this way.
- `fetch_interviewee_list` (lines 151-157) is never called by `/chat` and is not part of this model.
- Concurrent requests sharing the module-level cache are not modelled. Each request runs alone.
- The stages of a request (`Lookup`, `Respond`) are pure functions. Only `Chat`, `ApiGet`, `SearchInterviewees` and the `TokenCache` methods act on the cache object; `CollectSummaries` is the step-by-step aggregation loop.
