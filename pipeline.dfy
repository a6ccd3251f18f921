/**
  The `/chat` request pipeline: normalise the extracted parameters, stop at
  each guard, collect one summary record per usable candidate in search
  order, and hand them to the answer model.
*/
module Pipeline {
  import opened Wrappers
  import opened Text
  import opened Http
  import opened Session
  import opened Api
  import opened Seqs

  /** Body shown when a log has no summary. */
  const NoSummaryText := "[요약 없음]"
  /** Company shown when a candidate has no company name. */
  const NoCompanyText := "회사명 없음"
  /** Separator between records in the answer model's context. */
  const Separator := "\n\n"

  /** The extraction model's arguments; a field is `None` when missing or null. */
  datatype Parsed = Parsed(company: Option<string>, name: Option<string>, date: Option<string>)

  /** The extraction outcome: arguments, or text that was not JSON. */
  datatype Extraction = Unparseable | Arguments(args: Parsed)

  /** The search parameters after normalisation. */
  datatype Query = Query(company: string, name: string, date: Option<string>)

  /**
    Company and name are stripped (missing or null read as empty); an empty
    date becomes absent, and a non-empty one is kept unstripped.
  */
  function Normalize(p: Parsed): (q: Query)
    ensures q.company == "" <==> AllSpace(p.company.GetOr(""))
    ensures q.company != "" ==> !IsSpace(q.company[0]) && !IsSpace(q.company[|q.company| - 1])
    ensures q.name == "" <==> AllSpace(p.name.GetOr(""))
    ensures q.name != "" ==> !IsSpace(q.name[0]) && !IsSpace(q.name[|q.name| - 1])
    ensures q.date.Some? <==> Truthy(p.date)
    ensures q.date.Some? ==> q.date == p.date
  {
    Query(Strip(p.company.GetOr("")), Strip(p.name.GetOr("")), if Truthy(p.date) then p.date else None)
  }

  /** A candidate's company, or the placeholder when it has none. */
  function CompanyLabel(iv: Candidate): (shown: string)
    ensures shown != ""
    ensures Truthy(iv.companyName) ==> shown == iv.companyName.value
    ensures !Truthy(iv.companyName) ==> shown == NoCompanyText
  {
    if Truthy(iv.companyName) then iv.companyName.value else NoCompanyText
  }

  lemma PlaceholderIsStripped()
    ensures Strip(NoSummaryText) == NoSummaryText
  {
    assert StripWindow(NoSummaryText, 0, NoSummaryText);
    StripUnique(NoSummaryText, 0, NoSummaryText);
  }

  /**
    A record's body: the stripped summary, or the placeholder when the summary
    is missing or empty. A whitespace-only summary gives an empty body.
  */
  function Body(log: LogEntry): (body: string)
    ensures !Truthy(log.summary) ==> body == NoSummaryText
    ensures body == "" <==> Truthy(log.summary) && AllSpace(log.summary.value)
    ensures body != "" ==> !IsSpace(body[0]) && !IsSpace(body[|body| - 1])
  {
    PlaceholderIsStripped();
    Strip(if Truthy(log.summary) then log.summary.value else NoSummaryText)
  }

  /** The record's first line: bullet, name, company and last update. */
  function Header(iv: Candidate): string {
    "● " + iv.name + " | " + CompanyLabel(iv) + " | " + iv.updatedAt
  }

  /** One raw summary record: the header line, then the body. */
  function Record(iv: Candidate, log: LogEntry): string {
    Header(iv) + "\n" + Body(log)
  }

  function LogsOf(d: Detail): seq<LogEntry> {
    d.logs.GetOr([])
  }

  /** A detail that was fetched and has at least one log. */
  predicate Usable(d: Option<Detail>) {
    d.Some? && LogsOf(d.value) != []
  }

  /** The detail fetched for each candidate, in order, with `token`. */
  function Fetched(token: string, candidates: seq<Candidate>, server: (string, string) -> DetailReply): (f: seq<Option<Detail>>)
    ensures |f| == |candidates|
  {
    seq(|candidates|, i requires 0 <= i < |candidates| => FetchDetail(server(token, candidates[i].id)))
  }

  /** The detail GETs, one per candidate, in order. */
  function DetailCalls(token: string, candidates: seq<Candidate>): (calls: seq<Call>)
    ensures |calls| == |candidates|
  {
    seq(|candidates|, i requires 0 <= i < |candidates| => Get(DetailPath(candidates[i].id), map[], token))
  }

  /** A kept candidate and the log its record is made from. */
  datatype Pick = Pick(iv: Candidate, log: LogEntry)

  /** The pick of a candidate whose detail is usable: its first log. */
  function PickOf(iv: Candidate, d: Option<Detail>): Pick
    requires Usable(d)
  {
    Pick(iv, LogsOf(d.value)[0])
  }

  /**
    The candidates the aggregation keeps, in order, each with the first of its
    logs (taken to be the most recent).
  */
  function Picks(candidates: seq<Candidate>, fetched: seq<Option<Detail>>): (picks: seq<Pick>)
    requires |fetched| == |candidates|
    ensures |picks| <= |candidates|
    decreases |candidates|
  {
    if candidates == [] then []
    else
      var n := |candidates| - 1;
      var before := Picks(candidates[..n], fetched[..n]);
      if Usable(fetched[n]) then before + [PickOf(candidates[n], fetched[n])] else before
  }

  /** The formatted record of one pick. */
  function PickRecord(p: Pick): string {
    Record(p.iv, p.log)
  }

  /** The formatted records of the picks, in the same order. */
  function Records(picks: seq<Pick>): seq<string> {
    Map(PickRecord, picks)
  }

  /** The raw summaries of the aggregation loop (its specification). */
  function Summaries(candidates: seq<Candidate>, fetched: seq<Option<Detail>>): (raw: seq<string>)
    requires |fetched| == |candidates|
  {
    Records(Picks(candidates, fetched))
  }

  /** The positions of the usable details, increasing. */
  function Survivors(fetched: seq<Option<Detail>>): (ix: seq<nat>)
    ensures forall k :: 0 <= k < |ix| ==> ix[k] < |fetched| && Usable(fetched[ix[k]])
  {
    if fetched == [] then []
    else
      var n := |fetched| - 1;
      var before := Survivors(fetched[..n]);
      if Usable(fetched[n]) then before + [n] else before
  }

  /** The survivors are in search order. */
  lemma {:induction false} SurvivorsIncreasing(fetched: seq<Option<Detail>>)
    ensures forall k, l :: 0 <= k < l < |Survivors(fetched)| ==> Survivors(fetched)[k] < Survivors(fetched)[l]
  {
    if fetched != [] {
      var n := |fetched| - 1;
      SurvivorsIncreasing(fetched[..n]);
      var before := Survivors(fetched[..n]);
      if Usable(fetched[n]) {
        var ix := before + [n];
        assert Survivors(fetched) == ix;
        forall k, l | 0 <= k < l < |ix| ensures ix[k] < ix[l] {
          if l < |before| {
            assert ix[k] == before[k] && ix[l] == before[l];
          } else {
            assert ix[k] == before[k] < |fetched[..n]| == n == ix[l];
          }
        }
      }
    }
  }

  /** Every usable position is a survivor. */
  lemma {:induction false} SurvivorsComplete(fetched: seq<Option<Detail>>, i: int)
    requires 0 <= i < |fetched| && Usable(fetched[i])
    ensures i in Survivors(fetched)
  {
    var n := |fetched| - 1;
    if i < n {
      assert fetched[..n][i] == fetched[i];
      SurvivorsComplete(fetched[..n], i);
    }
  }

  /**
    The aggregation keeps exactly the usable candidates, in search order, one
    pick each, made from the first log.
  */
  lemma {:induction false} PicksFollowSurvivors(candidates: seq<Candidate>, fetched: seq<Option<Detail>>)
    requires |fetched| == |candidates|
    ensures var ix, picks := Survivors(fetched), Picks(candidates, fetched);
      && |picks| == |ix|
      && forall k :: 0 <= k < |ix| ==> picks[k] == PickOf(candidates[ix[k]], fetched[ix[k]])
    decreases |candidates|
  {
    if candidates != [] {
      var n := |candidates| - 1;
      var c, f := candidates[..n], fetched[..n];
      PicksFollowSurvivors(c, f);
      var ix, picks := Survivors(f), Picks(c, f);
      forall k | 0 <= k < |ix| ensures picks[k] == PickOf(candidates[ix[k]], fetched[ix[k]]) {
        assert c[ix[k]] == candidates[ix[k]] && f[ix[k]] == fetched[ix[k]];
      }
    }
  }

  /**
    Record `k` of the aggregation is that of the `k`-th usable candidate, in
    search order; there is one record per usable candidate and no other.
  */
  lemma SummariesFollowSurvivors(candidates: seq<Candidate>, fetched: seq<Option<Detail>>)
    requires |fetched| == |candidates|
    ensures var ix, raw := Survivors(fetched), Summaries(candidates, fetched);
      && |raw| == |ix| <= |candidates|
      && forall k :: 0 <= k < |ix| ==> raw[k] == Record(candidates[ix[k]], LogsOf(fetched[ix[k]].value)[0])
  {
    PicksFollowSurvivors(candidates, fetched);
  }

  /** No record at all exactly when no candidate has a usable detail. */
  lemma NoSummariesIff(candidates: seq<Candidate>, fetched: seq<Option<Detail>>)
    requires |fetched| == |candidates|
    ensures Summaries(candidates, fetched) == [] <==> forall i :: 0 <= i < |fetched| ==> !Usable(fetched[i])
  {
    PicksFollowSurvivors(candidates, fetched);
    var ix := Survivors(fetched);
    if ix != [] {
      assert Usable(fetched[ix[0]]);
    }
    forall i | 0 <= i < |fetched| && Usable(fetched[i]) ensures ix != [] {
      SurvivorsComplete(fetched, i);
    }
  }

  /** One more candidate: it is picked after the earlier picks exactly when its detail is usable. */
  lemma PicksStep(candidates: seq<Candidate>, fetched: seq<Option<Detail>>, i: nat)
    requires |fetched| == |candidates| && i < |candidates|
    ensures Picks(candidates[..i + 1], fetched[..i + 1]) ==
      Picks(candidates[..i], fetched[..i]) + (if Usable(fetched[i]) then [PickOf(candidates[i], fetched[i])] else [])
  {
    assert candidates[..i + 1][..i] == candidates[..i];
    assert fetched[..i + 1][..i] == fetched[..i];
  }

  /** The aggregation loop of `chat`, fetching each candidate's detail in turn. */
  method CollectSummaries(token: string, candidates: seq<Candidate>, server: (string, string) -> DetailReply)
    returns (raw: seq<string>, calls: seq<Call>)
    ensures raw == Summaries(candidates, Fetched(token, candidates, server))
    ensures calls == DetailCalls(token, candidates)
  {
    ghost var fetched := Fetched(token, candidates, server);
    ghost var sent := DetailCalls(token, candidates);
    ghost var picks: seq<Pick> := [];
    raw, calls := [], [];
    for i := 0 to |candidates|
      invariant picks == Picks(candidates[..i], fetched[..i])
      invariant raw == Records(picks)
      invariant calls == sent[..i]
    {
      var iv := candidates[i];
      PicksStep(candidates, fetched, i);
      assert sent[..i + 1] == sent[..i] + [sent[i]];
      calls := calls + [Get(DetailPath(iv.id), map[], token)];
      var detail := FetchDetail(server(token, iv.id));
      if detail.None? {
        continue;
      }
      var logs := LogsOf(detail.value);
      if logs == [] {
        continue;
      }
      // the most recent log is taken to be the first
      MapAppend(PickRecord, picks, Pick(iv, logs[0]));
      raw := raw + [Record(iv, logs[0])];
      picks := picks + [Pick(iv, logs[0])];
    }
    assert candidates[..|candidates|] == candidates && fetched[..|candidates|] == fetched && sent[..|candidates|] == sent;
  }

  /** Everything the outside world answers during one request. */
  datatype Env = Env(
    now: int,                                 // the clock, in seconds
    extraction: Extraction,                   // the extraction model's output
    login: LoginReply,                        // sign-in answer, should `get_token` sign in
    search: Response<SearchBody>,             // answer to the search GET
    relogin: LoginReply,                      // sign-in answer after a 401 on the search
    searchRetry: Response<SearchBody>,        // answer to the repeated search GET
    details: (string, string) -> DetailReply, // detail endpoint, by token and interviewee id
    completion: Option<string>)               // the answer model's text, `None` when it has none

  /** No sign-in is among the detail GETs. */
  lemma NoSignInAmongDetails(token: string, candidates: seq<Candidate>)
    ensures multiset(DetailCalls(token, candidates))[SignIn] == 0
  {
    assert SignIn !in DetailCalls(token, candidates);
  }

  /** What steps 4 and 5 produce: the answer or the failure, and their calls. */
  datatype Outcome = Outcome(result: Result<string, Failure>, calls: seq<Call>)

  /**
    Steps 2 and 3: `get_token`, then the search with that token. The token is
    handed on with the candidates; the search may have refreshed the cache.
  */
  function Lookup(c: Cache, q: Query, env: Env): (l: Step<(string, seq<Candidate>)>)
    ensures 1 <= |l.calls| <= 4
    ensures multiset(l.calls)[SignIn] <= 2
    ensures Fresh(c, env.now) ==> multiset(l.calls)[SignIn] <= 1
    ensures l.cache != c ==> multiset(l.calls)[SignIn] >= 1
    ensures l.result.Ok? ==> GetTokenStep(c, env.now, env.login).result == Ok(l.result.value.0)
  {
    var t := GetTokenStep(c, env.now, env.login);
    match t.result
    case Err(e) => Step(Err(e), t.cache, t.calls)
    case Ok(token) =>
      var s := SearchStep(t.cache, env.now, token, q.name, q.company, q.date, env.search, env.relogin, env.searchRetry);
      match s.result
      case Err(e) => Step(Err(e), s.cache, t.calls + s.calls)
      case Ok(candidates) => Step(Ok((token, candidates)), s.cache, t.calls + s.calls)
  }

  /** A call `Lookup` may make: a sign-in or a search GET. */
  predicate LookupCall(call: Call) {
    call == SignIn || (call.Get? && call.path == SearchPath)
  }

  /** `Lookup`'s calls are `get_token`'s, then, once it has a token, the search's. */
  lemma LookupCallsSplit(c: Cache, q: Query, env: Env)
    ensures var l, t := Lookup(c, q, env), GetTokenStep(c, env.now, env.login);
      && (t.result.Err? ==> l.calls == t.calls)
      && (t.result.Ok? ==>
            l.calls == t.calls + SearchStep(t.cache, env.now, t.result.value, q.name, q.company, q.date,
                                            env.search, env.relogin, env.searchRetry).calls)
  {
  }

  /** `Lookup` makes sign-ins and search GETs only. */
  lemma LookupCallKinds(c: Cache, q: Query, env: Env)
    ensures var l := Lookup(c, q, env);
      forall call :: call in l.calls ==> LookupCall(call)
  {
    var t := GetTokenStep(c, env.now, env.login);
    LookupCallsSplit(c, q, env);
    if t.result.Ok? {
      var token := t.result.value;
      var s := SearchStep(t.cache, env.now, token, q.name, q.company, q.date, env.search, env.relogin, env.searchRetry);
      SearchOnlyGetsSearch(t.cache, env.now, token, q.name, q.company, q.date, env.search, env.relogin, env.searchRetry);
    }
  }

  /**
    The first search GET, right after `get_token`'s sign-in if any, carries
    the normalised query and the token `get_token` returned.
  */
  lemma LookupFirstSearch(c: Cache, q: Query, env: Env)
    ensures var l, t := Lookup(c, q, env), GetTokenStep(c, env.now, env.login);
      t.result.Ok? ==>
        && |t.calls| < |l.calls|
        && l.calls[|t.calls|] == Get(SearchPath, SearchParams(q.name, q.company, q.date), t.result.value)
  {
    var t := GetTokenStep(c, env.now, env.login);
    if t.result.Ok? {
      var token := t.result.value;
      var s := SearchStep(t.cache, env.now, token, q.name, q.company, q.date, env.search, env.relogin, env.searchRetry);
      var g := ApiGetStep(t.cache, env.now, SearchPath, token, SearchParams(q.name, q.company, q.date), env.search, env.relogin, env.searchRetry);
      assert s.calls == g.calls;
      assert Lookup(c, q, env).calls == t.calls + s.calls;
    }
  }

  /** `Lookup` fails only with a failed sign-in or an error status from the search. */
  lemma LookupFailures(c: Cache, q: Query, env: Env)
    ensures var l := Lookup(c, q, env);
      l.result.Err? ==>
        l.result.error == Raised(500, LoginFailed) || (l.result.error.Upstream? && IsErrorStatus(l.result.error.status))
  {
    var t := GetTokenStep(c, env.now, env.login);
    if t.result.Ok? {
      var token := t.result.value;
      var s := SearchStep(t.cache, env.now, token, q.name, q.company, q.date, env.search, env.relogin, env.searchRetry);
      var g := ApiGetStep(t.cache, env.now, SearchPath, token, SearchParams(q.name, q.company, q.date), env.search, env.relogin, env.searchRetry);
      assert s.result.Err? ==> s.result.error == g.result.error;
    }
  }

  /**
    Steps 4 and 5: one detail GET per candidate, in order, with `token`; then,
    when some record was made, one rewriting call with the records joined.
  */
  function Respond(question: string, token: string, candidates: seq<Candidate>, env: Env): (o: Outcome)
    ensures |candidates| <= |o.calls| <= |candidates| + 1
    ensures forall k :: 0 <= k < |candidates| ==> o.calls[k] == Get(DetailPath(candidates[k].id), map[], token)
    ensures multiset(o.calls)[SignIn] == 0
    ensures |o.calls| == |candidates| <==> o.result == Err(Raised(404, NoSummaries))
    ensures |o.calls| == |candidates| <==>
      forall i :: 0 <= i < |candidates| ==> !Usable(Fetched(token, candidates, env.details)[i])
    ensures |o.calls| > |candidates| ==>
      o.calls[|candidates|] == SynthesizeCall(question, Join(Summaries(candidates, Fetched(token, candidates, env.details)), Separator))
    ensures o.result.Ok? <==> |o.calls| > |candidates| && env.completion.Some?
    ensures |o.calls| > |candidates| && env.completion.None? ==> o.result == Err(SynthesisFailed)
    ensures o.result.Ok? ==> o.result.value == Strip(env.completion.value)
  {
    var raw := Summaries(candidates, Fetched(token, candidates, env.details));
    var fetched := DetailCalls(token, candidates);
    NoSignInAmongDetails(token, candidates);
    NoSummariesIff(candidates, Fetched(token, candidates, env.details));
    if raw == [] then Outcome(Err(Raised(404, NoSummaries)), fetched)
    else
      var synthesized := fetched + [SynthesizeCall(question, Join(raw, Separator))];
      assert forall k :: 0 <= k < |candidates| ==> synthesized[k] == fetched[k];
      match env.completion
      case None => Outcome(Err(SynthesisFailed), synthesized)
      case Some(text) => Outcome(Ok(Strip(text)), synthesized)
  }

  /**
    `chat`'s control flow over the outcomes of its stages: the query `q`, the
    token and search `l`, and the aggregation and rewriting `o`. Each stage's
    calls count only if the request gets that far.
  */
  function Assemble(c: Cache, question: string, extraction: Extraction, q: Query,
                    l: Step<(string, seq<Candidate>)>, o: Outcome): Step<string> {
    var asked := [ExtractCall(question)];
    if extraction.Unparseable? then Step(Err(Raised(400, ParseFailed)), c, asked)
    else if q.company == "" then Step(Err(Raised(400, NoCompany)), c, asked)
    else
      match l.result
      case Err(e) => Step(Err(e), l.cache, asked + l.calls)
      case Ok((_, candidates)) =>
        if candidates == [] then Step(Err(Raised(404, NoInterviewees)), l.cache, asked + l.calls)
        else Step(o.result, l.cache, asked + l.calls + o.calls)
  }

  /** The normalised query; empty when the extraction failed (it is then not used). */
  function QueryOf(extraction: Extraction): Query {
    match extraction
    case Unparseable => Query("", "", None)
    case Arguments(p) => Normalize(p)
  }

  /** Steps 4 and 5 after a successful search; nothing when the search failed (it is then not used). */
  function RespondAfter(question: string, l: Step<(string, seq<Candidate>)>, env: Env): Outcome {
    match l.result
    case Err(_) => Outcome(Err(Raised(404, NoSummaries)), [])
    case Ok((token, candidates)) => Respond(question, token, candidates, env)
  }

  /** `chat`, as a function of the cache before it and the outside world. */
  function ChatRun(c: Cache, question: string, env: Env): Step<string> {
    var q := QueryOf(env.extraction);
    var l := Lookup(c, q, env);
    Assemble(c, question, env.extraction, q, l, RespondAfter(question, l, env))
  }

  /** `chat` on the token cache object; `calls` lists every outbound call in order. */
  method Chat(cache: TokenCache, question: string, env: Env) returns (answer: Result<string, Failure>, calls: seq<Call>)
    requires cache.Valid()
    modifies cache
    ensures cache.Valid()
    ensures Step(answer, cache.State(), calls) == ChatRun(old(cache.State()), question, env)
  {
    // Step 1: company and date from the question
    calls := [ExtractCall(question)];
    if env.extraction.Unparseable? {
      return Err(Raised(400, ParseFailed)), calls;
    }
    var q := Normalize(env.extraction.args);
    if q.company == "" {
      return Err(Raised(400, NoCompany)), calls;
    }
    // Steps 2 and 3: token, then search
    ghost var before := cache.State();
    var token, signIns := cache.GetToken(env.now, env.login);
    if token.Err? {
      assert Lookup(before, q, env) == Step(Err(token.error), cache.State(), signIns);
      return Err(token.error), calls + signIns;
    }
    var candidates, searchCalls := SearchInterviewees(cache, env.now, token.value, q.name, q.company, q.date,
                                                      env.search, env.relogin, env.searchRetry);
    ghost var l := Lookup(before, q, env);
    assert l.calls == signIns + searchCalls && l.cache == cache.State();
    calls := calls + (signIns + searchCalls);
    if candidates.Err? {
      assert l.result == Err(candidates.error);
      return Err(candidates.error), calls;
    }
    assert l.result == Ok((token.value, candidates.value));
    if candidates.value == [] {
      return Err(Raised(404, NoInterviewees)), calls;
    }
    // Step 4: one record per usable candidate
    var raw, detailCalls := CollectSummaries(token.value, candidates.value, env.details);
    ghost var o := Respond(question, token.value, candidates.value, env);
    if raw == [] {
      assert o == Outcome(Err(Raised(404, NoSummaries)), detailCalls);
      return Err(Raised(404, NoSummaries)), calls + detailCalls;
    }
    // Step 5: the answer model rewrites the records
    var rest := detailCalls + [SynthesizeCall(question, Join(raw, Separator))];
    if env.completion.None? {
      assert o == Outcome(Err(SynthesisFailed), rest);
      return Err(SynthesisFailed), calls + rest;
    }
    answer, calls := Ok(Strip(env.completion.value)), calls + rest;
    assert o == Outcome(answer, rest);
  }

  /** The request gets past the extraction and the company guard. */
  predicate Reached(extraction: Extraction, q: Query) {
    extraction.Arguments? && q.company != ""
  }

  /** The search answered with at least one candidate, so steps 4 and 5 run. */
  predicate Found(l: Step<(string, seq<Candidate>)>) {
    l.result.Ok? && l.result.value.1 != []
  }

  /**
    Where each stage's calls sit in the request's trace, and which stage's
    cache and result the request ends with.
  */
  lemma AssembledTrace(c: Cache, question: string, extraction: Extraction, q: Query,
                       l: Step<(string, seq<Candidate>)>, o: Outcome)
    ensures var r := Assemble(c, question, extraction, q, l, o);
      && r.calls[0] == ExtractCall(question)
      && (!Reached(extraction, q) ==> r.calls == [ExtractCall(question)] && r.cache == c)
      && (Reached(extraction, q) ==>
            && r.cache == l.cache
            && |r.calls| == 1 + |l.calls| + (if Found(l) then |o.calls| else 0)
            && (forall k :: 0 <= k < |l.calls| ==> r.calls[1 + k] == l.calls[k]))
      && (Reached(extraction, q) && Found(l) ==>
            && r.result == o.result
            && (forall k :: 0 <= k < |o.calls| ==> r.calls[1 + |l.calls| + k] == o.calls[k]))
  {
    var r := Assemble(c, question, extraction, q, l, o);
    if Reached(extraction, q) {
      var head := [ExtractCall(question)] + l.calls;
      if Found(l) {
        assert r.calls == head + o.calls;
        forall k | 0 <= k < |o.calls| ensures r.calls[|head| + k] == o.calls[k] { }
      } else {
        assert r.calls == head;
      }
      forall k | 0 <= k < |l.calls| ensures r.calls[1 + k] == l.calls[k] {
        assert r.calls[1 + k] == head[1 + k];
      }
    }
  }

  /**
    With a search that calls at least once, `Assemble` stops after the
    extraction call alone exactly when the guards fail, with a 400.
  */
  lemma AssembledEarly(c: Cache, question: string, extraction: Extraction, q: Query,
                       l: Step<(string, seq<Candidate>)>, o: Outcome)
    requires |l.calls| >= 1
    ensures var r := Assemble(c, question, extraction, q, l, o);
      && (r.calls == [ExtractCall(question)] <==> !Reached(extraction, q))
      && (r.calls == [ExtractCall(question)] ==> r.cache == c && r.result.Err? && ClientStatus(r.result.error) == 400)
  {
  }

  /**
    The request stops after the extraction call alone exactly when the
    extraction fails or yields no company; it then answers 400 and leaves the
    cache as it was.
  */
  lemma EarlyRejection(c: Cache, question: string, env: Env)
    ensures var r := ChatRun(c, question, env);
      && (r.calls == [ExtractCall(question)] <==>
            env.extraction.Unparseable? || Normalize(env.extraction.args).company == "")
      && (r.calls == [ExtractCall(question)] ==>
            r.cache == c && r.result.Err? && ClientStatus(r.result.error) == 400)
  {
    var q := QueryOf(env.extraction);
    var l := Lookup(c, q, env);
    AssembledEarly(c, question, env.extraction, q, l, RespondAfter(question, l, env));
  }

  /**
    A search that finds nobody ends the request with a 404 right after the
    token and search calls: no detail is fetched and the answer model is not
    called. The cache is the one the search left.
  */
  lemma NobodyFound(c: Cache, question: string, env: Env)
    requires env.extraction.Arguments? && Normalize(env.extraction.args).company != ""
    requires var l := Lookup(c, Normalize(env.extraction.args), env);
      l.result.Ok? && l.result.value.1 == []
    ensures var r, l := ChatRun(c, question, env), Lookup(c, Normalize(env.extraction.args), env);
      && r.result == Err(Raised(404, NoInterviewees))
      && r.calls == [ExtractCall(question)] + l.calls
      && r.cache == l.cache
  {
  }

  /** Without sign-ins in steps 4 and 5, the request's sign-ins are those of the lookup, or none. */
  lemma AssembledSignIns(c: Cache, question: string, extraction: Extraction, q: Query,
                         l: Step<(string, seq<Candidate>)>, o: Outcome)
    requires multiset(o.calls)[SignIn] == 0
    ensures var r := Assemble(c, question, extraction, q, l, o);
      && multiset(r.calls)[SignIn] <= multiset(l.calls)[SignIn]
      && (r.cache == c || (r.cache == l.cache && multiset(r.calls)[SignIn] == multiset(l.calls)[SignIn]))
  {
    var r := Assemble(c, question, extraction, q, l, o);
    if Reached(extraction, q) {
      if Found(l) {
        assert r.calls == [ExtractCall(question)] + l.calls + o.calls;
      } else {
        assert r.calls == [ExtractCall(question)] + l.calls;
      }
    }
  }

  /**
    A request signs in at most twice (`get_token`, then the one refresh in the
    search), at most once when the cached token is fresh, and the cache
    changes only if it signed in.
  */
  lemma SignInBound(c: Cache, question: string, env: Env)
    ensures var r := ChatRun(c, question, env);
      && multiset(r.calls)[SignIn] <= 2
      && (Fresh(c, env.now) ==> multiset(r.calls)[SignIn] <= 1)
      && (r.cache != c ==> multiset(r.calls)[SignIn] >= 1)
  {
    var q := QueryOf(env.extraction);
    var l := Lookup(c, q, env);
    AssembledSignIns(c, question, env.extraction, q, l, RespondAfter(question, l, env));
  }

  /** Given well-formed stage failures, every failure `Assemble` ends with is well formed. */
  lemma AssembledFailures(c: Cache, question: string, extraction: Extraction, q: Query,
                          l: Step<(string, seq<Candidate>)>, o: Outcome)
    requires l.result.Err? ==> WellFormed(l.result.error)
    requires o.result.Err? ==> o.result.error == Raised(404, NoSummaries) || o.result.error == SynthesisFailed
    ensures var r := Assemble(c, question, extraction, q, l, o);
      r.result.Err? ==> WellFormed(r.result.error)
  {
  }

  /** Every failure a request ends with carries the status its kind is reported with. */
  lemma FailuresWellFormed(c: Cache, question: string, env: Env)
    ensures var r := ChatRun(c, question, env);
      r.result.Err? ==> WellFormed(r.result.error)
  {
    var q := QueryOf(env.extraction);
    var l := Lookup(c, q, env);
    LookupFailures(c, q, env);
    AssembledFailures(c, question, env.extraction, q, l, RespondAfter(question, l, env));
  }

  /**
    After a search that found someone, step 4's GETs all carry the token the
    lookup handed on, and the only model call, if any, is the last one; it is
    made exactly when the stage answers or the completion had no text.
  */
  lemma RespondAfterCalls(question: string, l: Step<(string, seq<Candidate>)>, env: Env)
    requires Found(l)
    ensures var o := RespondAfter(question, l, env);
      && |o.calls| > 0
      && (forall k :: 0 <= k < |o.calls| && o.calls[k].Get? ==> o.calls[k].token == l.result.value.0)
      && (forall k :: 0 <= k < |o.calls| - 1 ==> o.calls[k].Get?)
      && (o.calls[|o.calls| - 1].SynthesizeCall? || o.calls[|o.calls| - 1].Get?)
      && (o.calls[|o.calls| - 1].SynthesizeCall? <==> o.result.Ok? || o.result == Err(SynthesisFailed))
      && (o.result.Ok? ==> env.completion.Some? && o.result.value == Strip(env.completion.value))
      && (o.result == Err(SynthesisFailed) ==> env.completion.None?)
  {
    var (token, candidates) := l.result.value;
    var o := Respond(question, token, candidates, env);
    assert o == RespondAfter(question, l, env);
    assert forall k :: 0 <= k < |candidates| ==> o.calls[k].Get? && o.calls[k].token == token;
  }

  /**
    With a lookup that makes no model call and a final stage whose only model
    call is its last, the extraction call comes first and once, and the
    rewriting call, if any, last; it is there exactly when `Assemble` answers
    or the completion had no text, and either result is the final stage's.
  */
  lemma AssembledOrder(c: Cache, question: string, extraction: Extraction, q: Query,
                       l: Step<(string, seq<Candidate>)>, o: Outcome)
    requires forall call :: call in l.calls ==> call.SignIn? || call.Get?
    requires l.result.Err? ==> l.result.error != SynthesisFailed
    requires Found(l) ==>
      && |o.calls| > 0
      && (forall k :: 0 <= k < |o.calls| - 1 ==> o.calls[k].Get?)
      && (o.calls[|o.calls| - 1].SynthesizeCall? || o.calls[|o.calls| - 1].Get?)
      && (o.calls[|o.calls| - 1].SynthesizeCall? <==> o.result.Ok? || o.result == Err(SynthesisFailed))
    ensures var r := Assemble(c, question, extraction, q, l, o);
      && r.calls[0] == ExtractCall(question)
      && (forall k :: 0 < k < |r.calls| ==> !r.calls[k].ExtractCall?)
      && (forall k :: 0 <= k < |r.calls| - 1 ==> !r.calls[k].SynthesizeCall?)
      && (r.result.Ok? || r.result == Err(SynthesisFailed) <==> r.calls[|r.calls| - 1].SynthesizeCall?)
      && (r.result.Ok? || r.result == Err(SynthesisFailed) ==> Reached(extraction, q) && Found(l) && r.result == o.result)
  {
    var r := Assemble(c, question, extraction, q, l, o);
    var asked := [ExtractCall(question)];
    if Reached(extraction, q) {
      var tail := if Found(l) then o.calls else [];
      assert r.calls == asked + l.calls + tail;
      forall k | 0 < k < |r.calls|
        ensures !r.calls[k].ExtractCall?
        ensures k < |r.calls| - 1 || k <= |l.calls| ==> !r.calls[k].SynthesizeCall?
      {
        if k <= |l.calls| {
          assert r.calls[k] == l.calls[k - 1] && l.calls[k - 1] in l.calls;
        } else {
          assert r.calls[k] == tail[k - 1 - |l.calls|];
        }
      }
    }
  }

  /**
    The extraction call comes first and only once; the rewriting call, when
    made, comes last; the request answers exactly when it made that call and
    the completion had text (it fails with `SynthesisFailed` only when the
    completion had none), and the answer is that text stripped.
  */
  lemma AnswerComesLast(c: Cache, question: string, env: Env)
    ensures var r := ChatRun(c, question, env);
      && r.calls[0] == ExtractCall(question)
      && (forall k :: 0 < k < |r.calls| ==> !r.calls[k].ExtractCall?)
      && (forall k :: 0 <= k < |r.calls| - 1 ==> !r.calls[k].SynthesizeCall?)
      && (r.result.Ok? || r.result == Err(SynthesisFailed) <==> r.calls[|r.calls| - 1].SynthesizeCall?)
      && (r.result.Ok? ==> env.completion.Some? && r.result.value == Strip(env.completion.value))
      && (r.result == Err(SynthesisFailed) ==> env.completion.None?)
  {
    var q := QueryOf(env.extraction);
    var l := Lookup(c, q, env);
    var o := RespondAfter(question, l, env);
    LookupCallKinds(c, q, env);
    LookupFailures(c, q, env);
    if Found(l) {
      RespondAfterCalls(question, l, env);
    }
    AssembledOrder(c, question, env.extraction, q, l, o);
  }

  /**
    With search GETs and sign-ins only in the lookup, and a final stage whose
    GETs carry the token the lookup handed on, every other GET carries it.
  */
  lemma AssembledTokens(c: Cache, question: string, extraction: Extraction, q: Query,
                        l: Step<(string, seq<Candidate>)>, o: Outcome)
    requires forall call :: call in l.calls ==> LookupCall(call)
    requires Found(l) ==> forall k :: 0 <= k < |o.calls| && o.calls[k].Get? ==> o.calls[k].token == l.result.value.0
    ensures var r := Assemble(c, question, extraction, q, l, o);
      forall k :: 0 <= k < |r.calls| && r.calls[k].Get? && r.calls[k].path != SearchPath ==>
        l.result.Ok? && r.calls[k].token == l.result.value.0
  {
    var r := Assemble(c, question, extraction, q, l, o);
    AssembledTrace(c, question, extraction, q, l, o);
    forall k | 0 <= k < |r.calls|
      ensures r.calls[k].Get? && r.calls[k].path != SearchPath ==> l.result.Ok? && r.calls[k].token == l.result.value.0
    {
      if 1 <= k <= |l.calls| {
        assert r.calls[k] == l.calls[k - 1] && l.calls[k - 1] in l.calls;
      }
    }
  }

  /**
    Every detail GET carries the token `get_token` returned at the start of
    the request, even when the search has since refreshed the cache.
  */
  lemma DetailsUseIssuedToken(c: Cache, question: string, env: Env)
    ensures var r := ChatRun(c, question, env);
      forall k :: 0 <= k < |r.calls| && r.calls[k].Get? && r.calls[k].path != SearchPath ==>
        GetTokenStep(c, env.now, env.login).result == Ok(r.calls[k].token)
  {
    var q := QueryOf(env.extraction);
    var l := Lookup(c, q, env);
    LookupCallKinds(c, q, env);
    if Found(l) {
      RespondAfterCalls(question, l, env);
    }
    AssembledTokens(c, question, env.extraction, q, l, RespondAfter(question, l, env));
  }

  /**
    `call` is the search GET `chat` makes for the extracted arguments `p`:
    page 0 of 50, the stripped company and name, and the date exactly when
    the model gave a truthy one, sent with `token`.
  */
  predicate SearchesFor(call: Call, p: Parsed, token: string) {
    && call.Get? && call.path == SearchPath && call.token == token
    && var params := call.params;
    && params.Keys == {"limit", "offset", "nameSearch", "companySearch"} + (if Truthy(p.date) then {"dateSearch"} else {})
    && "limit" in params && params["limit"] == Number(50)
    && "offset" in params && params["offset"] == Number(0)
    && "companySearch" in params && params["companySearch"] == Str(Strip(p.company.GetOr("")))
    && "nameSearch" in params && params["nameSearch"] == Str(Strip(p.name.GetOr("")))
    && (Truthy(p.date) ==> "dateSearch" in params && params["dateSearch"] == Str(p.date.value))
  }

  /** The search GET built from the normalised arguments is the one `chat` makes for them. */
  lemma NormalizedSearch(p: Parsed, token: string)
    ensures var q := Normalize(p);
      SearchesFor(Get(SearchPath, SearchParams(q.name, q.company, q.date), token), p, token)
  {
  }

  /**
    The first search GET follows the extraction call and `get_token`'s
    sign-in, if any, and is the one `chat` makes for the extracted arguments
    with `get_token`'s token.
  */
  lemma SearchQuery(c: Cache, question: string, env: Env)
    ensures var r, t := ChatRun(c, question, env), GetTokenStep(c, env.now, env.login);
      env.extraction.Arguments? && Strip(env.extraction.args.company.GetOr("")) != "" && t.result.Ok? ==>
        && |r.calls| > 1 + |t.calls|
        && SearchesFor(r.calls[1 + |t.calls|], env.extraction.args, t.result.value)
  {
    var t := GetTokenStep(c, env.now, env.login);
    if env.extraction.Arguments? && t.result.Ok? {
      var q := QueryOf(env.extraction);
      var l := Lookup(c, q, env);
      LookupFirstSearch(c, q, env);
      NormalizedSearch(env.extraction.args, t.result.value);
      AssembledTrace(c, question, env.extraction, q, l, RespondAfter(question, l, env));
    }
  }

  /**
    A search that meets a 401 with a fresh cached token signs in again and
    retries with the new token, which the cache keeps.
  */
  lemma RefreshedLookup(c: Cache, q: Query, env: Env)
    requires Fresh(c, env.now) && env.search.status == 401 && env.relogin.status == 200
    requires !IsErrorStatus(env.searchRetry.status)
    ensures var l := Lookup(c, q, env);
      && l.result == Ok((c.token.value, env.searchRetry.body.interviewees.GetOr([])))
      && l.cache.token == Some(env.relogin.accessToken)
      && |l.calls| == 3
  {
    var params := SearchParams(q.name, q.company, q.date);
    var g := ApiGetStep(c, env.now, SearchPath, c.token.value, params, env.search, env.relogin, env.searchRetry);
    assert g.result == Ok(env.searchRetry.body);
  }

  /**
    The detail GETs keep the token `get_token` returned even after the search
    refreshed the cache: with a fresh cached token, a 401 on the search and a
    new token from the sign-in, the first detail GET carries the old token
    while the cache already holds the new one.
  */
  lemma StaleTokenAfterRefresh(c: Cache, question: string, env: Env)
    requires Fresh(c, env.now)
    requires env.extraction.Arguments? && Normalize(env.extraction.args).company != ""
    requires env.search.status == 401 && env.relogin.status == 200 && env.relogin.accessToken != c.token.value
    requires !IsErrorStatus(env.searchRetry.status) && env.searchRetry.body.interviewees.GetOr([]) != []
    ensures var r, found := ChatRun(c, question, env), env.searchRetry.body.interviewees.value;
      && r.cache.token == Some(env.relogin.accessToken)
      && |r.calls| > 4
      && r.calls[4] == Get(DetailPath(found[0].id), map[], c.token.value)
      && r.calls[4].token != r.cache.token.value
  {
    var q := QueryOf(env.extraction);
    var l := Lookup(c, q, env);
    RefreshedLookup(c, q, env);
    var o := RespondAfter(question, l, env);
    assert o == Respond(question, c.token.value, env.searchRetry.body.interviewees.value, env);
    AssembledTrace(c, question, env.extraction, q, l, o);
  }
}
