/**
  The backend helpers: the authorised GET with its single refresh-and-retry,
  the interviewee search, and the detail fetch that swallows its errors.
*/
module Api {
  import opened Wrappers
  import opened Http
  import opened Session

  const SearchPath := "/interview/interviewees"

  /** The detail endpoint of one interviewee. */
  function DetailPath(id: string): string {
    SearchPath + "/" + id
  }

  datatype Candidate = Candidate(id: string, name: string, companyName: Option<string>, updatedAt: string)

  /** The search body; `interviewees` is `None` when the key is missing or null. */
  datatype SearchBody = SearchBody(interviewees: Option<seq<Candidate>>)

  /** A log entry; `summary` is `None` when missing or null. */
  datatype LogEntry = LogEntry(summary: Option<string>)

  /** An interviewee's detail; `logs` is `None` when missing or null. */
  datatype Detail = Detail(logs: Option<seq<LogEntry>>)

  /** The detail endpoint's answer; `body` is `None` when it is not JSON or is JSON `null`. */
  datatype DetailReply = DetailReply(status: int, body: Option<Detail>)

  /** `raise_for_status()` followed by `.json()`. */
  function Checked<T>(resp: Response<T>): (r: Result<T, Failure>)
    ensures r.Err? <==> IsErrorStatus(resp.status)
    ensures r.Ok? ==> r.value == resp.body
    ensures r.Err? ==> r.error == Upstream(resp.status)
  {
    if IsErrorStatus(resp.status) then Err(Upstream(resp.status)) else Ok(resp.body)
  }

  /**
    `api_get`: one GET; on a 401 exactly one sign-in and, if it succeeds, one
    GET more with the new token, whose status is then checked as it is.
    `first` is the answer to the first GET, `retry` that to the repeated one.
  */
  function ApiGetStep<T(==)>(c: Cache, now: int, path: string, token: string, params: map<string, Param>,
                             first: Response<T>, login: LoginReply, retry: Response<T>): (s: Step<T>)
    ensures 1 <= |s.calls| <= 3 && s.calls[0] == Get(path, params, token)
    ensures multiset(s.calls)[SignIn] == if first.status == 401 then 1 else 0
    ensures first.status != 401 ==> s.calls == [Get(path, params, token)] && s.cache == c && s.result == Checked(first)
    ensures first.status == 401 ==> s.cache == Login(c, now, login).cache
    ensures first.status == 401 && login.status != 200 ==>
      s.calls == [Get(path, params, token), SignIn] && s.result == Err(Raised(500, LoginFailed))
    ensures first.status == 401 && login.status == 200 ==>
      && s.calls == [Get(path, params, token), SignIn, Get(path, params, login.accessToken)]
      && s.result == Checked(retry)
  {
    var sent := [Get(path, params, token)];
    if first.status != 401 then Step(Checked(first), c, sent)
    else
      var refreshed := Login(c, now, login);
      match refreshed.result
      case Err(e) => Step(Err(e), refreshed.cache, sent + refreshed.calls)
      case Ok(renewed) =>
        Step(Checked(retry), refreshed.cache, sent + refreshed.calls + [Get(path, params, renewed)])
  }

  /** A 401 on the repeated GET is raised as it is: no second sign-in, no third GET. */
  lemma NoSecondRefresh<T>(c: Cache, now: int, path: string, token: string, params: map<string, Param>,
                               first: Response<T>, login: LoginReply, retry: Response<T>)
    requires first.status == 401 && login.status == 200 && retry.status == 401
    ensures var s := ApiGetStep(c, now, path, token, params, first, login, retry);
      s.result == Err(Upstream(401)) && multiset(s.calls)[SignIn] == 1 && |s.calls| == 3
  {
  }

  /** `api_get` on the token cache object. */
  method ApiGet<T(==)>(cache: TokenCache, now: int, path: string, token: string, params: map<string, Param>,
                       first: Response<T>, login: LoginReply, retry: Response<T>)
    returns (r: Result<T, Failure>, calls: seq<Call>)
    requires cache.Valid()
    modifies cache
    ensures cache.Valid()
    ensures Step(r, cache.State(), calls) == ApiGetStep(old(cache.State()), now, path, token, params, first, login, retry)
  {
    var resp := first;
    calls := [Get(path, params, token)];
    if resp.status == 401 {
      // stale token: refresh once
      var renewed := cache.Refresh(now, login);
      calls := calls + [SignIn];
      if renewed.Err? {
        return Err(renewed.error), calls;
      }
      resp := retry;
      calls := calls + [Get(path, params, renewed.value)];
    }
    if IsErrorStatus(resp.status) {
      return Err(Upstream(resp.status)), calls;
    }
    r := Ok(resp.body);
  }

  /** Python truthiness of an optional string. */
  predicate Truthy(v: Option<string>) {
    v.Some? && v.value != ""
  }

  /** The search query: always the first page of 50 by name and company, by date only when one is given. */
  function SearchParams(name: string, company: string, date: Option<string>): (p: map<string, Param>)
    ensures p.Keys == {"limit", "offset", "nameSearch", "companySearch"} + (if Truthy(date) then {"dateSearch"} else {})
    ensures p["limit"] == Number(50) && p["offset"] == Number(0)
    ensures p["nameSearch"] == Str(name) && p["companySearch"] == Str(company)
    ensures "dateSearch" in p ==> p["dateSearch"] == Str(date.value)
  {
    var base := map["limit" := Number(50), "offset" := Number(0), "nameSearch" := Str(name), "companySearch" := Str(company)];
    if Truthy(date) then base["dateSearch" := Str(date.value)] else base
  }

  /** `search_interviewees`: the list under `interviewees`, empty when the key is missing. */
  function SearchStep(c: Cache, now: int, token: string, name: string, company: string, date: Option<string>,
                      first: Response<SearchBody>, login: LoginReply, retry: Response<SearchBody>): (s: Step<seq<Candidate>>)
  {
    var got := ApiGetStep(c, now, SearchPath, token, SearchParams(name, company, date), first, login, retry);
    match got.result
    case Err(e) => Step(Err(e), got.cache, got.calls)
    case Ok(body) => Step(Ok(body.interviewees.GetOr([])), got.cache, got.calls)
  }

  /** Every GET of a search is to the search endpoint with the same query. */
  lemma SearchOnlyGetsSearch(c: Cache, now: int, token: string, name: string, company: string, date: Option<string>,
                             first: Response<SearchBody>, login: LoginReply, retry: Response<SearchBody>)
    ensures var s := SearchStep(c, now, token, name, company, date, first, login, retry);
      forall call :: call in s.calls ==>
        call == SignIn || (call.Get? && call.path == SearchPath && call.params == SearchParams(name, company, date))
  {
    var params := SearchParams(name, company, date);
    var g := ApiGetStep(c, now, SearchPath, token, params, first, login, retry);
    assert SearchStep(c, now, token, name, company, date, first, login, retry).calls == g.calls;
    if first.status != 401 {
      assert g.calls == [Get(SearchPath, params, token)];
    } else if login.status != 200 {
      assert g.calls == [Get(SearchPath, params, token), SignIn];
    } else {
      assert g.calls == [Get(SearchPath, params, token), SignIn, Get(SearchPath, params, login.accessToken)];
    }
  }

  /** `search_interviewees` on the token cache object; the query is built entry by entry. */
  method SearchInterviewees(cache: TokenCache, now: int, token: string, name: string, company: string, date: Option<string>,
                            first: Response<SearchBody>, login: LoginReply, retry: Response<SearchBody>)
    returns (r: Result<seq<Candidate>, Failure>, calls: seq<Call>)
    requires cache.Valid()
    modifies cache
    ensures cache.Valid()
    ensures Step(r, cache.State(), calls) == SearchStep(old(cache.State()), now, token, name, company, date, first, login, retry)
  {
    var params := map["limit" := Number(50), "offset" := Number(0), "nameSearch" := Str(name), "companySearch" := Str(company)];
    if date.Some? && date.value != "" {
      params := params["dateSearch" := Str(date.value)];
    }
    assert params == SearchParams(name, company, date);
    var data;
    data, calls := ApiGet(cache, now, SearchPath, token, params, first, login, retry);
    if data.Err? {
      return Err(data.error), calls;
    }
    r := Ok(data.value.interviewees.GetOr([]));
  }

  /**
    `fetch_interview_detail`: a plain GET with no refresh; any error status, a
    body that is not JSON, or a JSON `null` yields `None`, so a 401 here is not
    retried.
  */
  function FetchDetail(reply: DetailReply): (d: Option<Detail>)
    ensures d.None? <==> IsErrorStatus(reply.status) || reply.body.None?
    ensures d.Some? ==> d == reply.body
  {
    if IsErrorStatus(reply.status) then None else reply.body
  }
}
