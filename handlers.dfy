/**
 * The two server entry points: the Netlify function handler of search.js and the GET /api/search route of
 * api.js. Both validate the query parameters, build the search string, ask the video adapter and then the
 * forum adapter, and answer with the combined results.
 */
module Handlers {
  import opened Values
  import opened Query
  import opened YouTube
  import opened Reddit

  /** The configuration read from the environment. */
  datatype Env = Env(youtubeApiKey: Option<string>, redditClientId: Option<string>)

  /** What the upstream services answer to the calls made while serving one request. */
  datatype Upstream = Upstream(
    youtubeSearch: SearchResponse, youtubeVideos: DetailResponse, reddit: seq<SubredditOutcome>)

  /** A JSON body: empty (the preflight answer), an error object, or the combined search results. */
  datatype Body =
    | NoBody
    | ErrorBody(error: string)
    | Results(videos: seq<Video>, manuals: seq<Post>, query: string, timestamp: string)

  datatype Response = Response(status: int, body: Body)

  /** A response together with the outbound calls made while computing it, in order. */
  datatype Outcome = Outcome(response: Response, calls: seq<Call>)

  /** A Netlify function event; queryStringParameters may be null. */
  datatype Event = Event(httpMethod: string, queryStringParameters: Option<QueryParams>)

  const PreflightMethod: string := "OPTIONS"

  /** A null parameter object reads like an empty one: every field absent. */
  function ParamsOf(event: Event): (p: QueryParams)
    ensures event.queryStringParameters.None? ==> !HasRequiredFields(p)
  {
    if event.queryStringParameters.Some? then event.queryStringParameters.value else QueryParams(None, None, None)
  }

  /** The 400 answer to a request without a truthy componentType and brand. */
  const Rejected: Response := Response(400, ErrorBody(RequiredFieldsError))

  /** The 200 answer: the videos, then the manuals, then the query and the time of the answer. */
  function Answer(query: string, videos: Traced<Video>, manuals: seq<Post>, forumCalls: seq<Call>, timestamp: string)
    : Outcome
  {
    Outcome(Response(200, Results(videos.results, manuals, query, timestamp)), videos.calls + forumCalls)
  }

  // ----- search.js -----

  /**
   * The search.js handler. A preflight request is answered 200 with an empty body and no outbound call; a
   * request without both required fields is answered 400 with no outbound call; any other request is
   * answered 200. The catch-all 500 branch cannot be reached: both adapters catch every failure themselves.
   */
  function FunctionOutcome(event: Event, env: Env, upstream: Upstream, timestamp: string, localeDate: int -> string)
    : (r: Outcome)
    requires |upstream.reddit| == |Subreddits|
    ensures r.response.status == 200 || r.response.status == 400
    ensures event.httpMethod == PreflightMethod ==> r == Outcome(Response(200, NoBody), [])
    ensures r.response.status == 400 <==> event.httpMethod != PreflightMethod && !HasRequiredFields(ParamsOf(event))
    ensures r.response.status == 400 ==> r.response == Rejected && r.calls == []
    ensures event.httpMethod != PreflightMethod && HasRequiredFields(ParamsOf(event)) ==> r.response.body.Results?
    ensures r.response.body.Results? ==>
      && HasRequiredFields(ParamsOf(event))
      && r.response.body.query == SearchQuery(ParamsOf(event)).value
      && r.response.body.videos
         == SearchYouTube(env.youtubeApiKey, r.response.body.query, upstream.youtubeSearch, upstream.youtubeVideos).results
      && r.calls
         == SearchYouTube(env.youtubeApiKey, r.response.body.query, upstream.youtubeSearch, upstream.youtubeVideos).calls
            + RedditCalls(r.response.body.query, |Subreddits|)
      && |r.calls| >= |Subreddits|
      && r.calls[|r.calls| - |Subreddits|..] == RedditCalls(r.response.body.query, |Subreddits|)
      && r.response.body.manuals == IsolatedRanking(upstream.reddit, localeDate)
      && r.response.body.timestamp == timestamp
  {
    if event.httpMethod == PreflightMethod then Outcome(Response(200, NoBody), [])
    else
      match SearchQuery(ParamsOf(event))
      case None => Outcome(Rejected, [])
      case Some(query) =>
        var videos := SearchYouTube(env.youtubeApiKey, query, upstream.youtubeSearch, upstream.youtubeVideos);
        var forumCalls := RedditCalls(query, |Subreddits|);
        assert (videos.calls + forumCalls)[|videos.calls|..] == forumCalls;
        Answer(query, videos, IsolatedRanking(upstream.reddit, localeDate), forumCalls, timestamp)
  }

  /** The search.js handler, awaiting the two adapters one after the other. */
  method HandleFunction(event: Event, env: Env, upstream: Upstream, timestamp: string, localeDate: int -> string)
    returns (response: Response, calls: seq<Call>)
    requires |upstream.reddit| == |Subreddits|
    ensures Outcome(response, calls) == FunctionOutcome(event, env, upstream, timestamp, localeDate)
  {
    if event.httpMethod == PreflightMethod {
      return Response(200, NoBody), [];
    }
    var params := ParamsOf(event);
    if !Truthy(params.componentType) || !Truthy(params.brand) {
      return Rejected, [];
    }
    var query := SearchQuery(params).value;
    var videos := SearchYouTube(env.youtubeApiKey, query, upstream.youtubeSearch, upstream.youtubeVideos);
    var manuals, forumCalls := SearchRedditIsolated(query, upstream.reddit, localeDate);
    response := Response(200, Results(videos.results, manuals, query, timestamp));
    calls := videos.calls + forumCalls;
  }

  // ----- api.js -----

  /**
   * The GET /api/search route of api.js: 400 without both required fields and no outbound call, otherwise
   * 200. Its forum adapter gives up on the first throwing subreddit and stays silent without a client id.
   * The catch-all 500 branch cannot be reached here either.
   */
  function RouteOutcome(params: QueryParams, env: Env, upstream: Upstream, timestamp: string, localeDate: int -> string)
    : (r: Outcome)
    requires |upstream.reddit| == |Subreddits|
    ensures r.response.status == 200 || r.response.status == 400
    ensures r.response.status == 400 <==> !HasRequiredFields(params)
    ensures r.response.status == 400 ==> r.response == Rejected && r.calls == []
    ensures r.response.status == 200 ==>
      var query := SearchQuery(params).value;
      var videos := SearchYouTube(env.youtubeApiKey, query, upstream.youtubeSearch, upstream.youtubeVideos);
      && r.response.body.Results?
      && r.response.body.query == query
      && r.response.body.videos == videos.results
      && r.response.body.manuals == AllOrNothingRanking(env.redditClientId, upstream.reddit, localeDate)
      && r.calls == videos.calls + AllOrNothingCalls(env.redditClientId, query, upstream.reddit)
      && r.response.body.timestamp == timestamp
  {
    match SearchQuery(params)
    case None => Outcome(Rejected, [])
    case Some(query) =>
      var videos := SearchYouTube(env.youtubeApiKey, query, upstream.youtubeSearch, upstream.youtubeVideos);
      Answer(query, videos, AllOrNothingRanking(env.redditClientId, upstream.reddit, localeDate),
        AllOrNothingCalls(env.redditClientId, query, upstream.reddit), timestamp)
  }

  /** The api.js route handler. */
  method HandleRoute(params: QueryParams, env: Env, upstream: Upstream, timestamp: string, localeDate: int -> string)
    returns (response: Response, calls: seq<Call>)
    requires |upstream.reddit| == |Subreddits|
    ensures Outcome(response, calls) == RouteOutcome(params, env, upstream, timestamp, localeDate)
  {
    if !Truthy(params.componentType) || !Truthy(params.brand) {
      return Rejected, [];
    }
    var query := SearchQuery(params).value;
    var videos := SearchYouTube(env.youtubeApiKey, query, upstream.youtubeSearch, upstream.youtubeVideos);
    var manuals, forumCalls := SearchRedditAllOrNothing(env.redditClientId, query, upstream.reddit, localeDate);
    response := Response(200, Results(videos.results, manuals, query, timestamp));
    calls := videos.calls + forumCalls;
  }

  // ----- properties of the handlers -----

  /** A call list that ends with the calls of the whole loop contains a search of every subreddit. */
  lemma EndsWithEverySubreddit(calls: seq<Call>, query: string)
    requires |calls| >= |Subreddits| && calls[|calls| - |Subreddits|..] == RedditCalls(query, |Subreddits|)
    ensures forall s :: s in Subreddits ==> RedditSearch(s, query) in calls
  {
    var tail := calls[|calls| - |Subreddits|..];
    forall s | s in Subreddits ensures RedditSearch(s, query) in calls {
      var i :| 0 <= i < |Subreddits| && Subreddits[i] == s;
      assert tail[i] == RedditSearch(s, query);
      assert calls[|calls| - |Subreddits| + i] == tail[i];
    }
  }

  /** search.js asks every subreddit of the list once the request is accepted. */
  lemma FunctionAsksEverySubreddit(
    event: Event, env: Env, upstream: Upstream, timestamp: string, localeDate: int -> string)
    requires |upstream.reddit| == |Subreddits|
    requires event.httpMethod != PreflightMethod && HasRequiredFields(ParamsOf(event))
    ensures var r := FunctionOutcome(event, env, upstream, timestamp, localeDate);
      forall s :: s in Subreddits ==> RedditSearch(s, SearchQuery(ParamsOf(event)).value) in r.calls
  {
    var r := FunctionOutcome(event, env, upstream, timestamp, localeDate);
    EndsWithEverySubreddit(r.calls, SearchQuery(ParamsOf(event)).value);
  }

  /** Without a YouTube key search.js makes no YouTube call and returns no video; the forum search still runs. */
  lemma FunctionWithoutYouTubeKey(event: Event, env: Env, upstream: Upstream, timestamp: string, localeDate: int -> string)
    requires |upstream.reddit| == |Subreddits|
    requires event.httpMethod != PreflightMethod && HasRequiredFields(ParamsOf(event))
    requires !Truthy(env.youtubeApiKey)
    ensures var r := FunctionOutcome(event, env, upstream, timestamp, localeDate);
      && r.response.body.Results? && r.response.body.videos == []
      && r.calls == RedditCalls(SearchQuery(ParamsOf(event)).value, |Subreddits|)
  {
  }

  /** Both handlers reject the same requests, with the same error and without calling anything. */
  lemma HandlersRejectAlike(
    verb: string, params: QueryParams, env: Env, upstream: Upstream, timestamp: string, localeDate: int -> string)
    requires |upstream.reddit| == |Subreddits|
    requires verb != PreflightMethod && !HasRequiredFields(params)
    ensures FunctionOutcome(Event(verb, Some(params)), env, upstream, timestamp, localeDate)
      == RouteOutcome(params, env, upstream, timestamp, localeDate)
      == Outcome(Rejected, [])
  {
  }

  /**
   * With a Reddit client id configured and no subreddit request throwing, the two handlers give the same
   * response and make the same calls.
   */
  lemma HandlersAgreeWithoutFailure(
    verb: string, params: QueryParams, env: Env, upstream: Upstream, timestamp: string, localeDate: int -> string)
    requires |upstream.reddit| == |Subreddits|
    requires verb != PreflightMethod && Truthy(env.redditClientId)
    requires forall j :: 0 <= j < |upstream.reddit| ==> !upstream.reddit[j].Failed?
    ensures FunctionOutcome(Event(verb, Some(params)), env, upstream, timestamp, localeDate)
      == RouteOutcome(params, env, upstream, timestamp, localeDate)
  {
    VariantsAgreeWithoutFailure(env.redditClientId, upstream.reddit, localeDate);
    FirstFailureAt(upstream.reddit, |upstream.reddit|);
  }

  /**
   * In api.js the first throwing subreddit request ends the forum search: no manual is returned, and the
   * subreddits after it are never asked.
   */
  lemma RouteStopsAtFirstFailure(
    params: QueryParams, env: Env, upstream: Upstream, timestamp: string, localeDate: int -> string, i: nat)
    requires |upstream.reddit| == |Subreddits|
    requires HasRequiredFields(params) && Truthy(env.redditClientId)
    requires i < |upstream.reddit| && upstream.reddit[i].Failed?
    requires forall j :: 0 <= j < i ==> !upstream.reddit[j].Failed?
    ensures var r := RouteOutcome(params, env, upstream, timestamp, localeDate);
      var videos := SearchYouTube(env.youtubeApiKey, SearchQuery(params).value, upstream.youtubeSearch, upstream.youtubeVideos);
      && r.response.body.manuals == []
      && r.calls == videos.calls + RedditCalls(SearchQuery(params).value, i + 1)
  {
    FirstFailureAt(upstream.reddit, i);
  }
}
