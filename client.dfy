/**
 * The browser script (script.js): input validation and the request it sends, the rendering of result
 * cards, the type filter, and the page state that handleSearch and handleFilter update.
 */
module Client {
  import opened Values
  import opened Formatters
  import opened Query
  import opened YouTube
  import opened Reddit
  import opened Handlers

  /** A result object as the page reads it from the JSON payload; a field the object lacks is None. */
  datatype Item = Item(
    kind: Option<string>, title: string, description: Option<string>, url: string, source: Option<string>,
    duration: Option<string>, viewCount: Option<string>, channelTitle: Option<string>)

  /** A video as it arrives in the browser. */
  function VideoItem(v: Video): Item {
    Item(Some(v.kind), v.title, Some(v.description), v.url, Some(v.source),
      Some(v.duration), Some(v.viewCount), Some(v.channelTitle))
  }

  /** A forum post as it arrives in the browser: it has no duration, view count or channel. */
  function PostItem(p: Post): Item {
    Item(Some(p.kind), p.title, Some(p.description), p.url, Some(p.source), None, None, None)
  }

  function VideoItems(vs: seq<Video>): (r: seq<Item>)
    ensures |r| == |vs|
  {
    seq(|vs|, i requires 0 <= i < |vs| => VideoItem(vs[i]))
  }

  function PostItems(ps: seq<Post>): (r: seq<Item>)
    ensures |r| == |ps|
  {
    seq(|ps|, i requires 0 <= i < |ps| => PostItem(ps[i]))
  }

  // ----- handleSearch: validation and the request -----

  const SelectionError: string := "Please select both component type and brand"
  const FailurePrefix: string := "Search failed: "
  const HttpErrorPrefix: string := "HTTP error! status: "

  /**
   * The query parameters handleSearch sends for the two select values and the raw model input, or None when
   * a selection is empty. The model is trimmed and sent only when something is left.
   */
  function ClientRequest(componentType: string, brand: string, modelInput: string): (r: Option<QueryParams>)
    ensures r.None? <==> componentType == "" || brand == ""
    ensures r.Some? ==> r.value.componentType == Some(componentType) && r.value.brand == Some(brand)
    ensures r.Some? ==> (r.value.model.Some? <==> Trim(modelInput) != "")
    ensures r.Some? && r.value.model.Some? ==> r.value.model.value == Trim(modelInput)
  {
    if componentType == "" || brand == "" then None
    else
      var model := Trim(modelInput);
      Some(QueryParams(Some(componentType), Some(brand), if model != "" then Some(model) else None))
  }

  /**
   * Every request the page sends passes the server's validation, and the server searches for the brand,
   * the trimmed model when there is one, and the component type.
   */
  lemma ClientRequestAccepted(componentType: string, brand: string, modelInput: string)
    requires componentType != "" && brand != ""
    ensures var p := ClientRequest(componentType, brand, modelInput).value;
      && HasRequiredFields(p)
      && (Trim(modelInput) != "" ==>
            SearchQuery(p) == Some(brand + " " + Trim(modelInput) + " " + componentType + QuerySuffix))
      && (Trim(modelInput) == "" ==> SearchQuery(p) == Some(brand + " " + componentType + QuerySuffix))
  {
  }

  /** A whitespace-only model is the same as no model at all. */
  lemma BlankModelOmitted(componentType: string, brand: string, modelInput: string)
    requires forall k :: 0 <= k < |modelInput| ==> IsJsWhitespace(modelInput[k])
    ensures ClientRequest(componentType, brand, modelInput) == ClientRequest(componentType, brand, "")
  {
  }

  /** The awaited fetch: it threw (network failure, unreadable JSON) or it answered with a status and a payload. */
  datatype Reply = Threw(message: string) | Answered(status: nat, payload: Payload)

  /** The fields of the parsed payload the page reads. */
  datatype Payload = Payload(error: Option<string>, videos: seq<Item>, manuals: seq<Item>)

  /** Response.ok: a status in the range 200-299. */
  predicate Ok(status: nat) {
    200 <= status <= 299
  }

  /** How a search ends: the toast message of the catch block, or the combined result list. */
  datatype Settled = Failure(message: string) | Loaded(results: seq<Item>)

  /**
   * The try block of handleSearch: a non-ok status and an error field both become a thrown Error, and the
   * catch block shows "Search failed: " + its message; otherwise the videos come first, then the manuals.
   */
  function Settle(reply: Reply): (r: Settled)
    ensures r.Loaded? <==> reply.Answered? && Ok(reply.status) && !Truthy(reply.payload.error)
    ensures r.Loaded? ==> r.results == reply.payload.videos + reply.payload.manuals
    ensures r.Failure? ==> |r.message| >= |FailurePrefix| && r.message[..|FailurePrefix|] == FailurePrefix
    ensures reply.Answered? && !Ok(reply.status) ==>
      r == Failure(FailurePrefix + HttpErrorPrefix + DecimalString(reply.status))
  {
    match reply
    case Threw(message) => Failure(FailurePrefix + message)
    case Answered(status, payload) =>
      if !Ok(status) then Failure(FailurePrefix + HttpErrorPrefix + DecimalString(status))
      else if Truthy(payload.error) then Failure(FailurePrefix + payload.error.value)
      else Loaded(payload.videos + payload.manuals)
  }

  /**
   * The payload a server body parses into, as the page reads it. The page never receives NoBody: only the
   * OPTIONS preflight is answered without a body, and the page sends GET requests. (response.json() would
   * throw on an empty body.)
   */
  function PayloadOf(body: Body): Payload {
    match body
    case Results(videos, manuals, _, _) => Payload(None, VideoItems(videos), PostItems(manuals))
    case ErrorBody(error) => Payload(Some(error), [], [])
    case NoBody => Payload(None, [], [])
  }

  /**
   * A 400 from the server is reported by its status; the server's own error text never reaches the
   * toast, because the status check throws first.
   */
  lemma RejectionShowsStatus()
    ensures Settle(Answered(Rejected.status, PayloadOf(Rejected.body)))
      == Failure(FailurePrefix + HttpErrorPrefix + "400")
  {
    assert DecimalString(400) == DecimalString(40) + [DigitChar(0)];
    assert DecimalString(40) == DecimalString(4) + [DigitChar(0)];
  }

  /** A results body always loads, the videos before the manuals. */
  lemma ResultsPayloadLoads(body: Body)
    requires body.Results?
    ensures Settle(Answered(200, PayloadOf(body))) == Loaded(VideoItems(body.videos) + PostItems(body.manuals))
  {
  }

  // ----- createResultCard and getTypeIcon -----

  const VideoIcon: string := "\U{1F3A5}"
  const ForumIcon: string := "\U{1F4AC}"
  const DocumentIcon: string := "\U{1F4C4}"

  /** getTypeIcon: a camera for "video", a speech balloon for "forum", a page for anything else. */
  function TypeIcon(kind: Option<string>): (r: string)
    ensures r == VideoIcon <==> kind == Some("video")
    ensures r == ForumIcon <==> kind == Some("forum")
    ensures r == DocumentIcon <==> kind != Some("video") && kind != Some("forum")
  {
    if kind == Some("video") then VideoIcon else if kind == Some("forum") then ForumIcon else DocumentIcon
  }

  /** One line of the video-specific information block. */
  datatype Info = DurationInfo(duration: string) | ViewsInfo(viewCount: string) | ChannelInfo(channel: string)

  /** The content of one result card; the markup around it is not modelled. */
  datatype Card = Card(
    url: string, title: string, icon: string, kind: Option<string>, description: Option<string>,
    source: string, info: seq<Info>, linkLabel: string)

  /** A value the card shows: present, non-empty and not the server's "Unknown" sentinel. */
  predicate Known(o: Option<string>) {
    Truthy(o) && o.value != Unknown
  }

  /** The information block: only for videos, and only the known duration, view count and channel. */
  function VideoInfo(item: Item): seq<Info> {
    if item.kind != Some("video") then []
    else
      (if Known(item.duration) then [DurationInfo(item.duration.value)] else [])
      + (if Known(item.viewCount) then [ViewsInfo(item.viewCount.value)] else [])
      + (if Truthy(item.channelTitle) then [ChannelInfo(item.channelTitle.value)] else [])
  }

  /** x is a line the card may show for item: a known duration, a known view count or a non-empty channel. */
  predicate ShownFrom(x: Info, item: Item) {
    match x
    case DurationInfo(d) => Known(item.duration) && d == item.duration.value
    case ViewsInfo(n) => Known(item.viewCount) && n == item.viewCount.value
    case ChannelInfo(ch) => Truthy(item.channelTitle) && ch == item.channelTitle.value
  }

  lemma VideoInfoShown(item: Item)
    ensures item.kind == Some("video") && Known(item.duration) ==> DurationInfo(item.duration.value) in VideoInfo(item)
    ensures item.kind == Some("video") && Known(item.viewCount) ==> ViewsInfo(item.viewCount.value) in VideoInfo(item)
    ensures item.kind == Some("video") && Truthy(item.channelTitle) ==>
      ChannelInfo(item.channelTitle.value) in VideoInfo(item)
    ensures forall x :: x in VideoInfo(item) ==> ShownFrom(x, item)
  {
    if item.kind == Some("video") {
      var a := if Known(item.duration) then [DurationInfo(item.duration.value)] else [];
      var b := if Known(item.viewCount) then [ViewsInfo(item.viewCount.value)] else [];
      var ch := if Truthy(item.channelTitle) then [ChannelInfo(item.channelTitle.value)] else [];
      assert VideoInfo(item) == a + b + ch;
      assert forall x :: x in a ==> ShownFrom(x, item);
      assert forall x :: x in b ==> ShownFrom(x, item);
      assert forall x :: x in ch ==> ShownFrom(x, item);
    }
  }

  /**
   * createResultCard: the result's url, title and type with the icon of its type; the description only
   * when truthy; the source, "Unknown" when falsy; for a video the known duration, view count and channel
   * and a "Video" link, for anything else no extra information and a "Link" link.
   */
  function CardFor(item: Item): (c: Card)
    ensures c.url == item.url && c.title == item.title && c.kind == item.kind
    ensures c.icon == TypeIcon(item.kind)
    ensures c.description.Some? <==> Truthy(item.description)
    ensures c.description.Some? ==> c.description == item.description
    ensures Truthy(item.source) ==> c.source == item.source.value
    ensures !Truthy(item.source) ==> c.source == Unknown
    ensures item.kind != Some("video") ==> c.info == [] && c.linkLabel == "Link"
    ensures item.kind == Some("video") ==> c.linkLabel == "Video"
    ensures item.kind == Some("video") && Known(item.duration) ==> DurationInfo(item.duration.value) in c.info
    ensures item.kind == Some("video") && Known(item.viewCount) ==> ViewsInfo(item.viewCount.value) in c.info
    ensures item.kind == Some("video") && Truthy(item.channelTitle) ==> ChannelInfo(item.channelTitle.value) in c.info
    ensures forall x :: x in c.info ==> ShownFrom(x, item)
  {
    VideoInfoShown(item);
    Card(
      item.url, item.title, TypeIcon(item.kind), item.kind,
      if Truthy(item.description) then item.description else None,
      if Truthy(item.source) then item.source.value else Unknown,
      VideoInfo(item),
      if item.kind == Some("video") then "Video" else "Link")
  }

  /**
   * A video card shows its duration and its view count exactly when they are known, its channel exactly
   * when it is non-empty, never anything else, and links as "Video".
   */
  lemma VideoCard(v: Video)
    requires v.kind == "video" && v.source == "YouTube"
    ensures var c := CardFor(VideoItem(v));
      && (DurationInfo(v.duration) in c.info <==> v.duration != "" && v.duration != Unknown)
      && (ViewsInfo(v.viewCount) in c.info <==> v.viewCount != "" && v.viewCount != Unknown)
      && (ChannelInfo(v.channelTitle) in c.info <==> v.channelTitle != "")
      && (forall x :: x in c.info ==> x == DurationInfo(v.duration) || x == ViewsInfo(v.viewCount) || x == ChannelInfo(v.channelTitle))
      && c.icon == VideoIcon && c.linkLabel == "Video" && c.url == v.url && c.source == "YouTube"
  {
  }

  /** A forum card shows no video information, always its description, a speech balloon, and links as "Link". */
  lemma ForumCard(p: Post, raw: RawPost, localeDate: int -> string)
    requires p == ToPost(raw, localeDate)
    ensures var c := CardFor(PostItem(p));
      && c.info == [] && c.icon == ForumIcon && c.linkLabel == "Link"
      && c.description == Some(p.description) && c.source == "Reddit" && c.url == p.url
  {
  }

  /** The grid of results: blank before the first search, a "No results found" notice, or the cards in order. */
  datatype View = Blank | NoResults | Cards(cards: seq<Card>)

  /** What displayResults puts in the grid for a list of results. */
  function ResultsView(results: seq<Item>): (v: View)
    ensures v.NoResults? <==> results == []
    ensures results != [] ==> v.Cards?
    ensures v.Cards? ==> |v.cards| == |results| && forall i :: 0 <= i < |results| ==> v.cards[i].url == results[i].url
  {
    if results == [] then NoResults else Cards(seq(|results|, i requires 0 <= i < |results| => CardFor(results[i])))
  }

  /** displayResults: the notice for an empty list, otherwise one card per result, built in a loop. */
  method DisplayResults(results: seq<Item>) returns (view: View)
    ensures view.NoResults? <==> results == []
    ensures results != [] ==> view.Cards?
    ensures view.Cards? ==> |view.cards| == |results| && forall i :: 0 <= i < |results| ==> view.cards[i] == CardFor(results[i])
    ensures view == ResultsView(results)
  {
    if |results| == 0 {
      return NoResults;
    }
    var cards: seq<Card> := [];
    for i := 0 to |results|
      invariant |cards| == i
      invariant forall k :: 0 <= k < i ==> cards[k] == CardFor(results[k])
    {
      cards := cards + [CardFor(results[i])];
    }
    view := Cards(cards);
  }

  // ----- handleFilter -----

  /** The results whose type is `filter`, in their original order. */
  function Filtered(items: seq<Item>, filter: string): (r: seq<Item>)
    ensures |r| <= |items|
  {
    if items == [] then []
    else
      var last := items[|items| - 1];
      Filtered(items[..|items| - 1], filter) + (if last.kind == Some(filter) then [last] else [])
  }

  /** What handleFilter displays: everything for "all", otherwise the results of that type. */
  function FilterResults(items: seq<Item>, filter: string): seq<Item> {
    if filter == "all" then items else Filtered(items, filter)
  }

  lemma FilteredSnoc(items: seq<Item>, i: nat, filter: string)
    requires i < |items|
    ensures Filtered(items[..i + 1], filter)
      == Filtered(items[..i], filter) + (if items[i].kind == Some(filter) then [items[i]] else [])
  {
    assert items[..i + 1][..i] == items[..i];
  }

  /** A filtered list holds exactly the results of that type. */
  lemma {:induction false} FilteredMembers(items: seq<Item>, filter: string)
    ensures forall x :: x in Filtered(items, filter) <==> x in items && x.kind == Some(filter)
  {
    if items != [] {
      var init := items[..|items| - 1];
      FilteredMembers(init, filter);
      assert items == init + [items[|items| - 1]];
    }
  }

  /** Filtering distributes over concatenation. */
  lemma {:induction false} FilteredAppend(a: seq<Item>, b: seq<Item>, filter: string)
    ensures Filtered(a + b, filter) == Filtered(a, filter) + Filtered(b, filter)
  {
    if b == [] {
      assert a + b == a;
    } else {
      assert (a + b)[..|a + b| - 1] == a + b[..|b| - 1];
      FilteredAppend(a, b[..|b| - 1], filter);
    }
  }

  /** Filtering a list whose results all have the type keeps it whole. */
  lemma {:induction false} FilteredAll(items: seq<Item>, filter: string)
    requires forall i :: 0 <= i < |items| ==> items[i].kind == Some(filter)
    ensures Filtered(items, filter) == items
  {
    if items != [] {
      FilteredAll(items[..|items| - 1], filter);
    }
  }

  /** Filtering a list without any result of the type leaves nothing. */
  lemma {:induction false} FilteredNone(items: seq<Item>, filter: string)
    requires forall i :: 0 <= i < |items| ==> items[i].kind != Some(filter)
    ensures Filtered(items, filter) == []
  {
    if items != [] {
      FilteredNone(items[..|items| - 1], filter);
    }
  }

  /** Choosing the same filter twice shows the same results as choosing it once. */
  lemma {:induction false} FilterIdempotent(items: seq<Item>, filter: string)
    ensures FilterResults(FilterResults(items, filter), filter) == FilterResults(items, filter)
  {
    if filter != "all" {
      var r := Filtered(items, filter);
      FilteredMembers(items, filter);
      forall i | 0 <= i < |r| ensures r[i].kind == Some(filter) {
        assert r[i] in r;
      }
      FilteredAll(r, filter);
    }
  }

  /**
   * On the list a search stores (the videos, then the manuals), the "video" filter shows exactly the videos
   * and the "forum" filter exactly the manuals, each in server order.
   */
  lemma FilterSeparatesResults(videos: seq<Video>, manuals: seq<Post>)
    requires forall v :: v in videos ==> v.kind == "video"
    requires forall p :: p in manuals ==> p.kind == "forum"
    ensures FilterResults(VideoItems(videos) + PostItems(manuals), "video") == VideoItems(videos)
    ensures FilterResults(VideoItems(videos) + PostItems(manuals), "forum") == PostItems(manuals)
  {
    var vs, ps := VideoItems(videos), PostItems(manuals);
    forall i | 0 <= i < |vs| ensures vs[i].kind == Some("video") && vs[i].kind != Some("forum") {
      assert videos[i] in videos;
    }
    forall i | 0 <= i < |ps| ensures ps[i].kind == Some("forum") && ps[i].kind != Some("video") {
      assert manuals[i] in manuals;
    }
    FilteredAppend(vs, ps, "video");
    FilteredAll(vs, "video");
    FilteredNone(ps, "video");
    FilteredAppend(vs, ps, "forum");
    FilteredNone(vs, "forum");
    FilteredAll(ps, "forum");
  }

  /**
   * End to end through the search.js handler: whatever the upstream services answer, the page's "video"
   * filter shows the videos of the response and its "forum" filter the manuals.
   */
  lemma FunctionResultsSeparate(event: Event, env: Env, upstream: Upstream, timestamp: string, localeDate: int -> string)
    requires |upstream.reddit| == |Subreddits|
    requires FunctionOutcome(event, env, upstream, timestamp, localeDate).response.body.Results?
    ensures var body := FunctionOutcome(event, env, upstream, timestamp, localeDate).response.body;
      var loaded := Settle(Answered(200, PayloadOf(body)));
      && loaded == Loaded(VideoItems(body.videos) + PostItems(body.manuals))
      && FilterResults(loaded.results, "video") == VideoItems(body.videos)
      && FilterResults(loaded.results, "forum") == PostItems(body.manuals)
  {
    var body := FunctionOutcome(event, env, upstream, timestamp, localeDate).response.body;
    var query := SearchQuery(ParamsOf(event)).value;
    VideoResultsAreVideos(env.youtubeApiKey, query, upstream.youtubeSearch, upstream.youtubeVideos);
    RankedPostsAreForum(env.redditClientId, upstream.reddit, localeDate);
    FilterSeparatesResults(body.videos, body.manuals);
    ResultsPayloadLoads(body);
  }

  // ----- the page state -----

  /** The page: the global variables of the script and the parts of the document its handlers change. */
  class Page {
    var allResults: seq<Item>
    var currentFilter: string
    /** The content of the results grid. */
    var grid: View
    /** The error toast on display, if any. */
    var error: Option<string>
    /** The search button is disabled and the loading section shown. */
    var loading: bool
    /** The results section is shown. */
    var resultsShown: bool

    constructor()
      ensures allResults == [] && currentFilter == "all" && grid == Blank
      ensures error == None && !loading && !resultsShown
    {
      allResults := [];
      currentFilter := "all";
      grid := Blank;
      error := None;
      loading := false;
      resultsShown := false;
    }

    /**
     * handleFilter: remembers the filter and displays the stored results of that type ("all": every one);
     * the stored results themselves are kept.
     */
    method HandleFilter(filter: string)
      modifies this
      ensures currentFilter == filter
      ensures grid == ResultsView(FilterResults(old(allResults), filter))
      ensures allResults == old(allResults)
      ensures error == old(error) && loading == old(loading) && resultsShown == old(resultsShown)
    {
      currentFilter := filter;
      var results := allResults;
      var filtered: seq<Item> := [];
      if filter == "all" {
        filtered := results;
      } else {
        for i := 0 to |results|
          invariant filtered == Filtered(results[..i], filter)
          modifies {}
        {
          FilteredSnoc(results, i, filter);
          if results[i].kind == Some(filter) {
            filtered := filtered + [results[i]];
          }
        }
        assert results[..|results|] == results;
      }
      grid := DisplayResults(filtered);
    }

    /**
     * handleSearch for the two selections, the raw model input and the awaited reply. Without both
     * selections it only shows the selection error and sends nothing. Otherwise it sends the request and,
     * on success, stores and displays all results (whatever filter was chosen before) and shows the results
     * section; on failure it keeps the old results, leaves the results section hidden and shows the error.
     * Either way the loading state ends.
     */
    method HandleSearch(componentType: string, brand: string, modelInput: string, reply: Reply)
      returns (request: Option<QueryParams>)
      modifies this
      ensures request == ClientRequest(componentType, brand, modelInput)
      ensures currentFilter == old(currentFilter)
      ensures request.None? ==>
        && error == Some(SelectionError)
        && allResults == old(allResults) && grid == old(grid)
        && loading == old(loading) && resultsShown == old(resultsShown)
      ensures request.Some? && Settle(reply).Loaded? ==>
        && allResults == Settle(reply).results && grid == ResultsView(allResults)
        && error == None && resultsShown && !loading
      ensures request.Some? && Settle(reply).Failure? ==>
        && error == Some(Settle(reply).message)
        && allResults == old(allResults) && grid == old(grid)
        && !resultsShown && !loading
    {
      request := ClientRequest(componentType, brand, modelInput);
      if request.None? {
        error := Some(SelectionError);
        return;
      }
      loading := true;
      resultsShown := false;
      error := None;
      match reply {
        case Threw(message) =>
          assert Settle(reply) == Failure(FailurePrefix + message);
          error := Some(FailurePrefix + message);
        case Answered(status, payload) =>
          if !Ok(status) {
            assert Settle(reply) == Failure(FailurePrefix + HttpErrorPrefix + DecimalString(status));
            error := Some(FailurePrefix + HttpErrorPrefix + DecimalString(status));
          } else if Truthy(payload.error) {
            assert Settle(reply) == Failure(FailurePrefix + payload.error.value);
            error := Some(FailurePrefix + payload.error.value);
          } else {
            assert Settle(reply) == Loaded(payload.videos + payload.manuals);
            allResults := payload.videos + payload.manuals;
            grid := DisplayResults(allResults);
            resultsShown := true;
          }
      }
      loading := false;
    }
  }
}
