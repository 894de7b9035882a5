/**
 * The video adapter (searchYouTube and getYouTubeVideoDetails, identical in api.js and search.js):
 * one search call, one batched detail call, and a positional merge of the two responses.
 */
module YouTube {
  import opened Values
  import opened Formatters

  const WatchUrlPrefix: string := "https://www.youtube.com/watch?v="

  /** snippet.thumbnails: the url of the medium and of the default thumbnail, None when that object is absent. */
  datatype Thumbnails = Thumbnails(medium: Option<string>, standard: Option<string>)

  /** One item of the search response (id.videoId and the snippet fields the adapter reads). */
  datatype SearchItem = SearchItem(
    videoId: string, title: string, description: string, thumbnails: Thumbnails,
    channelTitle: string, publishedAt: string)

  /** One item of the detail response: contentDetails.duration and statistics.viewCount, None when absent. */
  datatype DetailItem = DetailItem(duration: Option<string>, viewCount: Option<string>)

  /** One formatted detail record. */
  datatype VideoDetails = VideoDetails(duration: string, viewCount: string)

  /** A video result; `kind` is the JSON field `type`. */
  datatype Video = Video(
    id: string, title: string, description: string, thumbnail: string, channelTitle: string,
    publishedAt: string, url: string, kind: string, source: string, duration: string, viewCount: string)

  /** The awaited search call: it threw, or its `items` field (None when the payload has none). */
  type SearchResponse = Fetch<Option<seq<SearchItem>>>

  /** The awaited detail call: it threw, or its `items` field (None when the payload has none). */
  type DetailResponse = Fetch<Option<seq<DetailItem>>>

  function VideoIds(items: seq<SearchItem>): (ids: seq<string>)
    ensures |ids| == |items|
  {
    seq(|items|, i requires 0 <= i < |items| => items[i].videoId)
  }

  // ----- getYouTubeVideoDetails -----

  /** The mapping of one detail item; None when formatDuration throws on it (missing or without "PT"). */
  function DetailsOf(item: DetailItem): (r: Option<VideoDetails>)
    ensures r.Some? <==> item.duration.Some? && DurationText(item.duration.value).Some?
    ensures r.Some? ==> r.value.duration == DurationText(item.duration.value).value
    ensures r.Some? ==> r.value.viewCount == FormatNumber(item.viewCount)
  {
    if item.duration.None? then None
    else match DurationText(item.duration.value)
      case None => None
      case Some(d) => Some(VideoDetails(d, FormatNumber(item.viewCount)))
  }

  /** The catch branch: one all-"Unknown" record per requested id. */
  function FallbackDetails(n: nat): (r: seq<VideoDetails>)
    ensures |r| == n
    ensures forall i :: 0 <= i < n ==> r[i] == VideoDetails(Unknown, Unknown)
  {
    seq(n, i => VideoDetails(Unknown, Unknown))
  }

  /** The detail call produced items and every one of them formats without throwing. */
  predicate DetailsSucceed(response: DetailResponse) {
    && response.Fetched? && response.value.Some?
    && forall i :: 0 <= i < |response.value.value| ==> DetailsOf(response.value.value[i]).Some?
  }

  /**
   * getYouTubeVideoDetails: [] for no ids; the formatted records when the call and every mapping succeed;
   * otherwise exactly one {duration: "Unknown", viewCount: "Unknown"} per id.
   */
  function LookupDetails(ids: seq<string>, response: DetailResponse): (r: seq<VideoDetails>)
    ensures ids == [] ==> r == []
    ensures ids != [] && !DetailsSucceed(response) ==> r == FallbackDetails(|ids|)
    ensures ids != [] && DetailsSucceed(response) ==>
      |r| == |response.value.value| &&
      forall i :: 0 <= i < |r| ==> Some(r[i]) == DetailsOf(response.value.value[i])
  {
    if ids == [] then []
    else if DetailsSucceed(response) then
      var items := response.value.value;
      seq(|items|, i requires 0 <= i < |items| && DetailsOf(items[i]).Some? => DetailsOf(items[i]).value)
    else FallbackDetails(|ids|)
  }

  /** The detail lookup issues one batched call for all ids, and none for an empty list. */
  function LookupCalls(ids: seq<string>): seq<Call> {
    if ids == [] then [] else [YouTubeVideos(ids)]
  }

  // ----- searchYouTube -----

  /** The medium thumbnail when present, else the default one; None when both are absent (reading .url throws). */
  function ThumbnailUrl(t: Thumbnails): (r: Option<string>)
    ensures t.medium.Some? ==> r == t.medium
    ensures t.medium.None? ==> r == t.standard
  {
    if t.medium.Some? then t.medium else t.standard
  }

  predicate ThumbnailsPresent(items: seq<SearchItem>) {
    forall i :: 0 <= i < |items| ==> ThumbnailUrl(items[i].thumbnails).Some?
  }

  /** The i-th merged video: the search item paired by position with details[i], when there is one. */
  function ToVideo(item: SearchItem, thumbnail: string, details: seq<VideoDetails>, i: nat): Video {
    Video(
      item.videoId, item.title, item.description, thumbnail, item.channelTitle, item.publishedAt,
      WatchUrlPrefix + item.videoId, "video", "YouTube",
      if i < |details| then details[i].duration else Unknown,
      if i < |details| then details[i].viewCount else Unknown)
  }

  /** The `items.map` of searchYouTube; None when it throws on an item without any thumbnail. */
  function MergeVideos(items: seq<SearchItem>, details: seq<VideoDetails>): (r: Option<seq<Video>>)
    ensures r.Some? <==> ThumbnailsPresent(items)
    ensures r.Some? ==> |r.value| == |items|
  {
    if ThumbnailsPresent(items) then
      Some(seq(|items|, i requires 0 <= i < |items| && ThumbnailsPresent(items) =>
        ToVideo(items[i], ThumbnailUrl(items[i].thumbnails).value, details, i)))
    else None
  }

  /**
   * searchYouTube: [] and no call without a truthy key; [] after one search call that throws, has no
   * items or has an item without thumbnails; otherwise the merged videos after the search and detail calls.
   */
  function SearchYouTube(apiKey: Option<string>, query: string, search: SearchResponse, detail: DetailResponse)
    : (r: Traced<Video>)
    ensures !Truthy(apiKey) ==> r == Traced([], [])
    ensures Truthy(apiKey) ==> 1 <= |r.calls| <= 2 && r.calls[0] == YouTubeSearch(query)
    ensures r.results != [] ==>
      && search.Fetched? && search.value.Some?
      && r.calls == [YouTubeSearch(query), YouTubeVideos(VideoIds(search.value.value))]
      && |r.results| == |search.value.value|
    ensures Truthy(apiKey) && !(search.Fetched? && search.value.Some?) ==> r == Traced([], [YouTubeSearch(query)])
    ensures Truthy(apiKey) && search.Fetched? && search.value.Some? ==>
      var items := search.value.value;
      && r.calls == [YouTubeSearch(query)] + LookupCalls(VideoIds(items))
      && (ThumbnailsPresent(items) ==> r.results == MergeVideos(items, LookupDetails(VideoIds(items), detail)).value)
      && (!ThumbnailsPresent(items) ==> r.results == [])
  {
    if !Truthy(apiKey) then Traced([], [])
    else match search
      case Threw => Traced([], [YouTubeSearch(query)])
      case Fetched(None) => Traced([], [YouTubeSearch(query)])
      case Fetched(Some(items)) =>
        var ids := VideoIds(items);
        var calls := [YouTubeSearch(query)] + LookupCalls(ids);
        match MergeVideos(items, LookupDetails(ids, detail))
        case None => Traced([], calls)
        case Some(videos) => Traced(videos, calls)
  }

  // ----- properties of the merge -----

  /**
   * Element i of the merge carries the i-th search item's id, its watch url, type "video" and source "YouTube",
   * the medium-else-default thumbnail, and details[i] when i < |details|, "Unknown" otherwise.
   */
  lemma MergedVideo(items: seq<SearchItem>, details: seq<VideoDetails>, i: nat)
    requires ThumbnailsPresent(items) && i < |items|
    ensures var v := MergeVideos(items, details).value[i];
      && v.id == items[i].videoId
      && v.url == WatchUrlPrefix + items[i].videoId && v.url[|WatchUrlPrefix|..] == v.id
      && v.kind == "video" && v.source == "YouTube"
      && v.title == items[i].title && v.channelTitle == items[i].channelTitle
      && (items[i].thumbnails.medium.Some? ==> v.thumbnail == items[i].thumbnails.medium.value)
      && (items[i].thumbnails.medium.None? ==> v.thumbnail == items[i].thumbnails.standard.value)
      && (i < |details| ==> v.duration == details[i].duration && v.viewCount == details[i].viewCount)
      && (i >= |details| ==> v.duration == Unknown && v.viewCount == Unknown)
  {
    var v := MergeVideos(items, details).value[i];
    assert v == ToVideo(items[i], ThumbnailUrl(items[i].thumbnails).value, details, i);
    assert (WatchUrlPrefix + items[i].videoId)[|WatchUrlPrefix|..] == items[i].videoId;
  }

  /** The merge keeps the search order: the ids of the videos are the ids that were looked up. */
  lemma {:induction false} MergePreservesIds(items: seq<SearchItem>, details: seq<VideoDetails>)
    requires ThumbnailsPresent(items)
    ensures var vs := MergeVideos(items, details).value;
      forall i :: 0 <= i < |vs| ==> vs[i].id == VideoIds(items)[i]
  {
    var vs := MergeVideos(items, details).value;
    forall i | 0 <= i < |vs| ensures vs[i].id == VideoIds(items)[i] {
      MergedVideo(items, details, i);
    }
  }

  /**
   * A failed detail call never loses a video: with thumbnails present and a key set, every search item
   * still yields a video, now with duration and view count "Unknown".
   */
  lemma DetailFailureKeepsVideos(apiKey: Option<string>, query: string, items: seq<SearchItem>, detail: DetailResponse)
    requires Truthy(apiKey) && ThumbnailsPresent(items) && !DetailsSucceed(detail)
    ensures var r := SearchYouTube(apiKey, query, Fetched(Some(items)), detail);
      && |r.results| == |items|
      && forall i :: 0 <= i < |items| ==> r.results[i].duration == Unknown && r.results[i].viewCount == Unknown
  {
    var ids := VideoIds(items);
    var details := LookupDetails(ids, detail);
    var r := SearchYouTube(apiKey, query, Fetched(Some(items)), detail);
    assert r.results == MergeVideos(items, details).value;
    forall i | 0 <= i < |items|
      ensures r.results[i].duration == Unknown && r.results[i].viewCount == Unknown
    {
      MergedVideo(items, details, i);
    }
  }

  /**
   * With a key, thumbnails on every item and a detail call that succeeds, video i is search item i with the
   * formatted duration and view count of detail item i; items beyond the detail list show "Unknown".
   */
  lemma SearchMergesDetails(
    apiKey: Option<string>, query: string, items: seq<SearchItem>, detail: DetailResponse, i: nat)
    requires Truthy(apiKey) && ThumbnailsPresent(items) && DetailsSucceed(detail) && i < |items|
    ensures var r := SearchYouTube(apiKey, query, Fetched(Some(items)), detail);
      var d := detail.value.value;
      && r.calls == [YouTubeSearch(query), YouTubeVideos(VideoIds(items))]
      && |r.results| == |items|
      && r.results[i].id == items[i].videoId && r.results[i].title == items[i].title
      && (i < |d| ==> Some(VideoDetails(r.results[i].duration, r.results[i].viewCount)) == DetailsOf(d[i]))
      && (i >= |d| ==> r.results[i].duration == Unknown && r.results[i].viewCount == Unknown)
  {
    var ids := VideoIds(items);
    var details := LookupDetails(ids, detail);
    var r := SearchYouTube(apiKey, query, Fetched(Some(items)), detail);
    assert r.results == MergeVideos(items, details).value;
    MergedVideo(items, details, i);
  }

  /**
   * One detail item whose duration has no "PT" (the "P0D" of a live broadcast, a "P1DT2H" of a day-long
   * video) makes formatDuration throw inside the map, so every record of the batch falls back to "Unknown".
   */
  lemma OneBadDurationBlanksBatch(ids: seq<string>, items: seq<DetailItem>, k: nat)
    requires ids != [] && k < |items|
    requires items[k].duration == Some("P0D")
    ensures LookupDetails(ids, Fetched(Some(items))) == FallbackDetails(|ids|)
  {
    assert AfterPT("0D") == None;
    assert AfterPT("P0D") == None;
    assert DetailsOf(items[k]).None?;
  }

  /** Without items, or with a key but an empty item list, no detail call is issued. */
  lemma NoDetailCallForNoItems(apiKey: Option<string>, query: string, detail: DetailResponse)
    requires Truthy(apiKey)
    ensures SearchYouTube(apiKey, query, Fetched(Some([])), detail) == Traced([], [YouTubeSearch(query)])
    ensures SearchYouTube(apiKey, query, Fetched(None), detail) == Traced([], [YouTubeSearch(query)])
  {
    assert MergeVideos([], LookupDetails([], detail)) == Some([]);
  }

  /** Every video the adapter returns is typed "video" and sourced "YouTube", as the front end expects. */
  lemma {:induction false} VideoResultsAreVideos(apiKey: Option<string>, query: string, search: SearchResponse, detail: DetailResponse)
    ensures forall v :: v in SearchYouTube(apiKey, query, search, detail).results ==> v.kind == "video" && v.source == "YouTube"
  {
    var r := SearchYouTube(apiKey, query, search, detail);
    if r.results != [] {
      var items := search.value.value;
      var details := LookupDetails(VideoIds(items), detail);
      assert r.results == MergeVideos(items, details).value;
      forall v | v in r.results ensures v.kind == "video" && v.source == "YouTube" {
        var i :| 0 <= i < |r.results| && r.results[i] == v;
        MergedVideo(items, details, i);
      }
    }
  }
}
