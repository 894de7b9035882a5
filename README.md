# PC Guide search aggregation, modelled in Dafny

PC Guide is a small search service for PC hardware installation guides. The browser page asks for a
component type, a brand and an optional model. It sends them to a serverless search endpoint.

That endpoint builds the search string `<brand> [<model>] <componentType> installation guide manual` and
queries two upstream services, one after the other:

- **YouTube video search.** One search call, then one batched call for durations and view counts. The two
  answers are merged by position. Durations are reformatted from ISO 8601 to a clock, and view counts are
  grouped in thousands.
- **Reddit.** A search of seven fixed subreddits. The posts are ranked by score plus comment count, and the
  top ten are kept.

The endpoint answers with the videos, the manuals (the forum posts), the query and a timestamp. The page
renders one card per result and lets the user filter by type.

There are two server variants:

- `netlify/functions/search.js` catches a failing subreddit and goes on with the others.
- The express route of `netlify/functions/api.js` wraps the whole subreddit loop in one try block. It also
  skips Reddit entirely when no client id is configured.

The model keeps both variants apart and proves how they relate.

Modules, one per concern:

- `Values`: JavaScript truthiness, optional fields, digit strings and `String.prototype.trim`. It also holds
  the record of outbound calls.
- `Formatters`: `formatDuration` and `formatNumber`. This covers the regular expression match, `padStart`,
  `parseInt` and en-US `toLocaleString`.
- `Query`: request validation and the search string.
- `YouTube`: `searchYouTube` and `getYouTubeVideoDetails`.
- `Reddit`: post mapping, collection, stable ranking, and both `searchReddit` variants.
- `Handlers`: the search.js function handler and the api.js route.
- `Client`: the request script.js sends, the cards, the filter, and the page state.
- `Examples`: concrete instances.

Upstream answers are inputs to the model (`Fetch`, `SubredditOutcome`, `Upstream`), since a call may
throw. Every operation returns the outbound calls it made, in order. This is how the model can say which
calls are made and which are not.

## Model

| member | source | states |
|---|---|---|
| Values.Trim | script.js:49 | The trimmed model input is empty exactly when the input is all whitespace. Otherwise it neither starts nor ends with whitespace. |
| Values.TrimIdempotent | script.js:49 | Trimming twice gives the same string as trimming once. |
| Values.TrimSlice | script.js:49 | The trimmed model is a contiguous slice of the input, and only whitespace lies before and after it: the inner text is kept as typed. |
| Formatters.AfterPT | netlify/functions/search.js:203 | The unanchored pattern matches exactly when the text contains "PT". The captured text starts right after the leftmost "PT". |
| Formatters.MatchDuration | netlify/functions/search.js:203-206 | The match is null exactly when there is no "PT". Otherwise the three groups capture digit strings. |
| Formatters.PadStart2 | netlify/functions/search.js:210-211 | The result has length max(2, len), ends with the input, and is preceded only by zeros. |
| Formatters.FormatDuration | netlify/functions/search.js:202-214 | The step-by-step construction throws (None) exactly when there is no "PT". It produces the clock text of the captured parts. |
| Formatters.MatchIsoDuration | netlify/functions/search.js:203-206 | Round trip: matching the ISO 8601 "PT[nH][nM][nS]" text of some digit parts captures exactly those parts. |
| Formatters.DurationTextOfIso | netlify/functions/search.js:202-214 | An ISO duration reads as hours (only when present), then padded minutes and seconds. Each field denotes the same number as the component, with at least two digits. |
| Formatters.ClockColons | netlify/functions/search.js:209-211 | The clock has two ':' separators exactly when an hour component was captured, else one. |
| Formatters.PadStart2Value | netlify/functions/search.js:210-211 | Padding never changes the number a digit string denotes. It leaves strings of two or more digits alone. |
| Formatters.DecimalString | netlify/functions/search.js:218 | The numeral printed for a count is canonical (no leading zero) and denotes the count. |
| Formatters.DecimalStringOfValue | netlify/functions/search.js:218 | Every canonical numeral is printed back unchanged. |
| Formatters.GroupThousandsInverse | netlify/functions/search.js:218 | Thousands grouping only inserts separators: removing the commas gives back the digits. |
| Formatters.GroupThousandsSeparators | netlify/functions/search.js:218 | A numeral of n digits gets (n-1)/3 commas. |
| Formatters.GroupThousandsPositions | netlify/functions/search.js:218 | Where the commas go: the grouped text of n digits has length n + (n-1)/3, and a character is a comma exactly when its distance from the right end is a multiple of four. So the digits form blocks of three with a leading block of one to three. |
| Formatters.FormatNumber | netlify/functions/search.js:216-219 | The result is "Unknown" exactly for a falsy input (absent or ""). Otherwise it is `LocaleString(ParseInt(num))`, a number text, "NaN" or signed. `ParseInt` models parseInt and `LocaleString` models en-US toLocaleString. What `ParseInt` does with whitespace, a sign, a "0x" prefix, trailing text and a missing digit is stated by ParseLead, ParseDecimal, ParseHex and ParseNoDigits. What formatting gives on a canonical count is stated by FormatNumberCanonical. |
| Formatters.ParseLead | netlify/functions/search.js:218 | parseInt skips leading JavaScript whitespace and one sign. The rest is read unsigned, and a '-' negates the value, including NaN staying NaN. |
| Formatters.ParseDecimal | netlify/functions/search.js:218 | After whitespace and an optional sign, parseInt reads the longest run of decimal digits and ignores the text after it. The value is that of the digits, negative after '-'. The only exception is "0x", the hex prefix. |
| Formatters.ParseHex | netlify/functions/search.js:218 | After whitespace, an optional sign and "0x" or "0X", parseInt reads the longest run of hexadecimal digits in radix 16 and ignores the text after it. |
| Formatters.ParseNoDigits | netlify/functions/search.js:218 | When no digit follows the whitespace and the sign, parseInt gives NaN. |
| Formatters.ParseCanonical | netlify/functions/search.js:218 | parseInt reads a canonical numeral (no sign, no leading zero, no whitespace) as exactly the number its digits denote. |
| Formatters.FormatNumberCanonical | netlify/functions/search.js:216-219 | A canonical count formats to its grouped digits, and removing the commas reads it back. |
| Query.SearchQuery | netlify/functions/search.js:23-35 | A query exists exactly when componentType and brand are both truthy. It starts with the brand and a space and ends with " installation guide manual". |
| Query.QueryModelInserted | netlify/functions/search.js:33-35 | The query with a model is the query without it, with the model and a space inserted after the brand. |
| Query.EmptyModelIgnored | netlify/functions/search.js:33-35 | An empty model builds the same query as an absent one. |
| YouTube.DetailsOf | netlify/functions/search.js:133-136 | A detail item maps without throwing exactly when its duration is present and contains "PT". It carries the formatted duration and view count. |
| YouTube.FallbackDetails | netlify/functions/search.js:138-141 | The fallback has one all-"Unknown" record per requested id. |
| YouTube.LookupDetails | netlify/functions/search.js:119-142 | No ids give no records. If the call or any mapping fails, every id gets the all-"Unknown" fallback. Otherwise each record is the mapping of the item at the same position. |
| YouTube.ThumbnailUrl | netlify/functions/search.js:103 | The medium thumbnail is used when present, else the default one. None means the default is missing too. |
| YouTube.MergeVideos | netlify/functions/search.js:99-111 | The merge succeeds exactly when every item has a thumbnail. It then yields one video per search item. |
| YouTube.SearchYouTube | netlify/functions/search.js:70-117 | No key means no call and no video. A search that throws or has no `items` gives no video after the single search call. Otherwise the search call is followed by one batched detail call for the ids, or none for an empty list. The videos are then the merge of the items with the looked-up details, or none when an item has no thumbnail. |
| YouTube.MergedVideo | netlify/functions/search.js:99-111 | Video i carries item i's id, title, channel and watch URL (from which the id reads back), type "video", source "YouTube" and the medium-else-default thumbnail. It takes details[i] when present, otherwise "Unknown". |
| YouTube.MergePreservesIds | netlify/functions/search.js:96-111 | The merged videos keep the order of the ids that were looked up. |
| YouTube.DetailFailureKeepsVideos | netlify/functions/search.js:119-142 | A failed detail lookup loses no video. Every one keeps its place, with duration and view count "Unknown". |
| YouTube.SearchMergesDetails | netlify/functions/search.js:96-111 | When the detail call succeeds, video i is search item i with the formatted duration and view count of detail item i. A video beyond the detail list shows "Unknown". Exactly one search and one detail call are made. |
| YouTube.OneBadDurationBlanksBatch | netlify/functions/search.js:133-141 | One "P0D" duration makes the map throw, so the whole batch falls back to "Unknown". |
| YouTube.NoDetailCallForNoItems | netlify/functions/search.js:92-120 | An empty or missing item list yields no videos and no detail call. |
| YouTube.VideoResultsAreVideos | netlify/functions/search.js:99-111 | Every returned video has type "video" and source "YouTube". |
| Reddit.ToPost | netlify/functions/search.js:171-183 | The description is the first min(200, len) characters plus "...". A thumbnail is null exactly when it is "self". Type is "forum", source "Reddit", and score and comment count are kept. |
| Reddit.DescriptionTruncation | netlify/functions/search.js:174 | A body of 200 or more characters keeps exactly its first 200 (length 203 with the ellipsis). A shorter body is kept whole. |
| Reddit.PostsOf | netlify/functions/search.js:170-185 | A status-200 reply with `data.children` contributes its children mapped in order. Any other reply, and a throwing request, contributes no post. |
| Reddit.CollectedAppend | netlify/functions/search.js:160-190 | Collection follows the subreddit order: the posts of a concatenation are the concatenation of the posts. |
| Reddit.CollectedCovers | netlify/functions/search.js:160-190 | Each subreddit's posts appear in the collected list as one block, after the posts of the subreddits before it and before those after it. |
| Reddit.FailedSubredditIsolated | netlify/functions/search.js:163-189 | A throwing subreddit drops only its own posts. All others are collected, in list order. |
| Reddit.CollectedAreForum | netlify/functions/search.js:171-183 | Every collected post has type "forum" and source "Reddit". |
| Reddit.SortByEngagement | netlify/functions/search.js:192 | The sort is a permutation of the collected posts, in non-increasing score plus comments. |
| Reddit.SortStable | netlify/functions/search.js:192 | The sort is stable: posts of equal engagement keep their collection order. |
| Reddit.Rank | netlify/functions/search.js:192-194 | The ranking keeps min(total, 10) posts, sorted and drawn from the collected ones. No post left out is more engaging than the last one kept. |
| Reddit.RankKeepsTieOrder | netlify/functions/search.js:192-194 | For every input, the ranked posts of one engagement value are a prefix of that value's posts in collection order. When nothing is cut, they are all of them, in that order. |
| Reddit.RankExample | netlify/functions/search.js:192 | A post with 3 points and 20 comments ranks above one with 10 points and 5 comments. |
| Reddit.SearchRedditIsolated | netlify/functions/search.js:144-200 | The loop asks all seven subreddits in order. It returns the ranking of the posts of those that answered with status 200 and children. |
| Reddit.FirstFailure | netlify/functions/api.js:160-167 | This is the index of the first throwing subreddit request: none before it throws. |
| Reddit.SearchRedditAllOrNothing | netlify/functions/api.js:139-200 | The loop returns [] without a client id (no call) or when any request throws. Calls stop at the first throwing subreddit, and otherwise all are ranked. |
| Reddit.VariantsAgreeWithoutFailure | netlify/functions/api.js:139-200 | With a client id and no throwing request, both variants return the same ranking. |
| Reddit.VariantsDivergeOnFailure | netlify/functions/api.js:160-199 | One throwing subreddit empties the api.js result. search.js still returns posts when another subreddit delivered one. |
| Reddit.RankedPostsAreForum | netlify/functions/search.js:171-194 | Every ranked post, in either variant, has type "forum" and source "Reddit". |
| Handlers.ParamsOf | netlify/functions/search.js:21 | Null query parameters never pass validation. |
| Handlers.FunctionOutcome | netlify/functions/search.js:3-68 | Status is always 200 or 400, so the 500 branch is unreachable. OPTIONS gets 200 with an empty body and no call. A 400 happens exactly when the required fields are missing, with the error text and no call. Every accepted request gets a result body. It carries the built query, the adapter's videos, the isolated ranking and the given timestamp. The calls are the video adapter's, then one search per subreddit in list order. |
| Handlers.HandleFunction | netlify/functions/search.js:3-68 | The handler, awaiting the adapters in turn, produces the response and calls described by FunctionOutcome. |
| Handlers.RouteOutcome | netlify/functions/api.js:27-63 | Status is always 200 or 400. A 400 happens exactly when the required fields are missing, with no call. A 200 carries the query, the adapter's videos, the all-or-nothing ranking and the given timestamp. Its calls are the video adapter's, then the forum calls up to the first failure. |
| Handlers.HandleRoute | netlify/functions/api.js:27-63 | The route handler produces the response and calls described by RouteOutcome. |
| Handlers.FunctionAsksEverySubreddit | netlify/functions/search.js:148-161 | Once a request is accepted, every subreddit of the list is searched with the query. |
| Handlers.FunctionWithoutYouTubeKey | netlify/functions/search.js:71-75 | Without a YouTube key no video is returned and no YouTube call is made. The calls are just the seven subreddit searches. |
| Handlers.HandlersRejectAlike | netlify/functions/api.js:33-37 | Both handlers reject the same requests, with the same 400 body and no call. |
| Handlers.HandlersAgreeWithoutFailure | netlify/functions/api.js:139-200 | With a Reddit client id and no throwing subreddit, both handlers give the same response and calls. |
| Handlers.RouteStopsAtFirstFailure | netlify/functions/api.js:160-199 | In api.js the first throwing subreddit empties the manuals, and the subreddits after it are never asked. |
| Client.ClientRequest | script.js:46-68 | No request is sent exactly when a selection is empty. Otherwise the request carries both selections, and the trimmed model exactly when it is non-empty. |
| Client.ClientRequestAccepted | script.js:52-68 | Every request the page sends passes server validation. The server query contains the brand, the trimmed model (if any) and the component type. |
| Client.BlankModelOmitted | script.js:49-68 | A whitespace-only model input sends the same request as an empty one. |
| Client.Settle | script.js:71-90 | A search loads exactly when the reply is ok and has no error field, and then yields the videos followed by the manuals. Every failure message starts with "Search failed: ". A non-ok status shows "HTTP error! status: " and the status. |
| Client.RejectionShowsStatus | script.js:73-81 | The server's 400 is shown as "Search failed: HTTP error! status: 400", never with the server's own error text. |
| Client.ResultsPayloadLoads | script.js:77-84 | A server result body loads as its videos followed by its manuals. |
| Client.TypeIcon | script.js:165-171 | The camera icon appears exactly for "video", the speech balloon exactly for "forum", and the page icon for anything else. |
| Client.CardFor | script.js:127-162 | For every result: the card keeps its url, title and type and shows the icon of the type. The description is shown only when truthy. The source is shown, or "Unknown" when falsy. A video shows each known duration and view count and a non-empty channel, nothing else, and links as "Video". Any other type shows no extra information and links as "Link". |
| Client.VideoCard | script.js:128-162 | A video card shows duration and view count exactly when known (non-empty and not "Unknown"), and the channel exactly when non-empty. It shows nothing else, and links as "Video". |
| Client.ForumCard | script.js:128-162 | A forum card shows no video information, always its description, and the speech balloon. It links as "Link". |
| Client.ResultsView | script.js:97-113 | The "No results found" notice appears exactly for an empty list. A non-empty list gives cards, one per result, with the result's URL. |
| Client.DisplayResults | script.js:97-125 | The loop builds the notice for an empty list, otherwise the card of each result in order. |
| Client.Filtered | script.js:186-195 | Filtering never lengthens the list. |
| Client.FilteredMembers | script.js:186-195 | A filtered list holds exactly the results whose type equals the filter. |
| Client.FilteredAppend | script.js:186-195 | Filtering distributes over concatenation. |
| Client.FilteredAll | script.js:186-195 | A list whose results all have the type is kept whole. |
| Client.FilteredNone | script.js:186-195 | A list without a result of the type filters to nothing. |
| Client.FilterIdempotent | script.js:186-197 | Choosing the same filter twice shows what choosing it once shows. |
| Client.FilterSeparatesResults | script.js:84-195 | On the stored list (videos then manuals), "video" shows exactly the videos and "forum" exactly the manuals, each in server order. |
| Client.FunctionResultsSeparate | script.js:77-195 | End to end from the search.js handler: the loaded list is the videos then the manuals, and the two filters separate them. |
| Client.Page.constructor | script.js:4-5 | The page starts with no stored results, filter "all", a blank grid, no error and nothing loading. |
| Client.Page.HandleFilter | script.js:174-198 | The handler remembers the filter and displays the stored results of that type (all for "all"). The stored results and everything else are unchanged. |
| Client.Page.HandleSearch | script.js:46-94 | Without both selections it only shows the selection error. Otherwise it sends the request. On success it stores and displays all results, whatever filter was active, and shows them. On failure it shows the message and keeps the old results hidden. Loading ends either way. |
| Examples.DurationExampleHours | netlify/functions/search.js:202-214 | "PT1H2M10S" reads as "1:02:10". |
| Examples.DurationExampleMinutes | netlify/functions/search.js:202-214 | "PT5M" reads as "05:00". |
| Examples.DurationExampleEmpty | netlify/functions/search.js:202-214 | A bare "PT" reads as "00:00". |
| Examples.DurationExampleNoTime | netlify/functions/search.js:203-204 | "P0D" has no match, so formatDuration throws. |
| Examples.FormatNumberExampleGrouped | netlify/functions/search.js:216-219 | "12345" is shown as "12,345". |
| Examples.FormatNumberExampleEdges | netlify/functions/search.js:216-219 | "0" is shown as "0". An empty or absent count is "Unknown". |
| Examples.QueryExample | netlify/functions/search.js:33-35 | GPU, NVIDIA and RTX 4070 build "NVIDIA RTX 4070 GPU installation guide manual". |
| Examples.QueryExampleRejected | netlify/functions/search.js:23-31 | An empty brand is rejected. |

The api.js copies of searchYouTube (api.js:65-112), getYouTubeVideoDetails (api.js:114-137), formatDuration
(api.js:202-214) and formatNumber (api.js:216-219) behave exactly like the search.js ones. The same members
model them.

Behaviours of the code that are easy to misread, which the model keeps as written:

- A view count of "0" is a truthy string, so it is shown as "0", not "Unknown".
- In api.js one throwing subreddit request discards the posts of every subreddit, not just its own.
- One unformattable duration, or a missing detail `items`, turns every duration and view count of the batch
  into "Unknown", not only that video's.
- One search item without any thumbnail makes the video search return no video at all.
- The ellipsis is appended to every description, short ones included.

## Left out

- HTTP transport is not modelled. This covers CORS headers (search.js:5-9), the express static files and
  the "/" route (api.js:24-25, 221-224), the serverless wrapper and dotenv. Responses are modelled as a
  status and a body.
- URL building and encoding (URLSearchParams, encodeURIComponent) and the constant request parameters are
  not modelled: part, maxResults 10, order, videoDuration, publishedAfter, limit=5, t=year, the User-Agent
  header. An outbound call is recorded by its endpoint, query and subreddit or ids.
- The upstream services are inputs. Nothing bounds the number of items they return.
- axios rejects non-2xx statuses by default, so a non-2xx reply (Reddit's 429, say) reaches the code as a
  thrown error. It must be given to the model as `Failed`: in search.js that subreddit contributes nothing,
  in api.js it empties the whole ranking. A `Responded` status outside 200-299 does not occur. A 2xx status
  other than 200, or a 200 without `children`, contributes nothing, as the code's test does.
- Logging (console.log and console.error) is left out: it has no effect on results.
- The clock and the locale are inputs. `new Date().toISOString()` is an opaque timestamp string.
  `toLocaleDateString` is a function parameter applied to created_utc * 1000.
- Formatters.FormatNumber: the value is exact. parseInt yields a double, so counts above 2^53 are rounded
  before grouping, and a numeral beyond the double range becomes Infinity, which prints as "∞". Neither is
  modelled. Only the en-US grouping is modelled.
- Reddit.ToPost: the 200-character cut counts Unicode code points. JavaScript's substring counts UTF-16
  code units.
- A missing field of an upstream record is not modelled: `id`, `snippet`, `contentDetails` and `statistics`
  on YouTube items, and `selftext` on a Reddit post. Those would throw inside a map. Only the absent
  thumbnails, duration, view count, `items` and `children` are modelled.
- Express query values that are arrays (a repeated parameter) are not modelled. Parameters are absent or
  strings.
- Reddit.SortByEngagement: the in-place `Array.prototype.sort` on a local array is modelled as a stable
  sort function on a sequence. The array is never aliased.
- The catch-all 500 responses (search.js:58-67, api.js:57-62) and the outer catch of search.js's
  searchReddit (search.js:196-199) are unreachable. Every failure the adapters meet is already caught.
- script.js parts not modelled:
  - section navigation (script.js:25-43);
  - the click handlers that open a card's URL (script.js:115-124);
  - the placeholder text (script.js:342-357);
  - the toast styling and its five-second auto-hide (script.js:227-268);
  - the injected style sheet (script.js:270-339);
  - the active class of the filter buttons.
- In script.js, the spinner and button toggling of setLoadingState, showResults, hideResults, showError and
  hideError is modelled only as the page fields `loading`, `resultsShown` and `error`.
- Card HTML markup and its (absent) escaping are not modelled. A card is modelled by its content.
- Which server variant answers the page's `/api/search` request is decided by deployment and is not
  modelled.
