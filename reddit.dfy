/**
 * The forum adapter (searchReddit): post mapping, collection across the fixed subreddit list, ranking by
 * engagement, and the two variants of fault handling: search.js isolates each subreddit, api.js wraps
 * the whole loop in one try.
 */
module Reddit {
  import opened Values

  /** The subreddits searched, in order. */
  const Subreddits: seq<string> := ["buildapc", "pcmasterrace", "techsupport", "hardware", "AMD", "intel", "nvidia"]

  /** The ranked list is cut to this many posts. */
  const MaxPosts: nat := 10

  /** A post description keeps this many characters of the body, followed by "...". */
  const DescriptionLimit: nat := 200

  const PermalinkPrefix: string := "https://reddit.com"

  /** The fields of one `children[i].data` the adapter reads. */
  datatype RawPost = RawPost(
    id: string, title: string, selftext: string, permalink: string, thumbnail: string,
    score: int, numComments: int, subreddit: string, createdUtc: int)

  /** A forum result; `kind` is the JSON field `type`, and a None thumbnail is null. */
  datatype Post = Post(
    id: string, title: string, description: string, url: string, kind: string, source: string,
    thumbnail: Option<string>, score: int, comments: int, subreddit: string, created: string)

  /** The awaited call for one subreddit: it threw, or it answered with a status and maybe `data.children`. */
  datatype SubredditOutcome = Failed | Responded(status: int, children: Option<seq<RawPost>>)

  function Min(a: nat, b: nat): nat {
    if a < b then a else b
  }

  /**
   * The mapping of one post: the body cut to its first 200 characters with "..." always appended, and the
   * "self" thumbnail placeholder turned into null. `localeDate` renders epoch milliseconds as a date.
   */
  function ToPost(raw: RawPost, localeDate: int -> string): (r: Post)
    ensures |r.description| <= DescriptionLimit + 3
    ensures r.description == raw.selftext[..Min(DescriptionLimit, |raw.selftext|)] + "..."
    ensures r.thumbnail.None? <==> raw.thumbnail == "self"
    ensures r.thumbnail.Some? ==> r.thumbnail.value == raw.thumbnail
    ensures r.kind == "forum" && r.source == "Reddit"
    ensures r.score == raw.score && r.comments == raw.numComments
  {
    Post(
      raw.id, raw.title, raw.selftext[..Min(DescriptionLimit, |raw.selftext|)] + "...",
      PermalinkPrefix + raw.permalink, "forum", "Reddit",
      if raw.thumbnail != "self" then Some(raw.thumbnail) else None,
      raw.score, raw.numComments, raw.subreddit, localeDate(raw.createdUtc * 1000))
  }

  /** A long body keeps exactly its first 200 characters; a short one is kept whole; both end in "...". */
  lemma DescriptionTruncation(raw: RawPost, localeDate: int -> string)
    ensures |raw.selftext| >= DescriptionLimit ==>
      ToPost(raw, localeDate).description == raw.selftext[..DescriptionLimit] + "..." &&
      |ToPost(raw, localeDate).description| == DescriptionLimit + 3
    ensures |raw.selftext| < DescriptionLimit ==> ToPost(raw, localeDate).description == raw.selftext + "..."
  {
    assert raw.selftext[..|raw.selftext|] == raw.selftext;
  }

  /** The `children.map` of one response: the i-th post is the i-th child, mapped. */
  function MapPosts(children: seq<RawPost>, localeDate: int -> string): (r: seq<Post>)
    ensures |r| == |children|
    ensures forall i :: 0 <= i < |r| ==> r[i] == ToPost(children[i], localeDate)
  {
    seq(|children|, i requires 0 <= i < |children| => ToPost(children[i], localeDate))
  }

  /** The posts one subreddit contributes: those of a status-200 response with `data.children`, else none. */
  function PostsOf(outcome: SubredditOutcome, localeDate: int -> string): (r: seq<Post>)
    ensures outcome.Responded? && outcome.status == 200 && outcome.children.Some? ==>
      r == MapPosts(outcome.children.value, localeDate)
    ensures !(outcome.Responded? && outcome.status == 200 && outcome.children.Some?) ==> r == []
    ensures outcome.Failed? ==> r == []
  {
    if outcome.Responded? && outcome.status == 200 && outcome.children.Some? then
      MapPosts(outcome.children.value, localeDate)
    else []
  }

  /** The concatenation of f(x) over the elements x of xs, in order. */
  function FlatMap<T, U>(xs: seq<T>, f: T -> seq<U>): seq<U> {
    if xs == [] then [] else FlatMap(xs[..|xs| - 1], f) + f(xs[|xs| - 1])
  }

  lemma {:induction false} FlatMapAppend<T, U>(a: seq<T>, b: seq<T>, f: T -> seq<U>)
    ensures FlatMap(a + b, f) == FlatMap(a, f) + FlatMap(b, f)
  {
    if b == [] {
      assert a + b == a;
    } else {
      assert (a + b)[..|a + b| - 1] == a + b[..|b| - 1];
      FlatMapAppend(a, b[..|b| - 1], f);
    }
  }

  /** PostsOf as a function value, for one date rendering. */
  function PostsFn(localeDate: int -> string): SubredditOutcome -> seq<Post> {
    o => PostsOf(o, localeDate)
  }

  /** The posts collected from a list of subreddit outcomes, in list order. */
  function Collected(outcomes: seq<SubredditOutcome>, localeDate: int -> string): seq<Post> {
    FlatMap(outcomes, PostsFn(localeDate))
  }

  /** Collection distributes over concatenation of outcome lists. */
  lemma CollectedAppend(a: seq<SubredditOutcome>, b: seq<SubredditOutcome>, localeDate: int -> string)
    ensures Collected(a + b, localeDate) == Collected(a, localeDate) + Collected(b, localeDate)
  {
    FlatMapAppend(a, b, PostsFn(localeDate));
  }

  /** A single outcome contributes exactly its own posts. */
  lemma CollectedSingle(o: SubredditOutcome, localeDate: int -> string)
    ensures Collected([o], localeDate) == PostsOf(o, localeDate)
  {
    CollectedLast([o], localeDate);
    assert [o][..0] == [];
  }

  /** The last outcome contributes its posts after those of the others. */
  lemma CollectedLast(outcomes: seq<SubredditOutcome>, localeDate: int -> string)
    requires outcomes != []
    ensures Collected(outcomes, localeDate)
      == Collected(outcomes[..|outcomes| - 1], localeDate) + PostsOf(outcomes[|outcomes| - 1], localeDate)
  {
    assert PostsFn(localeDate)(outcomes[|outcomes| - 1]) == PostsOf(outcomes[|outcomes| - 1], localeDate);
  }

  /**
   * Fault isolation: a subreddit whose request throws contributes nothing, and the posts of all the
   * others are still collected, in subreddit-list order.
   */
  lemma FailedSubredditIsolated(outcomes: seq<SubredditOutcome>, i: nat, localeDate: int -> string)
    requires i < |outcomes|
    ensures Collected(outcomes[i := Failed], localeDate)
      == Collected(outcomes[..i], localeDate) + Collected(outcomes[i + 1..], localeDate)
  {
    var before, after := outcomes[..i], outcomes[i + 1..];
    assert outcomes[i := Failed] == (before + [Failed]) + after;
    CollectedAppend(before + [Failed], after, localeDate);
    CollectedAppend(before, [Failed], localeDate);
    CollectedSingle(Failed, localeDate);
  }

  /** Every collected post is typed "forum" and sourced "Reddit". */
  lemma {:induction false} CollectedAreForum(outcomes: seq<SubredditOutcome>, localeDate: int -> string)
    ensures forall p :: p in Collected(outcomes, localeDate) ==> p.kind == "forum" && p.source == "Reddit"
  {
    if outcomes != [] {
      CollectedAreForum(outcomes[..|outcomes| - 1], localeDate);
      CollectedLast(outcomes, localeDate);
      var last := PostsOf(outcomes[|outcomes| - 1], localeDate);
      forall p | p in last ensures p.kind == "forum" && p.source == "Reddit" {
        var o := outcomes[|outcomes| - 1];
        var children := o.children.value;
        var i :| 0 <= i < |last| && last[i] == p;
        assert p == ToPost(children[i], localeDate);
      }
    }
  }

  // ----- ranking: allResults.sort((a, b) => (b.score + b.comments) - (a.score + a.comments)).slice(0, 10) -----

  function Engagement(p: Post): int {
    p.score + p.comments
  }

  predicate SortedByEngagement(s: seq<Post>) {
    forall i, j :: 0 <= i < j < |s| ==> Engagement(s[i]) >= Engagement(s[j])
  }

  /** Inserts p after every strictly more engaging post and before the rest (so before its equals). */
  function Insert(p: Post, s: seq<Post>): (r: seq<Post>)
    ensures multiset(r) == multiset(s) + multiset{p}
  {
    if s == [] || Engagement(s[0]) <= Engagement(p) then [p] + s
    else
      assert s == [s[0]] + s[1..];
      [s[0]] + Insert(p, s[1..])
  }

  predicate AllAtMost(s: seq<Post>, bound: int) {
    forall k :: 0 <= k < |s| ==> Engagement(s[k]) <= bound
  }

  lemma {:induction false} InsertAtMost(p: Post, s: seq<Post>, bound: int)
    requires AllAtMost(s, bound) && Engagement(p) <= bound
    ensures AllAtMost(Insert(p, s), bound)
  {
    if s != [] && Engagement(s[0]) > Engagement(p) {
      InsertAtMost(p, s[1..], bound);
    }
  }

  lemma {:induction false} InsertSorted(p: Post, s: seq<Post>)
    requires SortedByEngagement(s)
    ensures SortedByEngagement(Insert(p, s))
  {
    if s == [] || Engagement(s[0]) <= Engagement(p) {
      var r := [p] + s;
      assert Insert(p, s) == r;
      forall i, j | 0 <= i < j < |r| ensures Engagement(r[i]) >= Engagement(r[j]) {
        if i == 0 {
          assert r[j] == s[j - 1];
          assert Engagement(s[0]) >= Engagement(s[j - 1]);
        } else {
          assert r[i] == s[i - 1] && r[j] == s[j - 1];
        }
      }
    } else {
      var rest := s[1..];
      assert SortedByEngagement(rest) by {
        forall i, j | 0 <= i < j < |rest| ensures Engagement(rest[i]) >= Engagement(rest[j]) {
          assert rest[i] == s[i + 1] && rest[j] == s[j + 1];
        }
      }
      assert AllAtMost(rest, Engagement(s[0])) by {
        forall k | 0 <= k < |rest| ensures Engagement(rest[k]) <= Engagement(s[0]) {
          assert rest[k] == s[k + 1];
        }
      }
      var t := Insert(p, rest);
      InsertSorted(p, rest);
      InsertAtMost(p, rest, Engagement(s[0]));
      var r := [s[0]] + t;
      assert Insert(p, s) == r;
      forall i, j | 0 <= i < j < |r| ensures Engagement(r[i]) >= Engagement(r[j]) {
        assert r[j] == t[j - 1];
        if i > 0 {
          assert r[i] == t[i - 1];
        }
      }
    }
  }

  /**
   * Array.prototype.sort with the descending-engagement comparator. The sort is stable, so posts of equal
   * engagement keep their collection order; an insertion sort from the back reproduces exactly that.
   */
  function SortByEngagement(s: seq<Post>): (r: seq<Post>)
    ensures multiset(r) == multiset(s)
    ensures SortedByEngagement(r)
  {
    if s == [] then []
    else
      assert s == [s[0]] + s[1..];
      var t := SortByEngagement(s[1..]);
      InsertSorted(s[0], t);
      Insert(s[0], t)
  }

  /** The posts of s with engagement e, in order. */
  function WithEngagement(s: seq<Post>, e: int): seq<Post> {
    if s == [] then [] else (if Engagement(s[0]) == e then [s[0]] else []) + WithEngagement(s[1..], e)
  }

  lemma WithEngagementCons(x: Post, t: seq<Post>, e: int)
    ensures WithEngagement([x] + t, e) == (if Engagement(x) == e then [x] else []) + WithEngagement(t, e)
  {
    assert ([x] + t)[1..] == t;
  }

  lemma {:induction false} InsertStable(p: Post, s: seq<Post>, e: int)
    ensures WithEngagement(Insert(p, s), e) == (if Engagement(p) == e then [p] else []) + WithEngagement(s, e)
  {
    if s == [] || Engagement(s[0]) <= Engagement(p) {
      WithEngagementCons(p, s, e);
    } else {
      var t := Insert(p, s[1..]);
      assert Insert(p, s) == [s[0]] + t;
      WithEngagementCons(s[0], t, e);
      InsertStable(p, s[1..], e);
      if Engagement(s[0]) == e {
        assert Engagement(p) != e;
      }
    }
  }

  /** Stability: for every engagement value, the posts with that value appear in their original order. */
  lemma {:induction false} SortStable(s: seq<Post>, e: int)
    ensures WithEngagement(SortByEngagement(s), e) == WithEngagement(s, e)
  {
    if s != [] {
      SortStable(s[1..], e);
      InsertStable(s[0], SortByEngagement(s[1..]), e);
    }
  }

  /** slice(0, 10). */
  function Cut(s: seq<Post>): seq<Post> {
    if |s| <= MaxPosts then s else s[..MaxPosts]
  }

  lemma CutMultiset(s: seq<Post>)
    requires |s| > MaxPosts
    ensures multiset(s[..MaxPosts]) <= multiset(s)
    ensures multiset(s) - multiset(s[..MaxPosts]) == multiset(s[MaxPosts..])
  {
    assert s == s[..MaxPosts] + s[MaxPosts..];
  }

  lemma CutRest(s: seq<Post>)
    requires SortedByEngagement(s) && |s| > MaxPosts
    ensures forall p :: p in multiset(s[MaxPosts..]) ==> Engagement(p) <= Engagement(s[MaxPosts - 1])
  {
    var rest := s[MaxPosts..];
    forall p | p in multiset(rest) ensures Engagement(p) <= Engagement(s[MaxPosts - 1]) {
      var j :| 0 <= j < |rest| && rest[j] == p;
      assert s[MaxPosts + j] == p;
    }
  }

  /** Cutting a sorted list keeps its most engaging prefix. */
  lemma CutSorted(s: seq<Post>)
    requires SortedByEngagement(s)
    ensures |Cut(s)| == Min(|s|, MaxPosts)
    ensures SortedByEngagement(Cut(s))
    ensures multiset(Cut(s)) <= multiset(s)
    ensures forall p :: p in multiset(s) - multiset(Cut(s)) ==> Engagement(p) <= Engagement(Cut(s)[|Cut(s)| - 1])
  {
    if |s| > MaxPosts {
      var r := s[..MaxPosts];
      assert Cut(s) == r;
      CutMultiset(s);
      CutRest(s);
      assert r[MaxPosts - 1] == s[MaxPosts - 1];
      forall i, j | 0 <= i < j < |r| ensures Engagement(r[i]) >= Engagement(r[j]) {
        assert r[i] == s[i] && r[j] == s[j];
      }
    } else {
      assert multiset(s) - multiset(Cut(s)) == multiset{};
    }
  }

  /**
   * The ranked list: non-increasing engagement, min(total, 10) posts, each one of the collected posts,
   * and every post left out no more engaging than the last one kept.
   */
  function Rank(posts: seq<Post>): (r: seq<Post>)
    ensures |r| == Min(|posts|, MaxPosts)
    ensures SortedByEngagement(r)
    ensures multiset(r) <= multiset(posts)
    ensures forall p :: p in multiset(posts) - multiset(r) ==> Engagement(p) <= Engagement(r[|r| - 1])
  {
    var sorted := SortByEngagement(posts);
    assert |sorted| == |multiset(sorted)| == |posts|;
    CutSorted(sorted);
    Cut(sorted)
  }

  /** Ranking is deterministic up to ties and stable within them: equal engagement keeps collection order. */
  lemma RankKeepsTieOrder(posts: seq<Post>, e: int)
    ensures WithEngagement(Rank(posts), e) <= WithEngagement(posts, e)
    ensures |posts| <= MaxPosts ==> WithEngagement(Rank(posts), e) == WithEngagement(posts, e)
  {
    var sorted := SortByEngagement(posts);
    SortStable(posts, e);
    assert Rank(posts) == Cut(sorted);
    if |sorted| > MaxPosts {
      assert sorted == sorted[..MaxPosts] + sorted[MaxPosts..];
      WithEngagementPrefix(sorted[..MaxPosts], sorted[MaxPosts..], e);
    }
  }

  /** The posts of a prefix with a given engagement are a prefix of those of the whole. */
  lemma {:induction false} WithEngagementPrefix(a: seq<Post>, b: seq<Post>, e: int)
    ensures WithEngagement(a, e) <= WithEngagement(a + b, e)
  {
    if a != [] {
      assert (a + b)[1..] == a[1..] + b;
      WithEngagementPrefix(a[1..], b, e);
      WithEngagementCons(a[0], a[1..] + b, e);
      WithEngagementCons(a[0], a[1..], e);
      assert [a[0]] + a[1..] == a;
      assert [a[0]] + (a[1..] + b) == a + b;
    }
  }

  // ----- search.js: a try/catch per subreddit -----

  /** The calls of the loop's first n iterations: one search per subreddit, in list order. */
  function RedditCalls(query: string, n: nat): (r: seq<Call>)
    requires n <= |Subreddits|
    ensures |r| == n
  {
    seq(n, i requires 0 <= i < n => RedditSearch(Subreddits[i], query))
  }

  lemma CollectedSnoc(outcomes: seq<SubredditOutcome>, i: nat, localeDate: int -> string)
    requires i < |outcomes|
    ensures Collected(outcomes[..i + 1], localeDate) == Collected(outcomes[..i], localeDate) + PostsOf(outcomes[i], localeDate)
  {
    CollectedLast(outcomes[..i + 1], localeDate);
    assert outcomes[..i + 1][..i] == outcomes[..i];
  }

  lemma RedditCallsSnoc(query: string, i: nat)
    requires i < |Subreddits|
    ensures RedditCalls(query, i + 1) == RedditCalls(query, i) + [RedditSearch(Subreddits[i], query)]
  {
  }

  /** What search.js returns for the given per-subreddit outcomes. */
  function IsolatedRanking(outcomes: seq<SubredditOutcome>, localeDate: int -> string): seq<Post> {
    Rank(Collected(outcomes, localeDate))
  }

  /** searchReddit of search.js: every subreddit is searched; a failing one is logged and skipped. */
  method SearchRedditIsolated(query: string, outcomes: seq<SubredditOutcome>, localeDate: int -> string)
    returns (posts: seq<Post>, calls: seq<Call>)
    requires |outcomes| == |Subreddits|
    ensures posts == IsolatedRanking(outcomes, localeDate)
    ensures calls == RedditCalls(query, |Subreddits|)
  {
    var allResults: seq<Post> := [];
    calls := [];
    for i := 0 to |Subreddits|
      invariant allResults == Collected(outcomes[..i], localeDate)
      invariant calls == RedditCalls(query, i)
    {
      RedditCallsSnoc(query, i);
      CollectedSnoc(outcomes, i, localeDate);
      calls := calls + [RedditSearch(Subreddits[i], query)];
      var outcome := outcomes[i];
      if outcome.Responded? && outcome.status == 200 && outcome.children.Some? {
        allResults := allResults + MapPosts(outcome.children.value, localeDate);
      }
    }
    assert outcomes[..|Subreddits|] == outcomes;
    allResults := SortByEngagement(allResults);
    posts := if |allResults| <= MaxPosts then allResults else allResults[..MaxPosts];
    assert posts == Cut(allResults);
  }

  // ----- api.js: one try around the whole loop -----

  /** The index of the first subreddit whose request throws, or |outcomes| when none does. */
  function FirstFailure(outcomes: seq<SubredditOutcome>): (r: nat)
    ensures r <= |outcomes|
    ensures forall j :: 0 <= j < r ==> !outcomes[j].Failed?
    ensures r < |outcomes| ==> outcomes[r].Failed?
  {
    if outcomes == [] then 0
    else if outcomes[0].Failed? then 0
    else 1 + FirstFailure(outcomes[1..])
  }

  /** The first failure is where the outcomes stop being non-failing. */
  lemma FirstFailureAt(outcomes: seq<SubredditOutcome>, i: nat)
    requires i <= |outcomes|
    requires forall j :: 0 <= j < i ==> !outcomes[j].Failed?
    requires i < |outcomes| ==> outcomes[i].Failed?
    ensures FirstFailure(outcomes) == i
  {
  }

  /** What api.js returns: [] without a truthy client id or when any subreddit request throws. */
  function AllOrNothingRanking(clientId: Option<string>, outcomes: seq<SubredditOutcome>, localeDate: int -> string)
    : seq<Post>
  {
    if !Truthy(clientId) || FirstFailure(outcomes) < |outcomes| then [] else Rank(Collected(outcomes, localeDate))
  }

  /** The calls api.js issues: none without a client id; otherwise up to and including the first that throws. */
  function AllOrNothingCalls(clientId: Option<string>, query: string, outcomes: seq<SubredditOutcome>): seq<Call>
    requires |outcomes| == |Subreddits|
  {
    if !Truthy(clientId) then []
    else if FirstFailure(outcomes) < |outcomes| then RedditCalls(query, FirstFailure(outcomes) + 1)
    else RedditCalls(query, |outcomes|)
  }

  /** searchReddit of api.js: a throwing subreddit request abandons the loop and every post collected so far. */
  method SearchRedditAllOrNothing(
    clientId: Option<string>, query: string, outcomes: seq<SubredditOutcome>, localeDate: int -> string)
    returns (posts: seq<Post>, calls: seq<Call>)
    requires |outcomes| == |Subreddits|
    ensures posts == AllOrNothingRanking(clientId, outcomes, localeDate)
    ensures calls == AllOrNothingCalls(clientId, query, outcomes)
  {
    if !Truthy(clientId) {
      return [], [];
    }
    var allResults: seq<Post> := [];
    calls := [];
    for i := 0 to |Subreddits|
      invariant allResults == Collected(outcomes[..i], localeDate)
      invariant calls == RedditCalls(query, i)
      invariant FirstFailure(outcomes) >= i
    {
      RedditCallsSnoc(query, i);
      CollectedSnoc(outcomes, i, localeDate);
      calls := calls + [RedditSearch(Subreddits[i], query)];
      var outcome := outcomes[i];
      if outcome.Failed? {
        // the exception leaves the loop for the single catch, which answers []
        assert FirstFailure(outcomes) == i;
        return [], calls;
      }
      if outcome.status == 200 && outcome.children.Some? {
        allResults := allResults + MapPosts(outcome.children.value, localeDate);
      } else {
        assert PostsOf(outcome, localeDate) == [];
      }
    }
    assert outcomes[..|Subreddits|] == outcomes;
    allResults := SortByEngagement(allResults);
    posts := if |allResults| <= MaxPosts then allResults else allResults[..MaxPosts];
    assert posts == Cut(allResults);
  }

  // ----- how the two variants relate -----

  /** When no subreddit request throws and the client id is set, both variants return the same ranking. */
  lemma VariantsAgreeWithoutFailure(clientId: Option<string>, outcomes: seq<SubredditOutcome>, localeDate: int -> string)
    requires Truthy(clientId)
    requires forall j :: 0 <= j < |outcomes| ==> !outcomes[j].Failed?
    ensures AllOrNothingRanking(clientId, outcomes, localeDate) == IsolatedRanking(outcomes, localeDate)
  {
    FirstFailureAt(outcomes, |outcomes|);
  }

  /**
   * One throwing subreddit empties the api.js result, while search.js still ranks the posts of the other
   * subreddits; it returns something whenever another subreddit delivered a post.
   */
  lemma VariantsDivergeOnFailure(outcomes: seq<SubredditOutcome>, i: nat, k: nat, localeDate: int -> string)
    requires i < |outcomes| && outcomes[i].Failed?
    requires k < |outcomes| && k != i && PostsOf(outcomes[k], localeDate) != []
    ensures forall clientId :: AllOrNothingRanking(clientId, outcomes, localeDate) == []
    ensures IsolatedRanking(outcomes, localeDate) != []
  {
    forall clientId: Option<string> ensures AllOrNothingRanking(clientId, outcomes, localeDate) == [] {
      assert FirstFailure(outcomes) <= i < |outcomes|;
    }
    CollectedCovers(outcomes, k, localeDate);
    var all := Collected(outcomes, localeDate);
    assert |all| > 0;
    assert |Rank(all)| == Min(|all|, MaxPosts);
  }

  /** Every outcome's posts appear among the collected posts, between those before and after it. */
  lemma CollectedCovers(outcomes: seq<SubredditOutcome>, k: nat, localeDate: int -> string)
    requires k < |outcomes|
    ensures Collected(outcomes, localeDate)
      == Collected(outcomes[..k], localeDate) + PostsOf(outcomes[k], localeDate)
         + Collected(outcomes[k + 1..], localeDate)
  {
    var before, after := outcomes[..k], outcomes[k + 1..];
    assert outcomes == (before + [outcomes[k]]) + after;
    CollectedAppend(before + [outcomes[k]], after, localeDate);
    CollectedAppend(before, [outcomes[k]], localeDate);
    CollectedSingle(outcomes[k], localeDate);
  }

  lemma InsertExample(a: Post, b: Post)
    requires Engagement(a) < Engagement(b)
    ensures Insert(a, [b]) == [b, a]
  {
    assert [b][1..] == [];
    assert Insert(a, []) == [a];
  }

  lemma SortExample(a: Post, b: Post)
    requires Engagement(a) < Engagement(b)
    ensures SortByEngagement([a, b]) == [b, a]
  {
    assert [b][1..] == [];
    assert SortByEngagement([b]) == Insert(b, []) == [b];
    assert [a, b][1..] == [b];
    assert SortByEngagement([a, b]) == Insert(a, [b]);
    InsertExample(a, b);
  }

  /** Example: a post with score 10 and 5 comments (15) ranks below one with score 3 and 20 comments (23). */
  lemma RankExample(a: Post, b: Post)
    requires a.score == 10 && a.comments == 5 && b.score == 3 && b.comments == 20
    ensures Rank([a, b]) == [b, a]
  {
    assert Engagement(a) == 15 && Engagement(b) == 23;
    SortExample(a, b);
    assert Rank([a, b]) == Cut([b, a]);
  }

  /** Whichever variant produced them, the ranked posts are forum posts from Reddit. */
  lemma RankedPostsAreForum(clientId: Option<string>, outcomes: seq<SubredditOutcome>, localeDate: int -> string)
    ensures forall p :: p in IsolatedRanking(outcomes, localeDate) ==> p.kind == "forum" && p.source == "Reddit"
    ensures forall p :: p in AllOrNothingRanking(clientId, outcomes, localeDate) ==> p.kind == "forum" && p.source == "Reddit"
  {
    var posts := Collected(outcomes, localeDate);
    CollectedAreForum(outcomes, localeDate);
    forall p | p in Rank(posts) ensures p.kind == "forum" && p.source == "Reddit" {
      assert p in multiset(Rank(posts));
      assert p in multiset(posts);
    }
  }
}
