/** The `/random` endpoint: ask the upstream site for one page of a listing,
    classify its answer, keep the picture posts, pick one and record it in the
    history (leanservice/routers/random.py). */
module RandomRouter {
  import opened Wrappers
  import opened Settings
  import opened Schemas
  import opened Models
  import opened Crud

  // ---------------------------------------------------------------------------
  // The upstream request

  const LISTING_URL_BASE := "http://www.reddit.com/r/"

  /** The page size asked for: the most the upstream site hands out at once. */
  const PAGE_LIMIT := "100"

  /** The part of a listing address that follows the subreddit. */
  function UrlTail(listing: Listing): (t: string)
    ensures |t| == |Value(listing)| + 6
    ensures t[0] == '/' && t[1..|t| - 5] == Value(listing) && t[|t| - 5..] == ".json"
  {
    "/" + ToString(listing) + ".json"
  }

  /** The address of a subreddit's listing page. */
  function ListingUrl(subreddit: string, listing: Listing): (url: string)
    ensures |url| == |LISTING_URL_BASE| + |subreddit| + |UrlTail(listing)|
    ensures url[..|LISTING_URL_BASE|] == LISTING_URL_BASE
    ensures url[|LISTING_URL_BASE|..|LISTING_URL_BASE| + |subreddit|] == subreddit
    ensures url[|LISTING_URL_BASE| + |subreddit|..] == UrlTail(listing)
  {
    LISTING_URL_BASE + subreddit + UrlTail(listing)
  }

  /** An outgoing GET: the address and the query parameters. */
  datatype Request = Request(url: string, params: map<string, string>)

  /** The one request sent upstream for a subreddit and listing. */
  function ListingRequest(subreddit: string, listing: Listing): (r: Request)
    ensures r.params.Keys == {"limit"} && r.params["limit"] == "100"
    ensures r.url == ListingUrl(subreddit, listing)
  {
    Request(ListingUrl(subreddit, listing), map["limit" := PAGE_LIMIT])
  }

  /** No listing value holds a slash. */
  lemma NoSlashInValue(l: Listing, i: int)
    requires 0 <= i < |Value(l)|
    ensures Value(l)[i] != '/'
  {
    ValuesAreLowerCase(l);
  }

  lemma {:induction false} SameTail(a: string, b: string, l1: Listing, l2: Listing)
    requires a + UrlTail(l1) == b + UrlTail(l2)
    ensures a == b && l1 == l2
  {
    var u := a + UrlTail(l1);
    var t1, t2 := UrlTail(l1), UrlTail(l2);
    if |t1| < |t2| {
      var q := |u| - |t1|;
      assert u[q] == t1[0] == '/';
      var i := q - |b|;
      assert 1 <= i < |t2| - 5;
      assert u[q] == t2[i] == t2[1..|t2| - 5][i - 1];
      NoSlashInValue(l2, i - 1);
    } else if |t2| < |t1| {
      var q := |u| - |t2|;
      assert u[q] == t2[0] == '/';
      var i := q - |a|;
      assert 1 <= i < |t1| - 5;
      assert u[q] == t1[i] == t1[1..|t1| - 5][i - 1];
      NoSlashInValue(l1, i - 1);
    } else {
      assert a == u[..|a|] == b;
      assert t1 == u[|a|..] == t2;
      assert Value(l1) == t1[1..|t1| - 5] == Value(l2);
    }
  }

  /** Different subreddits, or different listings, are never sent to the same address. */
  lemma ListingUrlInjective(s1: string, l1: Listing, s2: string, l2: Listing)
    ensures ListingUrl(s1, l1) == ListingUrl(s2, l2) <==> s1 == s2 && l1 == l2
  {
    if ListingUrl(s1, l1) == ListingUrl(s2, l2) {
      assert (LISTING_URL_BASE + s1) + UrlTail(l1) == (LISTING_URL_BASE + s2) + UrlTail(l2);
      SameTail(LISTING_URL_BASE + s1, LISTING_URL_BASE + s2, l1, l2);
      assert s1 == (LISTING_URL_BASE + s1)[|LISTING_URL_BASE|..];
      assert s2 == (LISTING_URL_BASE + s2)[|LISTING_URL_BASE|..];
    }
  }

  // ---------------------------------------------------------------------------
  // Classifying the upstream answer

  /** What the upstream site answered: its status, the path of the address the
      answer finally came from (after redirects), and the decoded body. */
  datatype Response = Response(status: int, path: string, body: Json)

  /** The `detail` carried by an HTTP error raised to the client. */
  datatype Detail =
    | NoSuchSubreddit(subreddit: string)
    | PrivateSubreddit(subreddit: string)
    | RedditError(upstreamStatus: int)
    | NoPicturePosts(subreddit: string, listing: Listing)

  /** An HTTP error raised to the client: its status code and detail. */
  datatype HttpException = HttpException(status: int, detail: Detail)

  /** `t in s` on strings: `t` occurs in `s` as a contiguous block. */
  predicate HasSubstring(s: string, t: string)
    decreases |s|
  {
    if |s| < |t| then false
    else s[..|t|] == t || (|s| > 0 && HasSubstring(s[1..], t))
  }

  /** `t` occurs in `s` starting at position `i`. */
  ghost predicate OccursAt(s: string, t: string, i: int) {
    0 <= i <= |s| - |t| && s[i..i + |t|] == t
  }

  /** The search agrees with the definition of an occurrence at some position. */
  lemma {:induction false} HasSubstringIff(s: string, t: string)
    ensures HasSubstring(s, t) <==> exists i :: OccursAt(s, t, i)
    decreases |s|
  {
    if |s| < |t| {
    } else if s[..|t|] == t {
      assert OccursAt(s, t, 0);
    } else if |s| == 0 {
    } else {
      HasSubstringIff(s[1..], t);
      if HasSubstring(s[1..], t) {
        var i :| OccursAt(s[1..], t, i);
        assert s[i + 1..i + 1 + |t|] == s[1..][i..i + |t|];
        assert OccursAt(s, t, i + 1);
      } else {
        forall i | OccursAt(s, t, i)
          ensures false
        {
          assert i != 0;
          assert s[i..i + |t|] == s[1..][i - 1..i - 1 + |t|];
          assert OccursAt(s[1..], t, i - 1);
        }
      }
    }
  }

  /** A path the upstream site redirects to when a subreddit does not exist. */
  const SEARCH_PATH := "subreddits/search"

  /** The status check on the upstream answer, in the order the branches are tried. */
  function FetchOutcome(subreddit: string, response: Response): (r: Result<Json, HttpException>)
    ensures r.Ok? <==>
      !(response.status == 404 || HasSubstring(response.path, SEARCH_PATH)) &&
      response.status != 403 && response.status < 500
    ensures r.Ok? ==> r.value == response.body
    ensures r.Err? ==> r.error.status in {404, 403, 503}
    ensures r.Err? && r.error.status == 404 <==> response.status == 404 || HasSubstring(response.path, SEARCH_PATH)
    ensures r.Err? && r.error.status == 404 ==> r.error.detail == NoSuchSubreddit(subreddit)
    ensures r.Err? && r.error.status == 403 ==> r.error.detail == PrivateSubreddit(subreddit)
    ensures r.Err? && r.error.status == 503 ==> r.error.detail == RedditError(response.status)
    ensures !(response.status == 404 || HasSubstring(response.path, SEARCH_PATH)) && response.status == 403 ==>
              r == Err(HttpException(403, PrivateSubreddit(subreddit)))
    ensures !(response.status == 404 || HasSubstring(response.path, SEARCH_PATH)) && response.status >= 500 ==>
              r == Err(HttpException(503, RedditError(response.status)))
  {
    if response.status == 404 || HasSubstring(response.path, SEARCH_PATH) then
      Err(HttpException(404, NoSuchSubreddit(subreddit)))
    else if response.status == 403 then
      Err(HttpException(403, PrivateSubreddit(subreddit)))
    else if response.status >= 500 then
      Err(HttpException(503, RedditError(response.status)))
    else
      Ok(response.body)
  }

  /** A redirect to the search page means "no such subreddit" whatever the status. */
  lemma SearchRedirectIsNotFound(subreddit: string, status: int, prefix: string, suffix: string, body: Json)
    ensures FetchOutcome(subreddit, Response(status, prefix + SEARCH_PATH + suffix, body)) ==
            Err(HttpException(404, NoSuchSubreddit(subreddit)))
  {
    var path := prefix + SEARCH_PATH + suffix;
    assert path[|prefix|..|prefix| + |SEARCH_PATH|] == SEARCH_PATH;
    assert OccursAt(path, SEARCH_PATH, |prefix|);
    HasSubstringIff(path, SEARCH_PATH);
  }

  /** Away from the search page: 403 is "private", every server error is
      "unavailable", and success, redirect and client-error statuses other than
      404 and 403 all pass the body through. */
  lemma StatusExamples(subreddit: string, path: string, body: Json)
    requires !HasSubstring(path, SEARCH_PATH)
    ensures FetchOutcome(subreddit, Response(403, path, body)).error.status == 403
    ensures forall s :: 500 <= s ==> FetchOutcome(subreddit, Response(s, path, body)).error.status == 503
    ensures forall s :: s in {200, 302, 400, 429} ==> FetchOutcome(subreddit, Response(s, path, body)) == Ok(body)
  {
  }

  // ---------------------------------------------------------------------------
  // Keeping the picture posts

  /** The entries that `for item in listing` visits, provided each can then be
      subscripted by a key. Iterating a mapping visits its keys and a string its
      characters, which cannot be subscripted by a key; so only an empty mapping or
      an empty string yield no error. */
  function Iterate(listing: Json): (r: Result<seq<Json>, ParseError>)
    ensures r.Ok? <==> listing.Arr? || listing == Obj(map[]) || listing == Str("")
    ensures listing.Arr? ==> r == Ok(listing.items)
    ensures r.Ok? ==> (listing.Arr? && r.value == listing.items) || r.value == []
  {
    match listing
    case Arr(items) => Ok(items)
    case Obj(fields) => if fields == map[] then Ok([]) else Err(TypeError)
    case Str(s) => if s == "" then Ok([]) else Err(TypeError)
    case _ => Err(TypeError)
  }

  /** `response["data"]["children"]`, iterated. */
  function Children(response: Json): (r: Result<seq<Json>, ParseError>)
    ensures !response.Obj? ==> r == Err(TypeError)
    ensures response.Obj? && "data" !in response.fields ==> r == Err(KeyError("data"))
    ensures (response.Obj? && "data" in response.fields && response.fields["data"].Obj? &&
             "children" !in response.fields["data"].fields) ==> r == Err(KeyError("children"))
    ensures response.Obj? && "data" in response.fields && !response.fields["data"].Obj? ==> r == Err(TypeError)
    ensures (response.Obj? && "data" in response.fields && response.fields["data"].Obj? &&
             "children" in response.fields["data"].fields &&
             response.fields["data"].fields["children"].Arr?) ==>
              r == Ok(response.fields["data"].fields["children"].items)
  {
    match response
    case Obj(top) =>
      if "data" !in top then Err(KeyError("data"))
      else
        (match top["data"]
         case Obj(data) =>
           if "children" !in data then Err(KeyError("children"))
           else Iterate(data["children"])
         case _ => Err(TypeError))
    case _ => Err(TypeError)
  }

  /** `RedditPost(**item["data"])`. */
  function ItemPost(item: Json): (r: Result<RedditPost, ParseError>)
    ensures item.Obj? && "data" in item.fields ==> r == ParsePost(item.fields["data"])
    ensures item.Obj? && "data" !in item.fields ==> r == Err(KeyError("data"))
    ensures !item.Obj? ==> r == Err(TypeError)
  {
    match item
    case Obj(fields) => if "data" in fields then ParsePost(fields["data"]) else Err(KeyError("data"))
    case _ => Err(TypeError)
  }

  /** Every entry turned into a post, in order; the first entry that cannot be turned
      into one fails the whole conversion. */
  function ParsePosts(items: seq<Json>): (r: Result<seq<RedditPost>, ParseError>)
    ensures r.Ok? <==> forall i :: 0 <= i < |items| ==> ItemPost(items[i]).Ok?
    ensures r.Ok? ==> |r.value| == |items|
    ensures r.Ok? ==> forall i :: 0 <= i < |items| ==> r.value[i] == ItemPost(items[i]).value
    ensures r.Err? ==> exists i :: 0 <= i < |items| && ItemPost(items[i]) == Err(r.error) &&
                         forall j :: 0 <= j < i ==> ItemPost(items[j]).Ok?
  {
    if items == [] then Ok([])
    else
      var first :- ItemPost(items[0]);
      var rest := ParsePosts(items[1..]);
      if rest.Err? then
        var i :| 0 <= i < |items[1..]| && ItemPost(items[1..][i]) == Err(rest.error) &&
                 forall j :: 0 <= j < i ==> ItemPost(items[1..][j]).Ok?;
        assert ItemPost(items[i + 1]) == Err(rest.error);
        Err(rest.error)
      else
        Ok([first] + rest.value)
  }

  /** The picture posts, in listing order. */
  function FilterPictures(posts: seq<RedditPost>): (r: seq<RedditPost>)
    ensures |r| <= |posts|
    ensures forall p :: p in r ==> IsPicture(p) && p in posts
    ensures forall p :: multiset(r)[p] == if IsPicture(p) then multiset(posts)[p] else 0
  {
    if posts == [] then []
    else
      assert posts == [posts[0]] + posts[1..];
      (if IsPicture(posts[0]) then [posts[0]] else []) + FilterPictures(posts[1..])
  }

  /** `r` holds the posts of `posts` at the positions `idx`. */
  ghost predicate PostsAt(posts: seq<RedditPost>, r: seq<RedditPost>, idx: seq<nat>) {
    && |idx| == |r|
    && forall k :: 0 <= k < |idx| ==> idx[k] < |posts| && r[k] == posts[idx[k]]
  }

  ghost predicate Increasing(idx: seq<nat>) {
    forall a, b :: 0 <= a < b < |idx| ==> idx[a] < idx[b]
  }

  /** `idx` lists the positions of the picture posts and no other. */
  ghost predicate PicturePositions(posts: seq<RedditPost>, idx: seq<nat>) {
    forall i :: 0 <= i < |posts| ==> (IsPicture(posts[i]) <==> i in idx)
  }

  /** `idx` lists, in increasing order, exactly the positions of the picture posts,
      and `r` holds the posts at those positions. */
  ghost predicate SelectedBy(posts: seq<RedditPost>, r: seq<RedditPost>, idx: seq<nat>) {
    PostsAt(posts, r, idx) && Increasing(idx) && PicturePositions(posts, idx)
  }

  /** Positions in `idx` moved one place to the right. */
  function Shift(idx: seq<nat>): (r: seq<nat>)
    ensures |r| == |idx|
    ensures forall k :: 0 <= k < |idx| ==> r[k] == idx[k] + 1
  {
    seq(|idx|, k requires 0 <= k < |idx| => idx[k] + 1)
  }

  /** The front position prepended, when the front post is a picture. */
  function ConsIndex(front: bool, idx: seq<nat>): seq<nat> {
    if front then [0] + Shift(idx) else Shift(idx)
  }

  lemma PostsAtCons(p: RedditPost, rest: seq<RedditPost>, r: seq<RedditPost>, idx: seq<nat>)
    requires PostsAt(rest, r, idx)
    ensures PostsAt([p] + rest, if IsPicture(p) then [p] + r else r, ConsIndex(IsPicture(p), idx))
  {
    var posts := [p] + rest;
    var r2 := if IsPicture(p) then [p] + r else r;
    var idx2 := ConsIndex(IsPicture(p), idx);
    forall k | 0 <= k < |idx2|
      ensures idx2[k] < |posts| && r2[k] == posts[idx2[k]]
    {
      if IsPicture(p) && k > 0 {
        assert idx2[k] == idx[k - 1] + 1;
        assert r2[k] == r[k - 1];
      } else if !IsPicture(p) {
        assert idx2[k] == idx[k] + 1;
      }
    }
  }

  lemma IncreasingCons(front: bool, idx: seq<nat>)
    requires Increasing(idx)
    ensures Increasing(ConsIndex(front, idx))
  {
    var idx2 := ConsIndex(front, idx);
    forall a, b | 0 <= a < b < |idx2|
      ensures idx2[a] < idx2[b]
    {
      if front && a > 0 {
        assert idx2[a] == idx[a - 1] + 1 && idx2[b] == idx[b - 1] + 1;
      } else if !front {
        assert idx2[a] == idx[a] + 1 && idx2[b] == idx[b] + 1;
      }
    }
  }

  /** Shifting moves every position up by one, so position 0 is never among them. */
  lemma ShiftMembers(idx: seq<nat>, i: nat)
    ensures i + 1 in Shift(idx) <==> i in idx
    ensures 0 !in Shift(idx)
  {
    var shifted := Shift(idx);
    if i in idx {
      var k :| 0 <= k < |idx| && idx[k] == i;
      assert shifted[k] == i + 1;
    }
    if i + 1 in shifted {
      var k :| 0 <= k < |shifted| && shifted[k] == i + 1;
      assert idx[k] == i;
    }
  }

  lemma PicturePositionsCons(p: RedditPost, rest: seq<RedditPost>, idx: seq<nat>)
    requires PicturePositions(rest, idx)
    ensures PicturePositions([p] + rest, ConsIndex(IsPicture(p), idx))
  {
    var posts := [p] + rest;
    var idx2 := ConsIndex(IsPicture(p), idx);
    forall i | 0 <= i < |posts|
      ensures IsPicture(posts[i]) <==> i in idx2
    {
      if i == 0 {
        ShiftMembers(idx, 0);
      } else {
        ShiftMembers(idx, i - 1);
        assert posts[i] == rest[i - 1];
        assert i in idx2 <==> i in Shift(idx);
      }
    }
  }

  /** The filter keeps precisely the picture posts and keeps them in listing order:
      its result is the subsequence of the listing at the picture positions. */
  lemma {:induction false} FilterPicturesSelects(posts: seq<RedditPost>)
    ensures exists idx :: SelectedBy(posts, FilterPictures(posts), idx)
  {
    if posts == [] {
      var none: seq<nat> := [];
      assert SelectedBy(posts, FilterPictures(posts), none);
    } else {
      var rest := posts[1..];
      assert posts == [posts[0]] + rest;
      FilterPicturesSelects(rest);
      var idx :| SelectedBy(rest, FilterPictures(rest), idx);
      var p := posts[0];
      PostsAtCons(p, rest, FilterPictures(rest), idx);
      IncreasingCons(IsPicture(p), idx);
      PicturePositionsCons(p, rest, idx);
      assert FilterPictures(posts) == if IsPicture(p) then [p] + FilterPictures(rest) else FilterPictures(rest);
      assert SelectedBy(posts, FilterPictures(posts), ConsIndex(IsPicture(p), idx));
    }
  }

  /** Filtering distributes over concatenation: how picture and other posts are
      interleaved makes no difference to which pictures come out. */
  lemma {:induction false} FilterPicturesAppend(a: seq<RedditPost>, b: seq<RedditPost>)
    ensures FilterPictures(a + b) == FilterPictures(a) + FilterPictures(b)
  {
    if a == [] {
      assert a + b == b;
    } else {
      assert (a + b)[1..] == a[1..] + b;
      FilterPicturesAppend(a[1..], b);
    }
  }

  /** The picture posts of an upstream listing. */
  function GetPicturePosts(response: Json): (r: Result<seq<RedditPost>, ParseError>)
    ensures r.Ok? <==> Children(response).Ok? && ParsePosts(Children(response).value).Ok?
    ensures r.Ok? ==> r.value == FilterPictures(ParsePosts(Children(response).value).value)
    ensures r.Ok? ==> |r.value| <= |Children(response).value|
    ensures r.Ok? ==> forall p :: p in r.value ==> IsPicture(p)
    ensures r.Ok? ==>
              forall i :: (0 <= i < |Children(response).value| &&
                           IsPicture(ItemPost(Children(response).value[i]).value)) ==>
                ItemPost(Children(response).value[i]).value in r.value
  {
    var children :- Children(response);
    var posts :- ParsePosts(children);
    assert forall i :: 0 <= i < |children| ==> posts[i] in posts;
    Ok(FilterPictures(posts))
  }

  /** One entry that is not a valid post fails the whole call: no entry is skipped. */
  lemma OneBadEntryFailsAll(response: Json, i: nat)
    requires Children(response).Ok? && i < |Children(response).value|
    requires ItemPost(Children(response).value[i]).Err?
    ensures GetPicturePosts(response).Err?
  {
  }

  /** A listing page holding just its kind and its entries. */
  function ListingPage(children: seq<Json>): (page: Json)
    ensures Children(page) == Ok(children)
  {
    Obj(map["kind" := Str("Listing"), "data" := Obj(map["children" := Arr(children)])])
  }

  /** However picture entries and other entries are shuffled together, as many posts
      come out as there are picture entries. */
  lemma {:induction false} FilterCountTwoKinds(posts: seq<RedditPost>, pp: RedditPost, npp: RedditPost)
    requires IsPicture(pp) && !IsPicture(npp)
    requires forall p :: p in posts ==> p == pp || p == npp
    ensures |FilterPictures(posts)| == multiset(posts)[pp]
  {
    if posts != [] {
      var rest := posts[1..];
      assert posts == [posts[0]] + rest;
      assert posts[0] in posts;
      assert forall x :: x in rest ==> x in posts;
      FilterCountTwoKinds(rest, pp, npp);
      assert multiset(posts)[pp] == multiset([posts[0]])[pp] + multiset(rest)[pp];
    }
  }

  lemma {:induction false} PictureCountOfEntries(children: seq<Json>, pic: Json, other: Json)
    requires ItemPost(pic).Ok? && IsPicture(ItemPost(pic).value)
    requires ItemPost(other).Ok? && !IsPicture(ItemPost(other).value)
    requires forall c :: c in children ==> c == pic || c == other
    ensures ParsePosts(children).Ok?
    ensures multiset(ParsePosts(children).value)[ItemPost(pic).value] == multiset(children)[pic]
  {
    if children == [] {
      assert ParsePosts(children) == Ok([]);
    } else {
      var c := children[0];
      var rest := children[1..];
      assert children == [c] + rest;
      assert c in children;
      assert forall x :: x in rest ==> x in children;
      PictureCountOfEntries(rest, pic, other);
      var restPosts := ParsePosts(rest).value;
      var post := ItemPost(c).value;
      assert ParsePosts(children) == Ok([post] + restPosts);
      assert post == ItemPost(pic).value <==> c == pic;
      assert multiset(children)[pic] == multiset([c])[pic] + multiset(rest)[pic];
      assert multiset([post] + restPosts) == multiset([post]) + multiset(restPosts);
    }
  }

  /** Entries of two kinds parse into posts of the same two kinds. */
  lemma ParsedFromTwoKinds(children: seq<Json>, pic: Json, other: Json)
    requires ParsePosts(children).Ok? && ItemPost(pic).Ok? && ItemPost(other).Ok?
    requires forall c :: c in children ==> c == pic || c == other
    ensures forall p :: p in ParsePosts(children).value ==> p == ItemPost(pic).value || p == ItemPost(other).value
  {
    var posts := ParsePosts(children).value;
    forall p | p in posts
      ensures p == ItemPost(pic).value || p == ItemPost(other).value
    {
      var i :| 0 <= i < |posts| && posts[i] == p;
      assert children[i] in children;
    }
  }

  /** However picture entries and other entries are shuffled together in a listing
      page, as many posts come out as there are picture entries. */
  lemma PictureCountOfListing(children: seq<Json>, pic: Json, other: Json)
    requires ItemPost(pic).Ok? && IsPicture(ItemPost(pic).value)
    requires ItemPost(other).Ok? && !IsPicture(ItemPost(other).value)
    requires forall c :: c in children ==> c == pic || c == other
    ensures GetPicturePosts(ListingPage(children)).Ok?
    ensures |GetPicturePosts(ListingPage(children)).value| == multiset(children)[pic]
  {
    PictureCountOfEntries(children, pic, other);
    ParsedFromTwoKinds(children, pic, other);
    FilterCountTwoKinds(ParsePosts(children).value, ItemPost(pic).value, ItemPost(other).value);
  }

  // ---------------------------------------------------------------------------
  // The handler

  /** The subreddit asked for, or the configured default when none (or an empty
      name) is given. */
  function ChosenSubreddit(sub: Option<string>, config: Settings): (s: string)
    ensures sub.Some? && sub.value != "" ==> s == sub.value
    ensures sub.None? || sub.value == "" ==> s == config.defaultSubreddit
  {
    if sub.Some? && sub.value != "" then sub.value else config.defaultSubreddit
  }

  /** The listing asked for, or the configured default. */
  function ChosenListing(listing: Option<Listing>, config: Settings): (l: Listing)
    ensures listing.Some? ==> l == listing.value
    ensures listing.None? ==> l == config.defaultListing
  {
    if listing.Some? then listing.value else config.defaultListing
  }

  /** How a `/random` request ends: the stored row is served, an HTTP error is raised,
      or the payload could not be read (an unhandled error, which the framework turns
      into a server error). */
  datatype Outcome = Served(row: Row) | Raised(error: HttpException) | Crashed(cause: ParseError)

  /** The random pick stands for a position among the picture posts, when there are any. */
  predicate ValidChoice(body: Json, choice: nat) {
    match GetPicturePosts(body)
    case Ok(posts) => posts == [] || choice < |posts|
    case Err(_) => true
  }

  /** `GET /random`: fetch the listing, keep its pictures, pick the one at `choice`
      and record it. `upstream` is what the upstream site answered to `request`;
      `freshId` and `now` are the generated identifier and the clock reading. */
  method Random(db: HistoryTable, sub: Option<string>, listing: Option<Listing>, config: Settings,
                upstream: Response, choice: nat, freshId: string, now: Time)
    returns (request: Request, outcome: Outcome)
    requires db.Valid()
    requires freshId !in Ids(db.rows)
    requires ValidChoice(upstream.body, choice)
    modifies db
    ensures db.Valid()
    ensures request == ListingRequest(ChosenSubreddit(sub, config), ChosenListing(listing, config))
    ensures FetchOutcome(ChosenSubreddit(sub, config), upstream).Err? ==>
              outcome == Raised(FetchOutcome(ChosenSubreddit(sub, config), upstream).error)
    ensures FetchOutcome(ChosenSubreddit(sub, config), upstream).Ok? &&
            GetPicturePosts(upstream.body).Err? ==>
              outcome == Crashed(GetPicturePosts(upstream.body).error)
    ensures FetchOutcome(ChosenSubreddit(sub, config), upstream).Ok? &&
            GetPicturePosts(upstream.body) == Ok([]) ==>
              outcome == Raised(HttpException(404, NoPicturePosts(ChosenSubreddit(sub, config),
                                                                  ChosenListing(listing, config))))
    ensures outcome.Served? <==>
              FetchOutcome(ChosenSubreddit(sub, config), upstream).Ok? &&
              GetPicturePosts(upstream.body).Ok? && GetPicturePosts(upstream.body).value != []
    ensures !outcome.Served? ==> db.rows == old(db.rows)
    ensures outcome.Served? ==>
              var posts := GetPicturePosts(upstream.body).value;
              && choice < |posts|
              && outcome.row == NewRow(UrlText(posts[choice]), PostUrl(posts[choice]), freshId, now)
              && db.rows == old(db.rows) + [outcome.row]
    ensures outcome.Served? ==>
              exists post :: post in GetPicturePosts(upstream.body).value && IsPicture(post) &&
                             outcome.row.url == UrlText(post) && outcome.row.postUrl == PostUrl(post)
    ensures outcome.Served? ==> ToPicture(outcome.row).Some?
  {
    var subreddit := ChosenSubreddit(sub, config);
    var chosen := ChosenListing(listing, config);
    request := ListingRequest(subreddit, chosen);
    var fetched := FetchOutcome(subreddit, upstream);
    if fetched.Err? {
      return request, Raised(fetched.error);
    }
    var parsed := GetPicturePosts(fetched.value);
    if parsed.Err? {
      return request, Crashed(parsed.error);
    }
    var posts := parsed.value;
    if posts == [] {
      return request, Raised(HttpException(404, NoPicturePosts(subreddit, chosen)));
    }
    var post := posts[choice];
    assert post in posts;
    var row := db.AddToHistory(post, freshId, now);
    outcome := Served(row);
  }

  // ---------------------------------------------------------------------------
  // Scenarios

  const PICTURE_ENTRY := Obj(map["kind" := Str("t3"), "data" := Obj(map[
    "url" := UrlStr(Url("https://i.redd.it/address.jpg", "i.redd.it")),
    "permalink" := Str("/r/subreddit/comments/code/title/")])])

  const LINK_ENTRY := Obj(map["kind" := Str("t3"), "data" := Obj(map[
    "url" := UrlStr(Url("https://www.reddit.com/address/to/post", "www.reddit.com")),
    "permalink" := Str("/r/subreddit/comments/code/title/")])])

  const PICTURE_POST := RedditPost("/r/subreddit/comments/code/title/",
                                    Some(Url("https://i.redd.it/address.jpg", "i.redd.it")))

  /** The path of the default listing page. */
  const DEFAULT_PAGE_PATH := "/r/dankmemes/new.json"

  lemma EntriesParse()
    ensures ItemPost(PICTURE_ENTRY) == Ok(PICTURE_POST) && IsPicture(PICTURE_POST)
    ensures ItemPost(LINK_ENTRY).Ok? && !IsPicture(ItemPost(LINK_ENTRY).value)
  {
  }

  /** No occurrence can start where the first character of `t` is absent. */
  lemma {:induction false} NoOccurrence(s: string, t: string)
    requires |t| > 0
    requires forall i :: 0 <= i <= |s| - |t| ==> s[i] != t[0]
    ensures !HasSubstring(s, t)
    decreases |s|
  {
    if |s| >= |t| {
      assert s[..|t|][0] != t[0];
      assert forall i :: 0 <= i <= |s[1..]| - |t| ==> s[1..][i] == s[i + 1];
      NoOccurrence(s[1..], t);
    }
  }

  /** The default page, answered with 200, passes the status check. */
  lemma DefaultPageFetched(body: Json)
    ensures FetchOutcome("dankmemes", Response(200, DEFAULT_PAGE_PATH, body)) == Ok(body)
  {
    NoOccurrence(DEFAULT_PAGE_PATH, SEARCH_PATH);
  }

  lemma DefaultRequest(config: Settings)
    requires config.defaultSubreddit == "dankmemes" && config.defaultListing == NEW
    ensures ListingRequest(ChosenSubreddit(None, config), ChosenListing(None, config)).url ==
            "http://www.reddit.com/r/dankmemes/new.json"
  {
    assert ChosenSubreddit(None, config) == "dankmemes" && ChosenListing(None, config) == NEW;
    assert UrlTail(NEW) == "/new.json";
    assert ListingUrl("dankmemes", NEW) == LISTING_URL_BASE + "dankmemes" + "/new.json";
  }

  lemma PicturePostUrl()
    ensures PostUrl(PICTURE_POST) == POST_URL_BASE + "/r/subreddit/comments/code/title/"
    ensures UrlText(PICTURE_POST) == Some("https://i.redd.it/address.jpg")
  {
  }

  /** A listing page as the upstream site serves it, with `dist`, its count of entries. */
  function FixturePage(children: seq<Json>): (page: Json)
    ensures Children(page) == Ok(children)
  {
    Obj(map["kind" := Str("Listing"),
            "data" := Obj(map["dist" := Num(|children|), "children" := Arr(children)])])
  }

  lemma OnePicturePage()
    ensures GetPicturePosts(FixturePage([PICTURE_ENTRY])) == Ok([PICTURE_POST])
  {
    var entries := [PICTURE_ENTRY];
    EntriesParse();
    assert forall i :: 0 <= i < |entries| ==> ItemPost(entries[i]).Ok?;
    assert ParsePosts(entries).value == [PICTURE_POST];
    assert [PICTURE_POST][1..] == [];
  }

  lemma LinkPage()
    ensures GetPicturePosts(FixturePage([LINK_ENTRY])) == Ok([])
  {
    var entries := [LINK_ENTRY];
    EntriesParse();
    var link := ItemPost(LINK_ENTRY).value;
    assert forall i :: 0 <= i < |entries| ==> ItemPost(entries[i]).Ok?;
    assert ParsePosts(entries).value == [link];
    assert [link][1..] == [];
  }

  /** With the default settings and no query, a subreddit whose page holds one picture
      answers with that picture, and the history then holds exactly its entry. */
  method PictureScenario(freshId: string, now: Time)
    returns (request: Request, served: Option<Picture>, history: seq<HistoryEntry>)
    ensures request.url == "http://www.reddit.com/r/dankmemes/new.json"
    ensures served == Some(Picture("https://i.redd.it/address.jpg",
                                   POST_URL_BASE + "/r/subreddit/comments/code/title/", now))
    ensures history == [HistoryEntry(Some("https://i.redd.it/address.jpg"),
                                     POST_URL_BASE + "/r/subreddit/comments/code/title/", now)]
  {
    var config := Settings("dankmemes", NEW, "sqlite://", PROD);
    var db := new HistoryTable();
    var body := FixturePage([PICTURE_ENTRY]);
    OnePicturePage();
    DefaultPageFetched(body);
    DefaultRequest(config);
    PicturePostUrl();
    var outcome;
    request, outcome := Random(db, None, None, config, Response(200, DEFAULT_PAGE_PATH, body), 0, freshId, now);
    served := ToPicture(outcome.row);
    history := db.GetHistory();
    assert Summary(outcome.row) in history;
  }

  /** A page without pictures answers "not found" and leaves the history empty. */
  method NoPictureScenario(freshId: string, now: Time)
    returns (outcome: Outcome, history: seq<HistoryEntry>)
    ensures outcome == Raised(HttpException(404, NoPicturePosts("dankmemes", NEW)))
    ensures history == []
  {
    var config := Settings("dankmemes", NEW, "sqlite://", PROD);
    var db := new HistoryTable();
    var body := FixturePage([LINK_ENTRY]);
    LinkPage();
    DefaultPageFetched(body);
    var request;
    request, outcome := Random(db, None, None, config, Response(200, DEFAULT_PAGE_PATH, body), 0, freshId, now);
    history := db.GetHistory();
  }
}
