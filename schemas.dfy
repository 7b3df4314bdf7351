/** The shapes of data going in and out of the service: the decoded upstream
    payload, the upstream post record and the response record
    (leanservice/schemas.py). */
module Schemas {
  import opened Wrappers

  /** An absolute URL as the URL validator has parsed it: its full text and its host. */
  datatype Url = Url(text: string, host: string)

  /** JSON as decoded from the upstream body. A string that the URL validator accepts
      is kept apart, as `UrlStr`, together with its parsed form; every other string
      is a `Str`. */
  datatype Json =
    | Null
    | Bool(b: bool)
    | Num(n: int)
    | Str(s: string)
    | UrlStr(url: Url)
    | Arr(items: seq<Json>)
    | Obj(fields: map<string, Json>)

  /** A clock reading, as handed out by the store's clock. */
  type Time = int

  /** A post of the upstream listing: its link relative to the upstream site and,
      optionally, the address of the file it carries. */
  datatype RedditPost = RedditPost(permalink: string, url: Option<Url>)

  /** The host that serves the pictures posted to the upstream site. */
  const PICTURE_HOST := "i.redd.it"

  /** What a permalink is appended to in order to make it absolute. */
  const POST_URL_BASE := "https://www.reddit.com"

  /** A post is a picture when it has a file address served by the picture host. */
  predicate IsPicture(p: RedditPost)
    ensures IsPicture(p) ==> p.url.Some?
    ensures p.url.Some? ==> (IsPicture(p) <==> p.url.value.host == PICTURE_HOST)
  {
    p.url.Some? && p.url.value.host == PICTURE_HOST
  }

  /** The absolute, permanent link to the post. */
  function PostUrl(p: RedditPost): (r: string)
    ensures |r| == |POST_URL_BASE| + |p.permalink|
    ensures r[..|POST_URL_BASE|] == POST_URL_BASE
    ensures r[|POST_URL_BASE|..] == p.permalink
  {
    POST_URL_BASE + p.permalink
  }

  /** Two posts have the same permanent link exactly when their permalinks agree. */
  lemma PostUrlInjective(p: RedditPost, q: RedditPost)
    ensures PostUrl(p) == PostUrl(q) <==> p.permalink == q.permalink
  {
    if PostUrl(p) == PostUrl(q) {
      calc {
        p.permalink;
        PostUrl(p)[|POST_URL_BASE|..];
        PostUrl(q)[|POST_URL_BASE|..];
        q.permalink;
      }
    }
  }

  /** Why a payload could not be turned into posts: a missing key, a value of the
      wrong kind, or a field the post record rejects. */
  datatype ParseError = KeyError(key: string) | TypeError | ValidationError(field: string)

  /** The `permalink` field: required, and a string. */
  function PermalinkField(fields: map<string, Json>): (r: Result<string, ParseError>)
    ensures r.Ok? <==> "permalink" in fields && (fields["permalink"].Str? || fields["permalink"].UrlStr?)
    ensures r.Ok? && fields["permalink"].Str? ==> r.value == fields["permalink"].s
    ensures r.Ok? && fields["permalink"].UrlStr? ==> r.value == fields["permalink"].url.text
    ensures r.Err? ==> r.error == ValidationError("permalink")
  {
    if "permalink" !in fields then Err(ValidationError("permalink"))
    else match fields["permalink"]
      case Str(s) => Ok(s)
      case UrlStr(u) => Ok(u.text)
      case _ => Err(ValidationError("permalink"))
  }

  /** The `url` field: optional, absent or null meaning no address. */
  function UrlField(fields: map<string, Json>): (r: Result<Option<Url>, ParseError>)
    ensures r.Ok? <==> "url" !in fields || fields["url"].Null? || fields["url"].UrlStr?
    ensures r.Ok? ==> (r.value.None? <==> "url" !in fields || fields["url"].Null?)
    ensures r.Ok? && r.value.Some? ==> fields["url"] == UrlStr(r.value.value)
    ensures r.Err? ==> r.error == ValidationError("url")
  {
    if "url" !in fields then Ok(None)
    else match fields["url"]
      case Null => Ok(None)
      case UrlStr(u) => Ok(Some(u))
      case _ => Err(ValidationError("url"))
  }

  /** Build a post from the keyword arguments in `data`: it must be a mapping; the
      `permalink` and `url` fields are validated in that order, every other key is
      ignored. */
  function ParsePost(data: Json): (r: Result<RedditPost, ParseError>)
    ensures !data.Obj? ==> r == Err(TypeError)
    ensures data.Obj? && "permalink" !in data.fields ==> r.Err?
    ensures r.Ok? <==>
      && data.Obj?
      && "permalink" in data.fields
      && (data.fields["permalink"].Str? || data.fields["permalink"].UrlStr?)
      && ("url" !in data.fields || data.fields["url"].Null? || data.fields["url"].UrlStr?)
    ensures r.Ok? && data.fields["permalink"].Str? ==> r.value.permalink == data.fields["permalink"].s
    ensures r.Ok? && data.fields["permalink"].UrlStr? ==> r.value.permalink == data.fields["permalink"].url.text
    ensures r.Ok? ==> data.Obj? && "permalink" in data.fields
    ensures r.Ok? ==> (r.value.url.None? <==> "url" !in data.fields || data.fields["url"] == Null)
    ensures r.Ok? && r.value.url.Some? ==> data.fields["url"] == UrlStr(r.value.url.value)
  {
    match data
    case Obj(fields) =>
      var permalink :- PermalinkField(fields);
      var url :- UrlField(fields);
      Ok(RedditPost(permalink, url))
    case _ => Err(TypeError)
  }

  /** Fields other than `permalink` and `url` make no difference to the parsed post. */
  lemma ParsePostIgnoresOtherFields(f: map<string, Json>, g: map<string, Json>)
    requires "permalink" in f <==> "permalink" in g
    requires "permalink" in f ==> f["permalink"] == g["permalink"]
    requires "url" in f <==> "url" in g
    requires "url" in f ==> f["url"] == g["url"]
    ensures ParsePost(Obj(f)) == ParsePost(Obj(g))
  {
  }

  /** A post whose data has no address, or a null one, is never a picture. */
  lemma NoUrlNeverPicture(f: map<string, Json>)
    requires "url" !in f || f["url"] == Null
    requires ParsePost(Obj(f)).Ok?
    ensures !IsPicture(ParsePost(Obj(f)).value)
  {
  }

  /** An address served by the picture host marks a picture, one on the main site
      does not. */
  lemma PictureHostDecides(permalink: string)
    ensures IsPicture(RedditPost(permalink, Some(Url("https://i.redd.it/address.jpg", "i.redd.it"))))
    ensures !IsPicture(RedditPost(permalink, Some(Url("https://www.reddit.com/address/to/post", "www.reddit.com"))))
    ensures !IsPicture(RedditPost(permalink, None))
  {
  }

  /** The response record: the picture's address, the post's link and when it was picked. */
  datatype Picture = Picture(url: string, postUrl: string, createdAt: Time)
}
