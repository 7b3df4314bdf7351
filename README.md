# leanservice: the random-picture pipeline and its history table, in Dafny

leanservice is a small web service. `GET /random` asks the upstream site
(reddit) for one page of a subreddit's listing. It checks the answer's
status, keeps the posts whose file is served by the picture host `i.redd.it`,
picks one at random and records it in the `history` table. The row it
inserted is the response. This project models that pipeline, the table, the
post and response records, and the configuration (the `Listing` and `Env`
enums and the settings defaults).

Modules, one per source file:

- `Wrappers` (wrappers.dfy): `Option` and `Result`.
- `Settings` (settings.dfy): `Env`, `Listing` and its lookup by value with
  the `_missing_` fallback, and the settings record with its defaults.
- `Schemas` (schemas.dfy): the decoded upstream payload (`Json`), the parsed
  URL (`Url`), the post record `RedditPost`, and the response record
  `Picture`.
- `Models` (models.dfy): the `history` row and its insert-time defaults.
- `Crud` (crud.dfy): the class `HistoryTable`. It holds the rows as a
  sequence. `AddToHistory` appends one row; `GetHistory` reads them all.
- `RandomRouter` (random.dfy): the upstream request, the status check, the
  picture filter, the `/random` handler, and two scenarios taken from the
  tests.

Inputs the service gets from outside are parameters of the model:

- the upstream answer: `Response(status, path, body)`, with the body
  already decoded;
- the random pick: an index `choice` into the picture list;
- the generated row id (`freshId`) and the clock reading (`now`);
- the environment variables, as a map.

Behaviour of the code that the model keeps as it is:

- An upstream status other than 404, 403 or 500 and above (302, 400, 429, …)
  is not an error. The decoded body is returned as it is
  (leanservice/routers/random.py:60-61).
- One entry that does not make a valid post fails the whole call. No entry
  is skipped (leanservice/routers/random.py:80).
- The random pick is made only after the empty list has been answered with
  404, and a store error during the insert is not caught
  (leanservice/routers/random.py:100-109).
- The history query has no ORDER BY, so the order of its rows is not fixed
  (leanservice/crud.py:30-37).
- The listing lookup meant to be case-insensitive is case-sensitive in
  effect (see Findings).

## Model

| member | source | states |
|---|---|---|
| `Settings.EnvFromValue` | leanservice/settings.py:8-13 | `Env(value)` succeeds exactly for "DEV", "PROD" and "TEST", and gives the member with that value |
| `Settings.MembersAreTheListings` | leanservice/settings.py:16-24 | `Listing` has exactly six members; every member is visited by iteration; no two share a value |
| `Settings.ValuesAreLowerCase` | leanservice/settings.py:19-24 | every member value is a non-empty word of lower-case letters |
| `Settings.ToString` | leanservice/settings.py:26-28 | `str(member)` is a non-empty string that names exactly that member: it is the value of that member and of no other |
| `Settings.Missing` | leanservice/settings.py:31-37 | the hook finds a member iff some member's value equals the upper-cased input, and then gives that member |
| `Settings.Find` | leanservice/settings.py:35-37 | the search returns the first member, in declaration order, whose value equals the string; it returns nothing exactly when no member's value does |
| `Settings.MissingNeverSucceeds` | leanservice/settings.py:35-37 | the `_missing_` fallback compares values with the upper-cased input, so it never finds a member, whatever the input |
| `Settings.FromValue` | leanservice/settings.py:16-37 | `Listing(value)` succeeds iff the input is exactly some member's value (so it is case-sensitive), and then gives that member |
| `Settings.ListingRoundTrip` | leanservice/settings.py:26-28 | `str(member)` is the member's value, and looking that string up gives the member back |
| `Settings.UpperCaseLookupFails` | leanservice/settings.py:31-37 | as written, looking a member up by its upper-cased value (e.g. "NEW") fails |
| `Settings.FromValueCaseInsensitive` | leanservice/settings.py:31-37 | corrected lookup: succeeds iff the input, or its lower-cased form, is a member's value |
| `Settings.CaseInsensitiveLookupSucceeds` | leanservice/settings.py:31-37 | with the corrected lookup, every member is found from its upper-cased value |
| `Settings.LoadSettings` | leanservice/settings.py:40-73 | building the settings from the environment succeeds iff DATABASE_URL is set and any DEFAULT_LISTING / ENV given converts through its enum; a variable that is set overrides its field; otherwise the defaults "dankmemes", NEW and PROD apply |
| `Settings.DefaultsApply` | leanservice/settings.py:67-70 | with only DATABASE_URL set, the settings are ("dankmemes", NEW, that address, PROD) |
| `Settings.UpperCaseDefaultListingRejected` | leanservice/settings.py:47-50 | a DEFAULT_LISTING given in upper case is rejected, although the docstring says a convertible string is accepted |
| `Schemas.IsPicture` | leanservice/schemas.py:23-27 | a picture post has an address, and a post with an address is a picture iff the address's host is "i.redd.it" |
| `Schemas.PostUrl` | leanservice/schemas.py:29-32 | the post link starts with the 22-character "https://www.reddit.com" and the rest is exactly the permalink |
| `Schemas.PostUrlInjective` | leanservice/schemas.py:29-32 | two posts have the same link iff their permalinks are equal |
| `Schemas.PermalinkField` | leanservice/schemas.py:17 | `permalink` is accepted iff it is present and a string; the post then carries that text; otherwise it is a validation error on `permalink` |
| `Schemas.UrlField` | leanservice/schemas.py:18 | `url` is accepted iff it is absent, null or a valid URL; absent and null mean no address, a URL is kept as given; otherwise it is a validation error on `url` |
| `Schemas.ParsePost` | leanservice/schemas.py:9-21 | a post is built iff the data is a mapping whose `permalink` is a string and whose `url` is absent, null or a valid URL; the post carries that permalink text, has no address exactly when `url` is absent or null, and otherwise carries the URL given; a non-mapping fails with a type error |
| `Schemas.ParsePostIgnoresOtherFields` | leanservice/schemas.py:17-21 | the parsed post depends only on the `permalink` and `url` keys |
| `Schemas.NoUrlNeverPicture` | leanservice/schemas.py:18-27 | a post with no `url`, or a null one, is never a picture |
| `Schemas.PictureHostDecides` | leanservice/schemas.py:23-27 | an `i.redd.it` address is a picture; a `www.reddit.com` address and no address are not |
| `Models.NewRow` | leanservice/models.py:15-18 | an inserted row keeps the given `url` and `post_url` unchanged, and takes the generated id and the insert time |
| `Models.AppendFreshKeepsKeysUnique` | leanservice/models.py:15 | appending a row whose id is not yet taken keeps the primary key unique, and adds exactly that id |
| `Models.ToPicture` | leanservice/schemas.py:35-43 | a row converts to the response record iff it has an address; the record carries exactly url, post_url and created_at |
| `Crud.Summaries` | leanservice/crud.py:30-35 | the projection keeps one entry per row, in row order, each with that row's url, post_url and created_at |
| `Crud.UrlText` | leanservice/crud.py:18 | the stored address is the post's URL text, and absent iff the post has none |
| `Crud.HistoryTable.constructor` | tests/conftest.py:12-28 | a freshly created table has no rows and satisfies the key constraint |
| `Crud.HistoryTable.AddToHistory` | leanservice/crud.py:16-25 | appends exactly one row with the post's url and post_url, the fresh id and the insert time, and returns it; earlier rows are unchanged and ids stay unique |
| `Crud.HistoryTable.GetHistory` | leanservice/crud.py:28-37 | one (url, post_url, created_at) entry per row and no other: the result is the projected rows as a multiset, so each entry comes back as many times as rows carry it; the id is not returned and the order is not promised |
| `Crud.AddThenReadBack` | tests/unit_test.py:25-42 | an empty table reads back `[]`; after one insert it reads back exactly one entry, the post's address, link and time |
| `RandomRouter.ListingUrl` | leanservice/routers/random.py:35 | the address is "http://www.reddit.com/r/", then the subreddit, then "/", the listing's value and ".json" |
| `RandomRouter.ListingRequest` | leanservice/routers/random.py:35-36 | the request goes to the listing address with the single parameter limit = "100" |
| `RandomRouter.ListingUrlInjective` | leanservice/routers/random.py:35 | two (subreddit, listing) pairs give the same address iff they are equal |
| `RandomRouter.HasSubstringIff` | leanservice/routers/random.py:43 | the substring test holds iff the pattern occurs at some position |
| `RandomRouter.FetchOutcome` | leanservice/routers/random.py:43-61 | 404 (no such subreddit) iff the status is 404 or the path contains "subreddits/search", which is tried first; otherwise 403 gives 403 (private) and any status of 500 or more gives 503 carrying the upstream status; every other status returns the body unchanged |
| `RandomRouter.SearchRedirectIsNotFound` | leanservice/routers/random.py:43-47 | an answer from the search page is 404 whatever its status |
| `RandomRouter.StatusExamples` | leanservice/routers/random.py:48-61 | 403 gives 403, every status of 500 or more gives 503, and 200, 302, 400 and 429 return the body |
| `RandomRouter.Iterate` | leanservice/routers/random.py:77-80 | a list iterates to exactly its entries; iteration succeeds iff the value is a list, an empty mapping or an empty string, and the last two yield nothing |
| `RandomRouter.Children` | leanservice/routers/random.py:77 | when `data.children` is a list, its entries come back; a response or `data` that is not a mapping fails with a type error; a missing `data` or `children` key fails with that key's error |
| `RandomRouter.ItemPost` | leanservice/routers/random.py:80 | each entry must be a mapping with a `data` key, and its post is built from that value |
| `RandomRouter.ParsePosts` | leanservice/routers/random.py:80 | succeeds iff every entry gives a post; then the posts match the entries one by one in order; otherwise it fails with the error of the first bad entry |
| `RandomRouter.FilterPictures` | leanservice/routers/random.py:81 | never longer than its input; every post kept is a picture from the input; each picture is kept as many times as it occurs |
| `RandomRouter.FilterPicturesSelects` | leanservice/routers/random.py:81 | the result is the subsequence of the listing at exactly the picture positions, in increasing order |
| `RandomRouter.FilterPicturesAppend` | leanservice/routers/random.py:81 | filtering a concatenation is the concatenation of the filtered parts |
| `RandomRouter.GetPicturePosts` | leanservice/routers/random.py:64-83 | succeeds iff the children can be found and every entry parses; the result is then exactly the filter applied to the parsed entries, so it holds only pictures, no more than the entries, and every picture entry |
| `RandomRouter.OneBadEntryFailsAll` | leanservice/routers/random.py:80 | one entry that is not a valid post fails the whole call |
| `RandomRouter.FilterCountTwoKinds` | tests/unit_test.py:46-53 | in a list of one picture post and one other post, shuffled, the filter keeps as many posts as there are copies of the picture post |
| `RandomRouter.PictureCountOfEntries` | tests/unit_test.py:46-53 | the entries of such a shuffled list all parse, and each picture entry gives one picture post |
| `RandomRouter.PictureCountOfListing` | tests/unit_test.py:46-53 | for a listing page of shuffled picture and other entries, the number of posts returned is the number of picture entries |
| `RandomRouter.ChosenSubreddit` | leanservice/routers/random.py:96 | a missing or empty `sub` falls back to the configured default; any other is used as given |
| `RandomRouter.ChosenListing` | leanservice/routers/random.py:97 | a missing `listing` falls back to the configured default |
| `RandomRouter.Random` | leanservice/routers/random.py:86-109 | sends the listing request for the chosen subreddit and listing; a failed status check raises its error, an unreadable payload aborts, and no pictures raises 404; in each of these cases nothing is written. Otherwise exactly one row is appended, for the picked post (a picture from the list), and it is served |
| `RandomRouter.DefaultRequest` | leanservice/routers/random.py:96-98 | with the default settings and no query, the request goes to http://www.reddit.com/r/dankmemes/new.json |
| `RandomRouter.PictureScenario` | tests/integration_test.py:35-62 | for the test's page (`dist` 1 and one picture entry) the default request goes to the dankmemes "new" listing, the answer carries the picture's address, its link and the insert time, and the history then holds exactly that one entry |
| `RandomRouter.NoPictureScenario` | leanservice/routers/random.py:100-107 | a page without pictures answers 404 "no picture posts" and leaves the history empty |

## Findings

| source | as written | input that shows it | evidently intended | confidence | as-written member | corrected member |
|---|---|---|---|---|---|---|
| leanservice/settings.py:35-37 | `_missing_` compares each member's value with `value.upper()`, but every value is lower-case | `Listing("NEW")`: exact lookup fails, and the fallback compares "new" with "NEW" and fails; tests/unit_test.py:61-63 expects `Listing.NEW` | compare with the lower-cased input, making the lookup case-insensitive as the comment on line 32 says | not executed | `Settings.UpperCaseLookupFails` | `Settings.CaseInsensitiveLookupSucceeds` |

`Settings.FromValue` and `Settings.LoadSettings` follow the code as written.
`Settings.FromValueCaseInsensitive` is the corrected lookup.

## Left out

- Network I/O is not modelled: the HTTP session, awaiting and decoding the
  body, and the log line about the `X-Moose` header. The model receives the
  answer as a `Response` value with the body already decoded. A body that
  is not JSON is not modelled.
- The randomness of `random.choice` is not modelled. The pick is any valid
  index `choice`, so uniformity is not stated; only that the picked post is
  a member of the picture list.
- URL parsing by the pydantic `HttpUrl` type (host extraction, length
  limits) is not modelled. A string the URL validator accepts is
  `Json.UrlStr` and carries its parsed host. `Models.ToPicture` checks only
  that an address is present, not that `url` and `post_url` are valid URLs.
- Schemas.ParsePost: pydantic also turns numbers into strings for `permalink`;
  the model rejects them. It reports only the first failing field, where
  pydantic reports all of them.
- The 422 answer for an unknown `listing` query value comes from the web
  framework's enum validation. It is not part of this model.
- The service is async and uses SQLAlchemy sessions, commits and
  transactions. None of this is modelled, nor are concurrent requests or
  storage failures. leanservice/database.py is not part of this model.
- `uuid4()` and `datetime.now()` are parameters. Crud.HistoryTable.AddToHistory
  requires the id to be unused. The store would reject a colliding id;
  that error is not modelled.
- Crud.HistoryTable.GetHistory: the query has no ORDER BY, so the contract
  gives the entries with their multiplicities, not their order.
- Settings.LoadSettings: the `.env` file is not read. Variable names are
  matched exactly, but the settings library ignores case. When several
  fields are wrong, only the first is reported.
- The memoization of `get_settings` is not modelled. The settings are a
  value passed to the handler, so every use sees the same one.
- Settings.Upper and Settings.Lower change case for ASCII letters only;
  Unicode case mapping is not modelled.
- An unreadable payload (`KeyError`, `TypeError` or a validation error in
  the filter) ends the request as `Outcome.Crashed`. The framework turns
  it into a 500 answer, which is not modelled.
- leanservice/main.py (app wiring, log level) is not part of this model.
  leanservice/routers/history.py serves an in-memory list that nothing
  fills; it is not part of this model either. The table read lives in
  `Crud.HistoryTable.GetHistory`.
