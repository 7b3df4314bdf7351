/** The service's configuration: the environment tag, the upstream listing types
    and the settings record with its defaults (leanservice/settings.py). */
module Settings {
  import opened Wrappers

  /** Environments the service may run in. */
  datatype Env = DEV | PROD | TEST

  function EnvValue(e: Env): string {
    match e
    case DEV => "DEV"
    case PROD => "PROD"
    case TEST => "TEST"
  }

  /** `Env(value)`: lookup by exact value; the enum has no fallback. */
  function EnvFromValue(value: string): (r: Option<Env>)
    ensures r.Some? <==> value in {"DEV", "PROD", "TEST"}
    ensures r.Some? ==> EnvValue(r.value) == value
  {
    if value == "DEV" then Some(DEV)
    else if value == "PROD" then Some(PROD)
    else if value == "TEST" then Some(TEST)
    else None
  }

  /** Listing types (sort orders) offered by the upstream API. */
  datatype Listing = NEW | HOT | BEST | RISING | TOP | CONTROVERSIAL

  /** The value each member is declared with. */
  function Value(l: Listing): string {
    match l
    case NEW => "new"
    case HOT => "hot"
    case BEST => "best"
    case RISING => "rising"
    case TOP => "top"
    case CONTROVERSIAL => "controversial"
  }

  /** `str(member)`: printed as its bare value, so it can be spliced into a URL. */
  function ToString(l: Listing): (s: string)
    ensures |s| > 0
    ensures forall m: Listing :: Value(m) == s <==> m == l
  {
    Value(l)
  }

  /** The members in declaration order, which is the order `for member in cls` visits. */
  const Members: seq<Listing> := [NEW, HOT, BEST, RISING, TOP, CONTROVERSIAL]

  predicate IsLowerAscii(c: char) { 'a' <= c <= 'z' }

  predicate IsUpperAscii(c: char) { 'A' <= c <= 'Z' }

  /** `str.upper()` on one character, for the ASCII letters. */
  function UpperChar(c: char): char {
    if IsLowerAscii(c) then (c as int - 32) as char else c
  }

  /** `str.lower()` on one character, for the ASCII letters. */
  function LowerChar(c: char): char {
    if IsUpperAscii(c) then (c as int + 32) as char else c
  }

  function Upper(s: string): (r: string)
    ensures |r| == |s|
    ensures forall i :: 0 <= i < |r| ==> !IsLowerAscii(r[i])
  {
    seq(|s|, i requires 0 <= i < |s| => UpperChar(s[i]))
  }

  function Lower(s: string): (r: string)
    ensures |r| == |s|
  {
    seq(|s|, i requires 0 <= i < |s| => LowerChar(s[i]))
  }

  /** The first of `members` whose value is `v`, if any: the linear search that both
      the value lookup and the `_missing_` hook perform. */
  function Find(members: seq<Listing>, v: string): (r: Option<Listing>)
    ensures r.Some? ==> r.value in members && Value(r.value) == v
    ensures r.None? <==> forall k :: 0 <= k < |members| ==> Value(members[k]) != v
    ensures r.Some? ==> exists k :: 0 <= k < |members| && members[k] == r.value &&
                          forall j :: 0 <= j < k ==> Value(members[j]) != v
  {
    if members == [] then None
    else if Value(members[0]) == v then Some(members[0])
    else
      var r := Find(members[1..], v);
      if r.Some? then
        var k :| 0 <= k < |members[1..]| && members[1..][k] == r.value &&
                 forall j :: 0 <= j < k ==> Value(members[1..][j]) != v;
        assert members[k + 1] == r.value;
        r
      else
        r
  }

  /** Where each member stands in `Members`. */
  function Position(l: Listing): (k: nat)
    ensures k < |Members| && Members[k] == l
  {
    match l
    case NEW => 0
    case HOT => 1
    case BEST => 2
    case RISING => 3
    case TOP => 4
    case CONTROVERSIAL => 5
  }

  /** A string that is some member's value is found by the search over all members. */
  lemma FindsEveryValue(v: string)
    ensures (exists l: Listing :: Value(l) == v) ==> Find(Members, v).Some?
  {
    if l: Listing :| Value(l) == v {
      assert Value(Members[Position(l)]) == v;
    }
  }

  /** The `_missing_` hook as written: compare each member's value with the upper-cased input. */
  function Missing(value: string): (r: Option<Listing>)
    ensures r.Some? <==> exists l: Listing :: Value(l) == Upper(value)
    ensures r.Some? ==> Value(r.value) == Upper(value)
  {
    FindsEveryValue(Upper(value));
    Find(Members, Upper(value))
  }

  /** `Listing(value)` as written: an exact value lookup, then the `_missing_` hook.
      Because every value is lower-case the hook never matches, so the lookup is
      case-sensitive after all. */
  function FromValue(value: string): (r: Option<Listing>)
    ensures r.Some? <==> exists l: Listing :: Value(l) == value
    ensures r.Some? ==> Value(r.value) == value
  {
    MissingNeverSucceeds(value);
    FindsEveryValue(value);
    match Find(Members, value)
    case Some(m) => Some(m)
    case None => Missing(value)
  }

  /** The lookup as the hook's comment intends it: the input is lower-cased before
      the second search, so any spelling of a value in upper or mixed case is found. */
  function FromValueCaseInsensitive(value: string): (r: Option<Listing>)
    ensures r.Some? <==> exists l: Listing :: Value(l) == Lower(value) || Value(l) == value
    ensures r.Some? ==> Value(r.value) == value || Value(r.value) == Lower(value)
  {
    FindsEveryValue(value);
    FindsEveryValue(Lower(value));
    match Find(Members, value)
    case Some(m) => Some(m)
    case None => Find(Members, Lower(value))
  }

  lemma MembersAreTheListings()
    ensures |Members| == 6
    ensures forall l: Listing :: l in Members
    ensures forall i, j :: 0 <= i < j < |Members| ==> Value(Members[i]) != Value(Members[j])
  {
    forall l: Listing
      ensures l in Members
    {
      assert Members[Position(l)] == l;
    }
  }

  /** Every value is a non-empty word of lower-case letters. */
  lemma ValuesAreLowerCase(l: Listing)
    ensures |Value(l)| > 0
    ensures forall i :: 0 <= i < |Value(l)| ==> IsLowerAscii(Value(l)[i])
  {
  }

  /** The fallback compares with an upper-cased string, which holds no lower-case
      letter, while every value starts with one: it can never find a member. */
  lemma MissingNeverSucceeds(value: string)
    ensures Missing(value) == None
  {
    var u := Upper(value);
    forall k | 0 <= k < |Members|
      ensures Value(Members[k]) != u
    {
      ValuesAreLowerCase(Members[k]);
      if |u| > 0 {
        assert !IsLowerAscii(u[0]);
      }
    }
  }

  /** `str` and the lookup are inverse: the printed value of a member finds that member. */
  lemma ListingRoundTrip(l: Listing)
    ensures FromValue(ToString(l)) == Some(l)
  {
    assert Value(Members[Position(l)]) == ToString(l);
  }

  /** As written, looking a member up by its upper-cased value fails. */
  lemma UpperCaseLookupFails(l: Listing)
    ensures FromValue(Upper(Value(l))) == None
  {
    ValuesAreLowerCase(l);
    var u := Upper(Value(l));
    forall m: Listing
      ensures Value(m) != u
    {
      ValuesAreLowerCase(m);
      assert !IsLowerAscii(u[0]);
    }
  }

  /** With the corrected fallback, the upper-cased value finds its member. */
  lemma CaseInsensitiveLookupSucceeds(l: Listing)
    ensures FromValueCaseInsensitive(Upper(Value(l))) == Some(l)
  {
    ValuesAreLowerCase(l);
    var v := Value(l);
    assert Lower(Upper(v)) == v by {
      forall i | 0 <= i < |v|
        ensures Lower(Upper(v))[i] == v[i]
      {
        assert IsLowerAscii(v[i]);
      }
    }
    var u := Upper(v);
    forall m: Listing
      ensures Value(m) != u
    {
      ValuesAreLowerCase(m);
      assert !IsLowerAscii(u[0]);
    }
    MembersAreTheListings();
  }

  /** The settings record: every field but the database address has a default. */
  datatype Settings = Settings(
    defaultSubreddit: string,
    defaultListing: Listing,
    databaseUrl: string,
    env: Env)

  const DEFAULT_SUBREDDIT := "dankmemes"
  const DEFAULT_LISTING := NEW
  const DEFAULT_ENV := PROD

  /** Why the settings could not be built: the field that was missing or invalid. */
  datatype SettingsError = MissingField(name: string) | InvalidField(name: string)

  /** Build the settings from the variables of the environment: a variable named as a
      field overrides its default; enum fields are converted with the enum's own lookup;
      `DATABASE_URL` has no default. Fields are checked in declaration order. */
  function LoadSettings(vars: map<string, string>): (r: Result<Settings, SettingsError>)
    ensures r.Ok? <==>
      && "DATABASE_URL" in vars
      && ("DEFAULT_LISTING" in vars ==> FromValue(vars["DEFAULT_LISTING"]).Some?)
      && ("ENV" in vars ==> EnvFromValue(vars["ENV"]).Some?)
    ensures r.Ok? ==> r.value.databaseUrl == vars["DATABASE_URL"]
    ensures r.Ok? && "DEFAULT_SUBREDDIT" !in vars ==> r.value.defaultSubreddit == "dankmemes"
    ensures r.Ok? && "DEFAULT_SUBREDDIT" in vars ==> r.value.defaultSubreddit == vars["DEFAULT_SUBREDDIT"]
    ensures r.Ok? && "DEFAULT_LISTING" !in vars ==> r.value.defaultListing == NEW
    ensures r.Ok? && "DEFAULT_LISTING" in vars ==> Value(r.value.defaultListing) == vars["DEFAULT_LISTING"]
    ensures r.Ok? && "ENV" !in vars ==> r.value.env == PROD
    ensures r.Ok? && "ENV" in vars ==> EnvValue(r.value.env) == vars["ENV"]
  {
    var subreddit := if "DEFAULT_SUBREDDIT" in vars then vars["DEFAULT_SUBREDDIT"] else DEFAULT_SUBREDDIT;
    var listing :- if "DEFAULT_LISTING" !in vars then Ok(DEFAULT_LISTING)
                   else match FromValue(vars["DEFAULT_LISTING"])
                        case Some(l) => Ok(l)
                        case None => Err(InvalidField("DEFAULT_LISTING"));
    var databaseUrl :- if "DATABASE_URL" in vars then Ok(vars["DATABASE_URL"])
                       else Err(MissingField("DATABASE_URL"));
    var env :- if "ENV" !in vars then Ok(DEFAULT_ENV)
               else match EnvFromValue(vars["ENV"])
                    case Some(e) => Ok(e)
                    case None => Err(InvalidField("ENV"));
    Ok(Settings(subreddit, listing, databaseUrl, env))
  }

  /** With only the database address set, every other field takes its default. */
  lemma DefaultsApply(databaseUrl: string)
    ensures LoadSettings(map["DATABASE_URL" := databaseUrl]) ==
            Ok(Settings("dankmemes", NEW, databaseUrl, PROD))
  {
  }

  /** As written, an upper-case listing name in the environment is rejected. */
  lemma UpperCaseDefaultListingRejected(databaseUrl: string, l: Listing)
    ensures LoadSettings(map["DATABASE_URL" := databaseUrl, "DEFAULT_LISTING" := Upper(Value(l))]).Err?
  {
    UpperCaseLookupFails(l);
  }
}
