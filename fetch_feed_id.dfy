/**
 * Finding the campaign (feed) id of a Patreon creator from a URL: the username is read from the
 * URL's path, the campaigns API is asked first, and the creator's page is scraped only when the
 * API gives nothing. The two HTTP requests are answers passed in; each lookup also returns the
 * URLs it requested, so what is and is not requested can be stated.
 */
module FeedId {
  import opened Wrappers
  import opened Text

  /** The parts of a WHATWG URL that the lookup reads. */
  datatype ParsedUrl = ParsedUrl(hostname: string, pathname: string)

  /** What the bot keeps about a creator's campaign. */
  datatype FeedData = FeedData(campaignId: string, creatorName: string, creatorUrl: string)

  /** The campaigns API's answer: a failure, or the id and `creation_name` it held, if any. */
  datatype ApiAnswer = ApiFailed | ApiData(id: Option<string>, creationName: Option<string>)

  /**
   * The page scraper's answer: a failure, or the campaign id and creator name its patterns
   * found in the page, if any.
   */
  datatype PageAnswer = PageFailed | PageData(campaignId: Option<string>, creatorName: Option<string>)

  /** A lookup's result and the URLs it sent requests to, in order. */
  datatype Lookup = Lookup(result: Option<FeedData>, requests: seq<string>)

  // ---------------------------------------------------------------------------------------
  // extractUsername
  // ---------------------------------------------------------------------------------------

  /** The non-empty strings of a list, in order. */
  function NonEmpty(parts: seq<string>): (r: seq<string>)
    ensures forall i :: 0 <= i < |r| ==> r[i] != ""
    ensures |r| <= |parts|
  {
    if |parts| == 0 then []
    else (if parts[0] != "" then [parts[0]] else []) + NonEmpty(parts[1..])
  }

  /** The path's segments: `split('/')` without the empty pieces. */
  function Segments(pathname: string): seq<string>
  {
    NonEmpty(Split(pathname, '/'))
  }

  /**
   * extractUsername: nothing for a string that is not a URL, a host without "patreon.com" or an
   * empty path; "post" for a post URL; the segment after `c`; otherwise the first segment.
   */
  function ExtractUsername(url: Option<ParsedUrl>): Option<string>
  {
    if url.None? || !Contains(url.value.hostname, "patreon.com") then None
    else
      var parts := Segments(url.value.pathname);
      if |parts| == 0 then None
      else if parts[0] == "posts" then Some("post")
      else if parts[0] == "c" && |parts| > 1 then Some(parts[1])
      else Some(parts[0])
  }

  lemma {:induction false} NonEmptyConcat(a: seq<string>, b: seq<string>)
    ensures NonEmpty(a + b) == NonEmpty(a) + NonEmpty(b)
  {
    if |a| > 0 {
      assert (a + b)[0] == a[0] && (a + b)[1..] == a[1..] + b;
      NonEmptyConcat(a[1..], b);
    } else {
      assert a + b == b;
    }
  }

  lemma {:induction false} NonEmptyMembers(parts: seq<string>)
    ensures forall w :: w in NonEmpty(parts) <==> w in parts && w != ""
  {
    if |parts| > 0 {
      NonEmptyMembers(parts[1..]);
      assert parts == [parts[0]] + parts[1..];
    }
  }

  /** The segments on either side of a `/` are those of the two sides. */
  lemma SegmentsConcat(a: string, b: string)
    ensures Segments(a + "/" + b) == Segments(a) + Segments(b)
  {
    SplitConcat(a, b, '/');
    NonEmptyConcat(Split(a, '/'), Split(b, '/'));
  }

  /** Repeated and trailing slashes do not change the segments. */
  lemma SlashesIgnored(a: string, b: string)
    ensures Segments(a + "//" + b) == Segments(a + "/" + b)
    ensures Segments(a + "/") == Segments(a)
  {
    assert a + "//" + b == a + "/" + ("/" + b);
    assert "/" + b == "" + "/" + b;
    SegmentsConcat(a, "/" + b);
    SegmentsConcat("", b);
    SegmentsConcat(a, b);
    assert Segments("") == [];
    assert a + "/" == a + "/" + "";
    SegmentsConcat(a, "");
  }

  /** The segments are exactly the non-empty pieces between slashes, and hold no slash. */
  lemma SegmentsMeaning(pathname: string)
    ensures forall w :: w in Segments(pathname) <==> w in Split(pathname, '/') && w != ""
    ensures forall w :: w in Segments(pathname) ==> '/' !in w
  {
    NonEmptyMembers(Split(pathname, '/'));
    forall w | w in Segments(pathname)
      ensures '/' !in w
    {
      var i :| 0 <= i < |Split(pathname, '/')| && Split(pathname, '/')[i] == w;
    }
  }

  /**
   * A username comes out exactly for a URL on a patreon.com host with a non-empty path; it is
   * "post" for `/posts/...`, the next segment after `/c/`, and the first segment otherwise;
   * it is never empty and holds no slash.
   */
  lemma ExtractUsernameMeaning(url: Option<ParsedUrl>)
    ensures var r := ExtractUsername(url);
      (r.Some? <==> url.Some? && Contains(url.value.hostname, "patreon.com") && |Segments(url.value.pathname)| > 0)
      && (r.Some? ==>
            var parts := Segments(url.value.pathname);
            r.value != "" && '/' !in r.value
            && (parts[0] == "posts" ==> r.value == "post")
            && (parts[0] == "c" && |parts| > 1 ==> r.value == parts[1])
            && (parts[0] != "posts" && !(parts[0] == "c" && |parts| > 1) ==> r.value == parts[0]))
  {
    if url.Some? {
      SegmentsMeaning(url.value.pathname);
    }
  }

  // ---------------------------------------------------------------------------------------
  // fetchFeedIdFromUrl, fetchFeedIdFromCreatorPage, getFeedIdFromPatreon
  // ---------------------------------------------------------------------------------------

  const PatreonHome: string := "https://www.patreon.com/"

  function ApiUrl(username: string): string
  {
    PatreonHome + "api/campaigns/" + username
  }

  /**
   * fetchFeedIdFromUrl: without a username nothing is requested; otherwise the campaigns API is
   * asked, and only an answer holding an id gives a feed, named by its `creation_name` or,
   * failing that, by the username.
   */
  function FetchFeedIdFromUrl(patreonUrl: string, url: Option<ParsedUrl>, api: ApiAnswer): Lookup
  {
    var username := ExtractUsername(url);
    if username.None? then Lookup(None, [])
    else if api.ApiData? && Truthy(api.id) then
      var name := if Truthy(api.creationName) then api.creationName.value else username.value;
      Lookup(Some(FeedData(api.id.value, name, patreonUrl)), [ApiUrl(username.value)])
    else Lookup(None, [ApiUrl(username.value)])
  }

  /** The page that is scraped: the URL itself for a post, the creator's page otherwise. */
  function PageUrl(patreonUrl: string, username: string): string
  {
    if username == "post" then patreonUrl else PatreonHome + username
  }

  /**
   * fetchFeedIdFromCreatorPage: without a username nothing is requested; otherwise the page is
   * fetched, and only a campaign id found in it gives a feed, named by the name found or, failing
   * that, by the username.
   */
  function FetchFeedIdFromCreatorPage(patreonUrl: string, url: Option<ParsedUrl>, page: PageAnswer): Lookup
  {
    var username := ExtractUsername(url);
    if username.None? then Lookup(None, [])
    else if page.PageData? && Truthy(page.campaignId) then
      var name := if Truthy(page.creatorName) then page.creatorName.value else username.value;
      Lookup(Some(FeedData(page.campaignId.value, name, patreonUrl)), [PageUrl(patreonUrl, username.value)])
    else Lookup(None, [PageUrl(patreonUrl, username.value)])
  }

  /** getFeedIdFromPatreon: the API first, the page only when the API gave nothing. */
  function GetFeedIdFromPatreon(patreonUrl: string, url: Option<ParsedUrl>, api: ApiAnswer, page: PageAnswer): Lookup
  {
    var first := FetchFeedIdFromUrl(patreonUrl, url, api);
    if first.result.Some? then first
    else
      var second := FetchFeedIdFromCreatorPage(patreonUrl, url, page);
      Lookup(second.result, first.requests + second.requests)
  }

  /**
   * The fallback order: no request at all without a username; with one, the API is asked first;
   * the page is requested (as the second and last request) exactly when the API gave no feed;
   * and a feed found has a non-empty id and name and keeps the URL it was asked for.
   */
  lemma GetFeedIdFallback(patreonUrl: string, url: Option<ParsedUrl>, api: ApiAnswer, page: PageAnswer)
    ensures var r := GetFeedIdFromPatreon(patreonUrl, url, api, page);
      var username := ExtractUsername(url);
      var apiFeed := FetchFeedIdFromUrl(patreonUrl, url, api).result;
      (username.None? ==> r.requests == [] && r.result.None?)
      && (username.Some? ==>
            r.requests[0] == ApiUrl(username.value)
            && (apiFeed.Some? ==> r.requests == [ApiUrl(username.value)] && r.result == apiFeed)
            && (apiFeed.None? ==>
                  r.requests == [ApiUrl(username.value), PageUrl(patreonUrl, username.value)]
                  && r.result == FetchFeedIdFromCreatorPage(patreonUrl, url, page).result))
      && (r.result.Some? ==>
            r.result.value.campaignId != "" && r.result.value.creatorName != ""
            && r.result.value.creatorUrl == patreonUrl)
  {
    ExtractUsernameMeaning(url);
  }

  /** A post URL scrapes the URL itself; any other username scrapes the creator's page. */
  lemma PageUrlMeaning(patreonUrl: string, url: Option<ParsedUrl>)
    requires ExtractUsername(url).Some?
    ensures var u := ExtractUsername(url).value;
      (u == "post" ==> PageUrl(patreonUrl, u) == patreonUrl)
      && (u != "post" ==> PageUrl(patreonUrl, u) == "https://www.patreon.com/" + u && EndsWith(PageUrl(patreonUrl, u), u))
  {
  }
}
