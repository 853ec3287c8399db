/**
 * The relational store behind the mod-monitoring pipeline: feeds keyed by their source id,
 * posts keyed by their upstream post id, and authors, mods, aliases and mod appearances keyed
 * by generated ids. Generated ids are naturals handed out in order, written in decimal wherever
 * they appear in text (custom ids of Discord components, command arguments). History rows and
 * sheet snapshots are append-only lists, newest last. Times are milliseconds.
 */
module Db {
  import opened Wrappers
  import opened Text
  import Groq
  import Sheets

  type Id = nat

  /** How an id is written in text. */
  function IdText(id: Id): string { NatToString(id) }

  /** The id a text names, if it is the text of an id. */
  function ParseId(s: string): Option<Id> { ParseNat(s) }

  /** A text names an id exactly when it is that id's text. */
  lemma ParseIdMeaning(s: string, id: Id)
    ensures ParseId(s) == Some(id) <==> s == IdText(id)
  {
    ParseNatRoundTrip(id, s);
  }

  datatype Platform = Patreon | Kofi | Rss | Github | GoogleSheets

  /** A monitored feed; its key in the store is its source id (campaign or spreadsheet id). */
  datatype Feed = Feed(
    platform: Platform,
    creatorName: string,
    creatorUrl: Option<string>,
    description: Option<string>,
    notificationChannelId: string,
    checkIntervalMins: int,
    isActive: bool,
    lastCheckedAt: Option<int>)

  /** A stored post; its key in the store is the upstream post id. */
  datatype Post = Post(
    feedSourceId: string,
    title: string,
    url: string,
    content: Option<string>,
    postType: string,
    publishedAt: int,
    minCentsPledged: Option<nat>,
    isNotified: bool,
    analyzed: bool,
    needsReview: bool,
    rawAiResponse: Option<Groq.Analysis>,
    processingError: Option<string>)

  datatype Author = Author(name: string, slug: string, patreonUrl: Option<string>, feedSourceId: Option<string>)

  datatype Mod = Mod(
    authorId: Id,
    primaryName: string,
    slug: string,
    normalizedName: string,
    curseForgeUrl: Option<string>,
    latestVersion: Option<string>,
    latestVersionNormalized: Option<string>,
    latestVersionDate: Option<int>,
    translatedVersion: Option<string>,
    translatedVersionNormalized: Option<string>,
    translationDate: Option<int>,
    isUpToDate: bool,
    isActive: bool)

  datatype Alias = Alias(modId: Id, name: string, normalized: string)

  /** One mod detected in one post (a "post mod"), with its review state. */
  datatype Appearance = Appearance(
    postId: string,
    modId: Option<Id>,
    detectedName: string,
    normalizedName: string,
    detectedVersion: Option<string>,
    normalizedVersion: string,
    isUpdate: bool,
    isNewMod: bool,
    downloadUrl: Option<string>,
    verified: bool,
    needsReview: bool,
    confidence: real,
    expiresAt: int,
    discordMessageId: Option<string>,
    discordThreadId: Option<string>)

  datatype Action = Verified | Linked | Created

  /** A review decision; only confirmations record the detected version. */
  datatype HistoryEntry = HistoryEntry(modId: Id, postModId: Id, action: Action, userId: string, detectedVersion: Option<string>)

  /** A sheet's rows by mod name, as stored after a check that found changes. */
  datatype Snapshot = Snapshot(feedSourceId: string, data: map<string, Sheets.SheetRow>, createdAt: int)

  /** A new mod row as the registry creates it: no versions yet, up to date and active. */
  function NewMod(authorId: Id, primaryName: string, slug: string, curseForgeUrl: Option<string>): (m: Mod)
    ensures m.normalizedName == m.slug == slug && m.isActive && m.isUpToDate
    ensures m.latestVersion.None? && m.translatedVersion.None?
  {
    Mod(authorId, primaryName, slug, slug, curseForgeUrl, None, None, None, None, None, None, true, true)
  }

  /** The message of a write that names a row the store does not hold. */
  const RecordNotFound: string := "Record to update not found."

  /** The message of a create whose unique key is already taken. */
  const UniqueViolation: string := "Unique constraint failed"

  predicate Distinct<T(==)>(s: seq<T>)
  {
    forall i, j :: 0 <= i < j < |s| ==> s[i] != s[j]
  }

  /** `orderBy: { publishedAt: 'desc' }`: every listed id is a stored post, newest first. */
  predicate NewestFirstOrder(posts: map<string, Post>, ids: seq<string>)
  {
    (forall i :: 0 <= i < |ids| ==> ids[i] in posts)
    && (forall i, j :: 0 <= i < j < |ids| ==> posts[ids[i]].publishedAt >= posts[ids[j]].publishedAt)
  }

  /** Inserting a post before the first strictly older one keeps the list newest first. */
  lemma InsertKeepsOrder(posts: map<string, Post>, ids: seq<string>, x: string, i: nat)
    requires NewestFirstOrder(posts, ids) && x in posts && i <= |ids|
    requires forall j :: 0 <= j < i ==> posts[ids[j]].publishedAt >= posts[x].publishedAt
    requires i < |ids| ==> posts[ids[i]].publishedAt < posts[x].publishedAt
    ensures NewestFirstOrder(posts, ids[..i] + [x] + ids[i..])
  {
    var r := ids[..i] + [x] + ids[i..];
    assert forall j :: 0 <= j < i ==> r[j] == ids[j];
    assert r[i] == x;
    assert forall j :: i < j < |r| ==> r[j] == ids[j - 1];
  }

  /** Putting a new element anywhere in a list of distinct elements adds it and keeps them distinct. */
  lemma InsertKeepsDistinct<T>(ids: seq<T>, x: T, i: nat)
    requires Distinct(ids) && x !in ids && i <= |ids|
    ensures Distinct(ids[..i] + [x] + ids[i..])
    ensures forall k :: k in ids[..i] + [x] + ids[i..] <==> k in ids || k == x
  {
    var r := ids[..i] + [x] + ids[i..];
    assert |r| == |ids| + 1 && r[i] == x;
    assert forall j :: 0 <= j < i ==> r[j] == ids[j];
    assert forall j :: i < j < |r| ==> r[j] == ids[j - 1];
    forall a, b | 0 <= a < b < |r|
      ensures r[a] != r[b]
    {
      var a' := if a < i then a else a - 1;
      var b' := if b < i then b else b - 1;
      if a != i && b != i {
        assert r[a] == ids[a'] && r[b] == ids[b'] && a' < b';
      } else if a == i {
        assert r[b] == ids[b'];
      } else {
        assert r[a] == ids[a'];
      }
    }
    forall k
      ensures k in r <==> k in ids || k == x
    {
      if k in ids {
        var j :| 0 <= j < |ids| && ids[j] == k;
        assert r[if j < i then j else j + 1] == k;
      }
      if k in r && k != x {
        var j :| 0 <= j < |r| && r[j] == k;
        assert ids[if j < i then j else j - 1] == k;
      }
    }
  }

  /**
   * The given posts, newest first: every key exactly once. Posts published at the same moment
   * come in no particular order.
   */
  method NewestFirst(posts: map<string, Post>, keys: set<string>) returns (ids: seq<string>)
    requires keys <= posts.Keys
    ensures NewestFirstOrder(posts, ids) && Distinct(ids)
    ensures forall k :: k in ids <==> k in keys
  {
    ids := [];
    var rest := keys;
    while rest != {}
      invariant rest <= keys
      invariant forall k :: k in ids <==> k in keys && k !in rest
      invariant NewestFirstOrder(posts, ids) && Distinct(ids)
      decreases |rest|
    {
      var x :| x in rest;
      var i := 0;
      while i < |ids| && posts[ids[i]].publishedAt >= posts[x].publishedAt
        invariant 0 <= i <= |ids|
        invariant forall j :: 0 <= j < i ==> posts[ids[j]].publishedAt >= posts[x].publishedAt
      {
        i := i + 1;
      }
      InsertKeepsOrder(posts, ids, x, i);
      InsertKeepsDistinct(ids, x, i);
      ids := ids[..i] + [x] + ids[i..];
      rest := rest - {x};
    }
  }

  /**
   * The ids below `n` that are in `keys`, oldest first: the order in which rows come back
   * where a query leaves the order open.
   */
  function Ascending(keys: set<Id>, n: nat): (r: seq<Id>)
    ensures forall i :: 0 <= i < |r| ==> r[i] in keys && r[i] < n
  {
    if n == 0 then [] else Ascending(keys, n - 1) + (if n - 1 in keys then [n - 1] else [])
  }

  /** The ascending list holds every key below `n` once, in increasing order. */
  lemma {:induction false} AscendingMeaning(keys: set<Id>, n: nat)
    ensures var r := Ascending(keys, n);
      (forall k :: k in r <==> k in keys && k < n)
      && (forall i, j :: 0 <= i < j < |r| ==> r[i] < r[j])
  {
    if n > 0 {
      AscendingMeaning(keys, n - 1);
    }
  }

  /** No keys give an empty ascending list. */
  lemma {:induction false} AscendingOfNone(n: nat)
    ensures Ascending({}, n) == []
  {
    if n > 0 {
      AscendingOfNone(n - 1);
    }
  }

  /** The first of the ascending keys is the smallest key below `n`; there is none exactly when no key is below `n`. */
  lemma HeadOfAscending(keys: set<Id>, n: nat)
    ensures var h := Head(Ascending(keys, n));
      (h.Some? ==> h.value in keys && h.value < n && forall k :: k in keys && k < n ==> h.value <= k)
      && (h.None? <==> forall k :: k in keys ==> k >= n)
  {
    AscendingMeaning(keys, n);
    var a := Ascending(keys, n);
    forall k | k in keys && k < n
      ensures |a| > 0 && a[0] <= k
    {
      assert k in a;
      var i :| 0 <= i < |a| && a[i] == k;
      assert i == 0 || a[0] < a[i];
    }
  }

  /** The first element of a list, if any. */
  function Head<T>(s: seq<T>): Option<T>
  {
    if |s| == 0 then None else Some(s[0])
  }

  /**
   * The author linked to a feed: authors name the feed they are linked to, and the oldest such
   * author is the one a lookup through the feed finds.
   */
  function FeedAuthor(authors: map<Id, Author>, sourceId: string, n: nat): Option<Id>
  {
    Head(Ascending((set k | k in authors && authors[k].feedSourceId == Some(sourceId)), n))
  }

  /** The pending appearances of a post: those still marked for review. */
  function PendingOf(appearances: map<Id, Appearance>, postId: string): set<Id>
  {
    set k | k in appearances && appearances[k].postId == postId && appearances[k].needsReview
  }

  class Store {
    var feeds: map<string, Feed>
    var posts: map<string, Post>
    var authors: map<Id, Author>
    var mods: map<Id, Mod>
    var aliases: map<Id, Alias>
    var appearances: map<Id, Appearance>
    var history: seq<HistoryEntry>
    var snapshots: seq<Snapshot>
    var nextId: Id

    /** Every generated id in use is below the next one to hand out. */
    ghost predicate Valid()
      reads this
    {
      (forall k :: k in authors ==> k < nextId)
      && (forall k :: k in mods ==> k < nextId)
      && (forall k :: k in aliases ==> k < nextId)
      && (forall k :: k in appearances ==> k < nextId)
    }

    constructor()
      ensures Valid()
      ensures feeds == map[] && posts == map[] && authors == map[] && mods == map[]
      ensures aliases == map[] && appearances == map[] && history == [] && snapshots == []
    {
      feeds := map[];
      posts := map[];
      authors := map[];
      mods := map[];
      aliases := map[];
      appearances := map[];
      history := [];
      snapshots := [];
      nextId := 0;
    }

    /** Hands out an id that no row uses yet. */
    method NewId() returns (id: Id)
      requires Valid()
      modifies this
      ensures Valid()
      ensures id == old(nextId) && nextId == id + 1
      ensures id !in authors && id !in mods && id !in aliases && id !in appearances
      ensures feeds == old(feeds) && posts == old(posts) && authors == old(authors) && mods == old(mods)
      ensures aliases == old(aliases) && appearances == old(appearances) && history == old(history) && snapshots == old(snapshots)
    {
      id := nextId;
      nextId := nextId + 1;
    }
  }
}
