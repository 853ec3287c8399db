/**
 * The feed scheduler: every ten minutes, unless a run is still going, it walks the active feeds,
 * checks those that are due, hands each new post to mod detection and the review notification,
 * announces it and marks it announced; spreadsheet feeds are diffed against their newest
 * snapshot instead. Every answer from outside (Patreon, Google, the extraction model, Discord)
 * and the clock are parameters.
 */
module Scheduler {
  import opened Wrappers
  import opened Text
  import opened Db
  import opened Sheets
  import Normalization
  import Groq
  import PatreonPosts
  import PatreonNotification
  import ModDetection
  import ModNotification

  // ---------------------------------------------------------------------------------------
  // Which feeds are due
  // ---------------------------------------------------------------------------------------

  /** shouldCheckFeed: never checked, or at least the interval (in minutes) has passed, in real minutes. */
  predicate ShouldCheckFeed(lastCheckedAt: Option<int>, intervalMins: int, now: int)
  {
    lastCheckedAt.None? || (now - lastCheckedAt.value) as real / 1000.0 / 60.0 >= intervalMins as real
  }

  /** The fractional-minute test is the same as comparing whole milliseconds with the interval's length. */
  lemma ShouldCheckFeedMeaning(lastCheckedAt: Option<int>, intervalMins: int, now: int)
    ensures ShouldCheckFeed(lastCheckedAt, intervalMins, now)
      <==> lastCheckedAt.None? || now - lastCheckedAt.value >= intervalMins * 60000
  {
    if lastCheckedAt.Some? {
      var d := (now - lastCheckedAt.value) as real;
      assert d / 1000.0 / 60.0 == d / 60000.0;
      assert d / 60000.0 >= intervalMins as real <==> d >= (intervalMins * 60000) as real;
    }
  }

  predicate Due(feed: Feed, now: int)
  {
    ShouldCheckFeed(feed.lastCheckedAt, feed.checkIntervalMins, now)
  }

  // ---------------------------------------------------------------------------------------
  // Spreadsheet feeds
  // ---------------------------------------------------------------------------------------

  const DefaultRange: string := "Sheet1!A1:Z1000"
  const RangeLabel: string := "Range: "

  /** The sheet range a spreadsheet feed's description names; a missing or empty one gives the default. */
  function RangeOf(description: Option<string>): string
  {
    if description.None? then DefaultRange
    else
      var r := ReplaceFirst(description.value, RangeLabel, "");
      if r == "" then DefaultRange else r
  }

  /** A description written as "Range: X" reads back as X, and no description as the default range. */
  lemma RangeRoundTrip(range: string)
    requires range != ""
    ensures RangeOf(Some(RangeLabel + range)) == range
    ensures RangeOf(None) == DefaultRange
  {
    var d := RangeLabel + range;
    assert d[..|RangeLabel|] == RangeLabel;
    ReplaceFirstPrefix(d, RangeLabel, "");
    assert d[|RangeLabel|..] == range;
  }

  /** The newest stored snapshot of the feed: the last one stored for it. */
  function LatestSnapshot(snapshots: seq<Snapshot>, sourceId: string): (r: Option<Snapshot>)
    ensures r.Some? ==> r.value in snapshots && r.value.feedSourceId == sourceId
    ensures r.None? ==> forall s :: s in snapshots ==> s.feedSourceId != sourceId
  {
    if |snapshots| == 0 then None
    else if snapshots[|snapshots| - 1].feedSourceId == sourceId then Some(snapshots[|snapshots| - 1])
    else LatestSnapshot(snapshots[..|snapshots| - 1], sourceId)
  }

  /** The rows the diff starts from: the newest snapshot's, or none. */
  function Baseline(snapshots: seq<Snapshot>, sourceId: string): map<string, SheetRow>
  {
    match LatestSnapshot(snapshots, sourceId)
    case Some(s) => s.data
    case None => map[]
  }

  /** The feeds and snapshots a spreadsheet check leaves. */
  datatype SheetState = SheetState(feeds: map<string, Feed>, snapshots: seq<Snapshot>)

  /**
   * checkGoogleSheetFeed. A missing API key throws, and the catch leaves everything as it was. A
   * sheet not modified since the last check only gets its check time refreshed. Otherwise the
   * first read is diffed against the newest snapshot; when it has changes, a second read is
   * stored as a new snapshot. The check time is refreshed unless a read failed.
   */
  function SheetChecked(feeds: map<string, Feed>, snapshots: seq<Snapshot>, sourceId: string, apiKey: string,
                        modified: ModifiedAnswer, first: ValuesAnswer, second: ValuesAnswer, now: int): SheetState
    requires sourceId in feeds
  {
    var feed := feeds[sourceId];
    var refreshed := feeds[sourceId := feed.(lastCheckedAt := Some(now))];
    match GetLastModifiedTime(apiKey, modified)
    case Err(_) => SheetState(feeds, snapshots)
    case Ok(modifiedTime) =>
      if modifiedTime.Some? && feed.lastCheckedAt.Some? && modifiedTime.value <= feed.lastCheckedAt.value then
        SheetState(refreshed, snapshots)
      else if first.ValuesFailed? then SheetState(feeds, snapshots)
      else if |Changes(SheetData(first.grid), Baseline(snapshots, sourceId))| == 0 then SheetState(refreshed, snapshots)
      else if second.ValuesFailed? then SheetState(feeds, snapshots)
      else SheetState(refreshed, snapshots + [Snapshot(sourceId, DataMap(SheetData(second.grid)), now)])
  }

  /**
   * A spreadsheet check touches only its own feed's check time; an unmodified sheet gets nothing
   * else; a snapshot is added, for this feed and from the second read, only when the first read
   * differs from the newest snapshot; and the check time moves whenever a snapshot is added.
   */
  lemma SheetCheckedMeaning(feeds: map<string, Feed>, snapshots: seq<Snapshot>, sourceId: string, apiKey: string,
                            modified: ModifiedAnswer, first: ValuesAnswer, second: ValuesAnswer, now: int)
    requires sourceId in feeds
    ensures var r := SheetChecked(feeds, snapshots, sourceId, apiKey, modified, first, second, now);
      var feed := feeds[sourceId];
      (r.feeds == feeds || r.feeds == feeds[sourceId := feed.(lastCheckedAt := Some(now))])
      && (apiKey == "" ==> r == SheetState(feeds, snapshots))
      && (apiKey != "" && modified.Modified? && modified.modifiedTime.Some? && feed.lastCheckedAt.Some?
          && modified.modifiedTime.value <= feed.lastCheckedAt.value ==>
            r == SheetState(feeds[sourceId := feed.(lastCheckedAt := Some(now))], snapshots))
      && (r.snapshots == snapshots
          || (r.snapshots == snapshots + [Snapshot(sourceId, DataMap(SheetData(second.grid)), now)]
              && first.Values? && second.Values?
              && |Changes(SheetData(first.grid), Baseline(snapshots, sourceId))| > 0
              && r.feeds[sourceId].lastCheckedAt == Some(now)))
  {
  }

  /** The snapshot just stored is the newest one of its feed. */
  lemma LatestAfterStore(snapshots: seq<Snapshot>, s: Snapshot)
    ensures LatestSnapshot(snapshots + [s], s.feedSourceId) == Some(s)
    ensures Baseline(snapshots + [s], s.feedSourceId) == s.data
  {
  }

  /**
   * A check that stored a snapshot is followed by one that finds the sheet unchanged: when the
   * next first read returns the rows that snapshot was taken from (each name once), it reports
   * no change and stores no snapshot, whatever the clock and the modification time say.
   */
  lemma RecheckStoresNothing(feeds: map<string, Feed>, snapshots: seq<Snapshot>, sourceId: string, apiKey: string,
                             modified: ModifiedAnswer, first: ValuesAnswer, second: ValuesAnswer, now: int,
                             modified2: ModifiedAnswer, second2: ValuesAnswer, later: int)
    requires sourceId in feeds && second.Values?
    requires var rows := SheetData(second.grid);
      forall i, j :: 0 <= i < j < |rows| && rows[i].modName != "" ==> rows[i].modName != rows[j].modName
    requires var r := SheetChecked(feeds, snapshots, sourceId, apiKey, modified, first, second, now);
      |r.snapshots| > |snapshots|
    ensures var r := SheetChecked(feeds, snapshots, sourceId, apiKey, modified, first, second, now);
      var r2 := SheetChecked(r.feeds, r.snapshots, sourceId, apiKey, modified2, second, second2, later);
      r2.snapshots == r.snapshots
  {
    var r := SheetChecked(feeds, snapshots, sourceId, apiKey, modified, first, second, now);
    SheetCheckedMeaning(feeds, snapshots, sourceId, apiKey, modified, first, second, now);
    var s := Snapshot(sourceId, DataMap(SheetData(second.grid)), now);
    LatestAfterStore(snapshots, s);
    SnapshotOfSameRowsHasNoChanges(SheetData(second.grid));
  }

  /** checkGoogleSheetFeed on the store; `values` answers a read of (spreadsheet, range, read number). */
  method CheckGoogleSheetFeed(db: Store, sourceId: string, apiKey: string, modified: ModifiedAnswer,
                              values: (string, string, nat) -> ValuesAnswer, now: int)
    requires sourceId in db.feeds
    modifies db
    ensures var range := RangeOf(old(db.feeds)[sourceId].description);
      SheetState(db.feeds, db.snapshots)
      == SheetChecked(old(db.feeds), old(db.snapshots), sourceId, apiKey, modified, values(sourceId, range, 0), values(sourceId, range, 1), now)
    ensures unchanged(db`posts, db`authors, db`mods, db`aliases, db`appearances, db`history, db`nextId)
  {
    var feed := db.feeds[sourceId];
    var range := RangeOf(feed.description);
    var modifiedTime := GetLastModifiedTime(apiKey, modified);
    if modifiedTime.Err? {
      return;
    }
    if modifiedTime.value.Some? && feed.lastCheckedAt.Some? {
      if modifiedTime.value.value <= feed.lastCheckedAt.value {
        db.feeds := db.feeds[sourceId := feed.(lastCheckedAt := Some(now))];
        return;
      }
    }
    var previousData := Baseline(db.snapshots, sourceId);
    var changes := DetectChanges(apiKey, values(sourceId, range, 0), previousData);
    if changes.Err? {
      return;
    }
    if |changes.value| > 0 {
      var currentData := FetchSheetData(apiKey, values(sourceId, range, 1));
      if currentData.Err? {
        return;
      }
      var dataMap := BuildDataMap(currentData.value);
      db.snapshots := db.snapshots + [Snapshot(sourceId, dataMap, now)];
    }
    db.feeds := db.feeds[sourceId := feed.(lastCheckedAt := Some(now))];
  }

  // ---------------------------------------------------------------------------------------
  // Post feeds
  // ---------------------------------------------------------------------------------------

  /** Every answer from outside a run needs, keyed by what the source asks with. */
  datatype World = World(
    posts: string -> PatreonPosts.PostsAnswer,
    apiKey: string,
    modified: string -> ModifiedAnswer,
    values: (string, string, nat) -> ValuesAnswer,
    localDate: int -> Normalization.CalendarDate,
    llm: string -> ((Groq.Prompt, nat) -> Groq.Reply),
    parse: string -> Option<Groq.Json>,
    writeError: string -> Option<string>,
    reviewChannelId: Option<string>,
    reviewChannel: ModNotification.ReviewChannel,
    sendAnswer: string -> Option<string>,
    threadAnswer: string -> Option<string>,
    channelFound: string -> bool)

  /** The attributes of an upstream post the announcement shows. */
  function Attributes(p: PatreonPosts.PostData): PatreonNotification.PostAttributes
  {
    PatreonNotification.PostAttributes(p.title, p.content, p.url, p.postType, p.minCentsPledged)
  }

  /** Whole seconds of a publication time, for Discord's timestamp (times before 1970 read as 0). */
  function Seconds(ms: int): nat
  {
    if ms < 0 then 0 else ms / 1000
  }

  /** The announcement of a new post, which depends on nothing the analysis does. */
  function Announcement(feed: Feed, p: PatreonPosts.PostData, w: World): Option<PatreonNotification.Notification>
  {
    PatreonNotification.SendNewPostNotification(w.channelFound(feed.notificationChannelId), Attributes(p), feed.creatorName, Seconds(p.publishedAt))
  }

  /** The announcements delivered for a feed's new posts, in order. */
  function Announcements(feed: Feed, ps: seq<PatreonPosts.PostData>, w: World): seq<PatreonNotification.Notification>
  {
    if |ps| == 0 then []
    else
      var a := Announcement(feed, ps[|ps| - 1], w);
      Announcements(feed, ps[..|ps| - 1], w) + (if a.Some? then [a.value] else [])
  }

  /**
   * The announcements of a feed are all delivered or none is: one per new post, in order, when
   * the feed's channel is in the cache, and none otherwise.
   */
  lemma {:induction false} AnnouncementsAllOrNothing(feed: Feed, ps: seq<PatreonPosts.PostData>, w: World)
    ensures var r := Announcements(feed, ps, w);
      (w.channelFound(feed.notificationChannelId) ==>
         |r| == |ps| && forall j :: 0 <= j < |ps| ==> Some(r[j]) == Announcement(feed, ps[j], w))
      && (!w.channelFound(feed.notificationChannelId) ==> r == [])
  {
    if |ps| > 0 {
      var front := ps[..|ps| - 1];
      AnnouncementsAllOrNothing(feed, front, w);
      assert forall j :: 0 <= j < |front| ==> front[j] == ps[j];
    }
  }

  // ---------------------------------------------------------------------------------------
  // What a run writes
  // ---------------------------------------------------------------------------------------

  /** The tables a run writes. */
  datatype Written = Written(feeds: map<string, Feed>, posts: map<string, Post>, appearances: map<Id, Appearance>,
                             snapshots: seq<Snapshot>, nextId: nat)

  /** The registry a run reads and never writes. */
  datatype Registry = Registry(authors: map<Id, Author>, mods: map<Id, Mod>, aliases: map<Id, Alias>)

  /** The tables after a check, and the announcements it sent, in order. */
  datatype Run = Run(state: Written, sent: seq<PatreonNotification.Notification>)

  function WrittenOf(db: Store): Written
    reads db
  {
    Written(db.feeds, db.posts, db.appearances, db.snapshots, db.nextId)
  }

  function RegistryOf(db: Store): Registry
    reads db
  {
    Registry(db.authors, db.mods, db.aliases)
  }

  /** Every appearance id is below the next id. */
  predicate Fits(s: Written)
  {
    forall k :: k in s.appearances ==> k < s.nextId
  }

  /** What the analysis of one stored new post writes, on the tables as they are when it runs. */
  function Analysis(s: Written, reg: Registry, sourceId: string, p: PatreonPosts.PostData, now: int, w: World): ModDetection.Analyzed
    requires p.id in s.posts
  {
    var content := if p.content.Some? then p.content.value else "";
    var cands := ModDetection.Candidates(s.feeds, reg.authors, reg.mods, reg.aliases, s.nextId, sourceId);
    ModDetection.AnalysisResult(p.id, s.posts[p.id], p.title, content, cands,
      Groq.Extracted(p.title, content, ModDetection.KnownNames(cands), w.llm(p.id), w.parse),
      w.writeError(p.id), w.localDate(p.publishedAt), now)
  }

  /** The tables once the analysis of a stored new post is written. */
  function AfterAnalysis(s: Written, reg: Registry, sourceId: string, p: PatreonPosts.PostData, now: int, w: World): (d: Written)
    requires p.id in s.posts
    ensures d.posts.Keys == s.posts.Keys
  {
    var result := Analysis(s, reg, sourceId, p, now, w);
    s.(posts := s.posts[p.id := result.post], appearances := ModDetection.AddRows(s.appearances, s.nextId, result.rows),
       nextId := s.nextId + |result.rows|)
  }

  /** The tables once the review notification of a post has stamped its appearances. */
  function AfterNotify(s: Written, p: PatreonPosts.PostData, w: World): Written
  {
    s.(appearances := ModNotification.NotifiedAppearances(w.reviewChannelId, s.posts, s.appearances, s.nextId, p.id,
                                                          w.reviewChannel, w.sendAnswer(p.id), w.threadAnswer(p.id)))
  }

  /** The tables once a stored post is marked announced. */
  function AfterMark(s: Written, postId: string): Written
    requires postId in s.posts
  {
    s.(posts := s.posts[postId := s.posts[postId].(isNotified := true)])
  }

  /**
   * The work on one stored new post: the analysis writes the post and its appearances as
   * AnalysisResult says, the review notification stamps them as Notify says, and the post is
   * marked announced.
   */
  function PostDone(s: Written, reg: Registry, sourceId: string, p: PatreonPosts.PostData, now: int, w: World): (d: Written)
    requires p.id in s.posts
    ensures d.posts.Keys == s.posts.Keys
  {
    AfterMark(AfterNotify(AfterAnalysis(s, reg, sourceId, p, now, w), p, w), p.id)
  }

  /** The analysis of a stored post keeps its identity and writes rows only for it. */
  lemma AnalysisKeepsPost(s: Written, reg: Registry, sourceId: string, p: PatreonPosts.PostData, now: int, w: World)
    requires p.id in s.posts
    ensures var result := Analysis(s, reg, sourceId, p, now, w);
      result.post.analyzed && result.post.title == s.posts[p.id].title
      && result.post.feedSourceId == s.posts[p.id].feedSourceId
      && forall j :: 0 <= j < |result.rows| ==> result.rows[j].postId == p.id
  {
    var content := if p.content.Some? then p.content.value else "";
    var cands := ModDetection.Candidates(s.feeds, reg.authors, reg.mods, reg.aliases, s.nextId, sourceId);
    ModDetection.AnalysisResultMeaning(p.id, s.posts[p.id], p.title, content, cands,
      Groq.Extracted(p.title, content, ModDetection.KnownNames(cands), w.llm(p.id), w.parse),
      w.writeError(p.id), w.localDate(p.publishedAt), now);
  }

  /**
   * `d` is `s` after an analysis of the post `id`: the post ends analyzed with its title and feed
   * kept, no other post changes, every appearance is kept, the new ones belong to the post, and
   * the feeds and snapshots are untouched.
   */
  predicate AnalysisKept(s: Written, d: Written, id: string)
  {
    id in s.posts && d.posts.Keys == s.posts.Keys
    && d.posts[id].analyzed && d.posts[id].title == s.posts[id].title && d.posts[id].feedSourceId == s.posts[id].feedSourceId
    && (forall k :: k in s.posts && k != id ==> d.posts[k] == s.posts[k])
    && d.feeds == s.feeds && d.snapshots == s.snapshots && d.nextId >= s.nextId && Fits(d)
    && (forall k :: k in s.appearances ==> k in d.appearances && d.appearances[k] == s.appearances[k])
    && (forall k :: k in d.appearances && k !in s.appearances ==> d.appearances[k].postId == id)
  }

  /** Rows for the post `id` added under fresh ids keep every earlier row and belong to the post. */
  lemma AddedRowsKept(s: Written, id: string, rows: seq<Appearance>)
    requires Fits(s)
    requires forall j :: 0 <= j < |rows| ==> rows[j].postId == id
    ensures var apps := ModDetection.AddRows(s.appearances, s.nextId, rows);
      (forall k :: k in s.appearances ==> k in apps && apps[k] == s.appearances[k])
      && (forall k :: k in apps && k !in s.appearances ==> apps[k].postId == id)
      && (forall k :: k in apps ==> k < s.nextId + |rows|)
  {
    var apps := ModDetection.AddRows(s.appearances, s.nextId, rows);
    ModDetection.AddRowsMeaning(s.appearances, s.nextId, rows);
    forall k | k in apps && k !in s.appearances
      ensures apps[k].postId == id
    {
      assert apps[k] == rows[k - s.nextId];
    }
  }

  /** The analysis of a stored post stays with that post. */
  lemma AfterAnalysisMeaning(s: Written, reg: Registry, sourceId: string, p: PatreonPosts.PostData, now: int, w: World)
    requires p.id in s.posts && Fits(s)
    ensures AnalysisKept(s, AfterAnalysis(s, reg, sourceId, p, now, w), p.id)
  {
    var result := Analysis(s, reg, sourceId, p, now, w);
    AnalysisKeepsPost(s, reg, sourceId, p, now, w);
    AddedRowsKept(s, p.id, result.rows);
  }

  /**
   * The review notification changes nothing but the appearances of its own post, and of those
   * neither the ids nor the post.
   */
  lemma AfterNotifyMeaning(s: Written, p: PatreonPosts.PostData, w: World)
    ensures var d := AfterNotify(s, p, w);
      d.posts == s.posts && d.feeds == s.feeds && d.snapshots == s.snapshots && d.nextId == s.nextId
      && d.appearances.Keys == s.appearances.Keys
      && (forall k :: k in s.appearances ==> d.appearances[k].postId == s.appearances[k].postId)
      && (forall k :: k in s.appearances && s.appearances[k].postId != p.id ==> d.appearances[k] == s.appearances[k])
  {
    ModNotification.NotifiedAppearancesKeepOthers(w.reviewChannelId, s.posts, s.appearances, s.nextId, p.id,
                                                  w.reviewChannel, w.sendAnswer(p.id), w.threadAnswer(p.id));
  }

  /**
   * `d` is `s` after work that stays with the post `id`: the post ends analyzed and announced
   * with its title and feed kept, no other post changes, the appearances of other posts are kept,
   * new appearances belong to it, and the feeds and snapshots are untouched.
   */
  predicate PostKept(s: Written, d: Written, id: string)
  {
    id in s.posts && d.posts.Keys == s.posts.Keys
    && d.posts[id].isNotified && d.posts[id].analyzed
    && d.posts[id].title == s.posts[id].title && d.posts[id].feedSourceId == s.posts[id].feedSourceId
    && (forall k :: k in s.posts && k != id ==> d.posts[k] == s.posts[k])
    && d.feeds == s.feeds && d.snapshots == s.snapshots && d.nextId >= s.nextId && Fits(d)
    && (forall k :: k in s.appearances && s.appearances[k].postId != id ==> k in d.appearances && d.appearances[k] == s.appearances[k])
    && (forall k :: k in d.appearances && k !in s.appearances ==> d.appearances[k].postId == id)
  }

  /** An analysis, a notification that keeps to the post and the mark together stay with the post. */
  lemma StagesKept(s: Written, a: Written, n: Written, id: string)
    requires AnalysisKept(s, a, id)
    requires n.posts == a.posts && n.feeds == a.feeds && n.snapshots == a.snapshots && n.nextId == a.nextId
    requires n.appearances.Keys == a.appearances.Keys
    requires forall k :: k in a.appearances ==> n.appearances[k].postId == a.appearances[k].postId
    requires forall k :: k in a.appearances && a.appearances[k].postId != id ==> n.appearances[k] == a.appearances[k]
    ensures PostKept(s, AfterMark(n, id), id)
  {
  }

  /** One post's work stays with that post. */
  lemma PostDoneMeaning(s: Written, reg: Registry, sourceId: string, p: PatreonPosts.PostData, now: int, w: World)
    requires p.id in s.posts && Fits(s)
    ensures PostKept(s, PostDone(s, reg, sourceId, p, now, w), p.id)
  {
    var a := AfterAnalysis(s, reg, sourceId, p, now, w);
    AfterAnalysisMeaning(s, reg, sourceId, p, now, w);
    AfterNotifyMeaning(a, p, w);
    StagesKept(s, a, AfterNotify(a, p, w), p.id);
  }

  /** The work on a feed's new posts, one after the other. */
  function PostsDone(s: Written, reg: Registry, sourceId: string, ps: seq<PatreonPosts.PostData>, now: int, w: World): (d: Written)
    requires forall j :: 0 <= j < |ps| ==> ps[j].id in s.posts
    ensures d.posts.Keys == s.posts.Keys
    decreases |ps|
  {
    if |ps| == 0 then s
    else PostDone(PostsDone(s, reg, sourceId, ps[..|ps| - 1], now, w), reg, sourceId, ps[|ps| - 1], now, w)
  }

  /**
   * `d` is `s` after work on the posts `ps`: every one of them ends analyzed and announced,
   * every other post is as it was, so are the appearances of every other post, and the feeds and
   * snapshots are untouched.
   */
  predicate PostsKept(s: Written, d: Written, ps: seq<PatreonPosts.PostData>)
  {
    d.posts.Keys == s.posts.Keys
    && (forall j :: 0 <= j < |ps| ==> ps[j].id in d.posts && d.posts[ps[j].id].isNotified && d.posts[ps[j].id].analyzed)
    && (forall k :: k in s.posts && (forall j :: 0 <= j < |ps| ==> ps[j].id != k) ==> d.posts[k] == s.posts[k])
    && d.feeds == s.feeds && d.snapshots == s.snapshots && d.nextId >= s.nextId && Fits(d)
    && (forall k :: k in s.appearances && (forall j :: 0 <= j < |ps| ==> ps[j].id != s.appearances[k].postId) ==>
          k in d.appearances && d.appearances[k] == s.appearances[k])
  }

  /** Work on a further distinct post that stays with it extends the work on the posts before it. */
  lemma PostsKeptStep(s: Written, before: Written, d: Written, ps: seq<PatreonPosts.PostData>)
    requires |ps| > 0
    requires forall i, j :: 0 <= i < j < |ps| ==> ps[i].id != ps[j].id
    requires PostsKept(s, before, ps[..|ps| - 1]) && PostKept(before, d, ps[|ps| - 1].id)
    ensures PostsKept(s, d, ps)
  {
    var front := ps[..|ps| - 1];
    var id := ps[|ps| - 1].id;
    assert forall j :: 0 <= j < |front| ==> front[j] == ps[j];
    forall j | 0 <= j < |ps|
      ensures ps[j].id in d.posts && d.posts[ps[j].id].isNotified && d.posts[ps[j].id].analyzed
    {
      if j < |front| {
        assert ps[j].id != id;
        assert front[j].id == ps[j].id;
      }
    }
    forall k | k in s.posts && (forall j :: 0 <= j < |ps| ==> ps[j].id != k)
      ensures d.posts[k] == s.posts[k]
    {
      assert forall j :: 0 <= j < |front| ==> front[j].id != k;
      assert before.posts[k] == s.posts[k];
      assert k != id;
    }
    forall k | k in s.appearances && (forall j :: 0 <= j < |ps| ==> ps[j].id != s.appearances[k].postId)
      ensures k in d.appearances && d.appearances[k] == s.appearances[k]
    {
      assert forall j :: 0 <= j < |front| ==> front[j].id != s.appearances[k].postId;
      assert k in before.appearances && before.appearances[k] == s.appearances[k];
      assert before.appearances[k].postId != id;
    }
  }

  /** The work on distinct stored posts, one after the other, stays with those posts. */
  lemma {:induction false} PostsDoneMeaning(s: Written, reg: Registry, sourceId: string, ps: seq<PatreonPosts.PostData>, now: int, w: World)
    requires forall j :: 0 <= j < |ps| ==> ps[j].id in s.posts
    requires forall i, j :: 0 <= i < j < |ps| ==> ps[i].id != ps[j].id
    requires Fits(s)
    ensures PostsKept(s, PostsDone(s, reg, sourceId, ps, now, w), ps)
    decreases |ps|
  {
    if |ps| > 0 {
      var front := ps[..|ps| - 1];
      var p := ps[|ps| - 1];
      assert forall j :: 0 <= j < |front| ==> front[j] == ps[j];
      PostsDoneMeaning(s, reg, sourceId, front, now, w);
      var before := PostsDone(s, reg, sourceId, front, now, w);
      PostDoneMeaning(before, reg, sourceId, p, now, w);
      PostsKeptStep(s, before, PostDone(before, reg, sourceId, p, now, w), ps);
    }
  }

  /**
   * checkForNewPosts followed by the work on each new post: nothing for a missing or inactive
   * feed or a failed fetch; otherwise the feed's check time, the ingested posts, the work on each
   * new post and one announcement per new post while the feed's channel is found.
   */
  function PostFeedDone(s: Written, reg: Registry, sourceId: string, feed: Feed, now: int, w: World): Run
  {
    var answer := w.posts(sourceId);
    if sourceId !in s.feeds || !s.feeds[sourceId].isActive || answer.PostsFailed? then Run(s, [])
    else
      var cutoff := now - PatreonPosts.TenDays;
      var ingested := PatreonPosts.Ingest(s.posts, answer.posts, sourceId, cutoff);
      IngestFacts(s.posts, answer.posts, sourceId, cutoff);
      var checked := s.(feeds := s.feeds[sourceId := s.feeds[sourceId].(lastCheckedAt := Some(now))], posts := ingested.posts);
      Run(PostsDone(checked, reg, sourceId, ingested.added, now, w), Announcements(feed, ingested.added, w))
  }

  /** The check of one due feed: the spreadsheet path or the post path. */
  function FeedDone(s: Written, reg: Registry, sourceId: string, feed: Feed, now: int, w: World): Run
  {
    if feed.platform != GoogleSheets then PostFeedDone(s, reg, sourceId, feed, now, w)
    else if sourceId !in s.feeds then Run(s, [])
    else
      var range := RangeOf(s.feeds[sourceId].description);
      var c := SheetChecked(s.feeds, s.snapshots, sourceId, w.apiKey, w.modified(sourceId),
                            w.values(sourceId, range, 0), w.values(sourceId, range, 1), now);
      Run(s.(feeds := c.feeds, snapshots := c.snapshots), [])
  }

  /**
   * `d` is `s` after the check of the feed `sourceId`: no feed is added or removed and no other
   * feed changes, every stored post is kept exactly, every post the check stores ends analyzed
   * and announced, and appearance ids stay below the next id, which does not go down.
   */
  predicate FeedKept(s: Written, d: Written, sourceId: string)
  {
    d.feeds.Keys == s.feeds.Keys && Fits(d) && d.nextId >= s.nextId
    && (forall k :: k in s.feeds && k != sourceId ==> d.feeds[k] == s.feeds[k])
    && (forall k :: k in s.posts ==> k in d.posts && d.posts[k] == s.posts[k])
    && (forall k :: k in d.posts && k !in s.posts ==> d.posts[k].isNotified && d.posts[k].analyzed)
  }

  /**
   * The check of a post feed keeps to its feed and leaves the snapshots alone. When the feed is
   * active and answered it gets the check time of the run and sends one announcement per new post
   * while its channel is found; a feed that is missing, inactive or not answered changes nothing.
   */
  lemma PostFeedDoneMeaning(s: Written, reg: Registry, sourceId: string, feed: Feed, now: int, w: World)
    requires Fits(s)
    ensures var d := PostFeedDone(s, reg, sourceId, feed, now, w);
      FeedKept(s, d.state, sourceId) && d.state.snapshots == s.snapshots
      && (!(sourceId in s.feeds && s.feeds[sourceId].isActive && w.posts(sourceId).PostsListed?) ==> d == Run(s, []))
      && (sourceId in s.feeds && s.feeds[sourceId].isActive && w.posts(sourceId).PostsListed? ==>
            d.state.feeds[sourceId].lastCheckedAt == Some(now)
            && d.sent == Announcements(feed, PatreonPosts.Ingest(s.posts, w.posts(sourceId).posts, sourceId, now - PatreonPosts.TenDays).added, w))
  {
    if sourceId in s.feeds && s.feeds[sourceId].isActive && w.posts(sourceId).PostsListed? {
      var cutoff := now - PatreonPosts.TenDays;
      var upstream := w.posts(sourceId).posts;
      var ingested := PatreonPosts.Ingest(s.posts, upstream, sourceId, cutoff);
      IngestFacts(s.posts, upstream, sourceId, cutoff);
      var checked := s.(feeds := s.feeds[sourceId := s.feeds[sourceId].(lastCheckedAt := Some(now))], posts := ingested.posts);
      PostsDoneMeaning(checked, reg, sourceId, ingested.added, now, w);
      PostsKeepFeed(s, checked, PostsDone(checked, reg, sourceId, ingested.added, now, w), sourceId, ingested.added);
    }
  }

  /**
   * Work on the new posts of a feed whose row was updated and whose new posts were stored keeps
   * to that feed.
   */
  lemma PostsKeepFeed(s: Written, checked: Written, d: Written, sourceId: string, added: seq<PatreonPosts.PostData>)
    requires Fits(s) && sourceId in s.feeds
    requires sourceId in checked.feeds && checked.feeds == s.feeds[sourceId := checked.feeds[sourceId]]
    requires checked.appearances == s.appearances && checked.nextId == s.nextId && checked.snapshots == s.snapshots
    requires forall k :: k in s.posts ==> k in checked.posts && checked.posts[k] == s.posts[k]
    requires forall j :: 0 <= j < |added| ==> added[j].id !in s.posts
    requires forall k :: k in checked.posts && k !in s.posts ==> exists j :: 0 <= j < |added| && added[j].id == k
    requires PostsKept(checked, d, added)
    ensures FeedKept(s, d, sourceId) && d.snapshots == s.snapshots && d.feeds == checked.feeds
  {
    forall k | k in s.posts
      ensures k in d.posts && d.posts[k] == s.posts[k]
    {
      assert forall j :: 0 <= j < |added| ==> added[j].id != k;
    }
    forall k | k in d.posts && k !in s.posts
      ensures d.posts[k].isNotified && d.posts[k].analyzed
    {
      var j :| 0 <= j < |added| && added[j].id == k;
    }
  }

  /**
   * The check of a spreadsheet feed keeps to its feed, sends nothing and touches no post or
   * appearance.
   */
  lemma SheetFeedDoneMeaning(s: Written, reg: Registry, sourceId: string, feed: Feed, now: int, w: World)
    requires Fits(s) && feed.platform == GoogleSheets
    ensures var d := FeedDone(s, reg, sourceId, feed, now, w);
      FeedKept(s, d.state, sourceId) && d.sent == [] && d.state.posts == s.posts && d.state.appearances == s.appearances
  {
    if sourceId in s.feeds {
      var range := RangeOf(s.feeds[sourceId].description);
      SheetCheckedMeaning(s.feeds, s.snapshots, sourceId, w.apiKey, w.modified(sourceId),
                          w.values(sourceId, range, 0), w.values(sourceId, range, 1), now);
    }
  }

  /**
   * A feed check keeps to its feed. A spreadsheet feed sends nothing and touches no post or
   * appearance. A post feed leaves the snapshots alone; when it is active and answered it gets
   * the check time of the run and sends one announcement per new post while its channel is
   * found, and when it is missing, inactive or not answered nothing changes.
   */
  lemma FeedDoneMeaning(s: Written, reg: Registry, sourceId: string, feed: Feed, now: int, w: World)
    requires Fits(s)
    ensures var d := FeedDone(s, reg, sourceId, feed, now, w);
      FeedKept(s, d.state, sourceId)
      && (feed.platform == GoogleSheets ==>
            d.sent == [] && d.state.posts == s.posts && d.state.appearances == s.appearances)
      && (feed.platform != GoogleSheets ==> d == PostFeedDone(s, reg, sourceId, feed, now, w) && d.state.snapshots == s.snapshots)
      && (feed.platform != GoogleSheets && !(sourceId in s.feeds && s.feeds[sourceId].isActive && w.posts(sourceId).PostsListed?) ==>
            d == Run(s, []))
      && (feed.platform != GoogleSheets && sourceId in s.feeds && s.feeds[sourceId].isActive && w.posts(sourceId).PostsListed? ==>
            d.state.feeds[sourceId].lastCheckedAt == Some(now)
            && d.sent == Announcements(feed, PatreonPosts.Ingest(s.posts, w.posts(sourceId).posts, sourceId, now - PatreonPosts.TenDays).added, w))
  {
    if feed.platform == GoogleSheets {
      SheetFeedDoneMeaning(s, reg, sourceId, feed, now, w);
    } else {
      PostFeedDoneMeaning(s, reg, sourceId, feed, now, w);
    }
  }

  /**
   * checkAllFeeds over the listed feeds, in order: each is checked when it is due by its row as
   * read at the start of the run, and the announcements of the checks follow one another.
   */
  function AllDone(s: Written, reg: Registry, feeds: map<string, Feed>, order: seq<string>, now: int, w: World): Run
    decreases |order|
  {
    if |order| == 0 then Run(s, [])
    else
      var before := AllDone(s, reg, feeds, order[..|order| - 1], now, w);
      var k := order[|order| - 1];
      if k in feeds && Due(feeds[k], now) then
        var c := FeedDone(before.state, reg, k, feeds[k], now, w);
        Run(c.state, before.sent + c.sent)
      else before
  }

  /**
   * A run changes only the rows of listed feeds that were due, keeps every stored post as it was,
   * leaves every post it stores analyzed and announced, and keeps appearance ids below the next id.
   */
  lemma {:induction false} AllDoneMeaning(s: Written, reg: Registry, feeds: map<string, Feed>, order: seq<string>, now: int, w: World)
    requires Fits(s)
    ensures var d := AllDone(s, reg, feeds, order, now, w);
      d.state.feeds.Keys == s.feeds.Keys && Fits(d.state) && d.state.nextId >= s.nextId
      && (forall k :: k in s.feeds && !(k in order && k in feeds && Due(feeds[k], now)) ==> d.state.feeds[k] == s.feeds[k])
      && (forall k :: k in s.posts ==> k in d.state.posts && d.state.posts[k] == s.posts[k])
      && (forall k :: k in d.state.posts && k !in s.posts ==> d.state.posts[k].isNotified && d.state.posts[k].analyzed)
    decreases |order|
  {
    if |order| > 0 {
      var front := order[..|order| - 1];
      var k := order[|order| - 1];
      AllDoneMeaning(s, reg, feeds, front, now, w);
      var before := AllDone(s, reg, feeds, front, now, w);
      if k in feeds && Due(feeds[k], now) {
        FeedDoneMeaning(before.state, reg, k, feeds[k], now, w);
      }
      assert forall x :: x in front ==> x in order;
    }
  }

  // ---------------------------------------------------------------------------------------
  // The run on the store
  // ---------------------------------------------------------------------------------------

  /** The analysis of one stored new post, in the terms of the written tables. */
  method AnalyzeNewPost(db: Store, sourceId: string, p: PatreonPosts.PostData, now: int, w: World)
    requires db.Valid() && p.id in db.posts
    modifies db
    ensures db.Valid()
    ensures WrittenOf(db) == AfterAnalysis(old(WrittenOf(db)), old(RegistryOf(db)), sourceId, p, now, w)
    ensures unchanged(db`authors, db`mods, db`aliases, db`history)
  {
    var content := if p.content.Some? then p.content.value else "";
    var _, _ := ModDetection.AnalyzePost(db, p.id, p.title, content, p.publishedAt, w.localDate(p.publishedAt),
                                         sourceId, now, w.llm(p.id), w.parse, w.writeError(p.id));
  }

  /** The review notification of one analysed post, in the terms of the written tables. */
  method NotifyNewPost(db: Store, p: PatreonPosts.PostData, w: World)
    requires db.Valid()
    modifies db
    ensures db.Valid()
    ensures WrittenOf(db) == AfterNotify(old(WrittenOf(db)), p, w)
    ensures unchanged(db`authors, db`mods, db`aliases, db`history)
  {
    var _, _ := ModNotification.NotifyModsDetected(db, p.id, w.reviewChannelId, w.reviewChannel,
                                                    w.sendAnswer(p.id), w.threadAnswer(p.id));
    ModNotification.NotifyAppearances(w.reviewChannelId, db.posts, db.authors, db.mods, old(db.appearances), db.nextId, p.id,
                                      w.reviewChannel, w.sendAnswer(p.id), w.threadAnswer(p.id));
  }

  /**
   * The work on one new post: its analysis, its review notification, its announcement and its
   * mark. Analysis failures are contained: the announcement and the mark happen whatever the
   * analysis did.
   */
  method ProcessNewPost(db: Store, sourceId: string, feed: Feed, p: PatreonPosts.PostData, now: int, w: World)
    returns (note: Option<PatreonNotification.Notification>)
    requires db.Valid() && p.id in db.posts
    modifies db
    ensures db.Valid()
    ensures WrittenOf(db) == PostDone(old(WrittenOf(db)), RegistryOf(db), sourceId, p, now, w)
    ensures unchanged(db`authors, db`mods, db`aliases, db`history)
    ensures note == Announcement(feed, p, w)
  {
    AnalyzeNewPost(db, sourceId, p, now, w);
    NotifyNewPost(db, p, w);
    note := Announcement(feed, p, w);
    var _ := PatreonPosts.MarkPostAsNotified(db, p.id);
  }

  /** The work on the first `i + 1` posts is the work on the first `i` followed by the next one. */
  lemma PostsDoneNext(s: Written, reg: Registry, sourceId: string, ps: seq<PatreonPosts.PostData>, i: nat, now: int, w: World)
    requires i < |ps| && forall j :: 0 <= j < |ps| ==> ps[j].id in s.posts
    ensures ps[i].id in PostsDone(s, reg, sourceId, ps[..i], now, w).posts
    ensures PostsDone(s, reg, sourceId, ps[..i + 1], now, w)
      == PostDone(PostsDone(s, reg, sourceId, ps[..i], now, w), reg, sourceId, ps[i], now, w)
  {
    assert ps[..i + 1][..i] == ps[..i];
  }

  /** The announcements of the first `i + 1` posts are those of the first `i` and then the next one's. */
  lemma AnnouncementsNext(feed: Feed, ps: seq<PatreonPosts.PostData>, i: nat, w: World)
    requires i < |ps|
    ensures var a := Announcement(feed, ps[i], w);
      Announcements(feed, ps[..i + 1], w) == Announcements(feed, ps[..i], w) + (if a.Some? then [a.value] else [])
  {
    assert ps[..i + 1][..i] == ps[..i];
  }

  /** The loop over a feed's new posts. */
  method ProcessNewPosts(db: Store, sourceId: string, feed: Feed, ps: seq<PatreonPosts.PostData>, now: int, w: World)
    returns (sent: seq<PatreonNotification.Notification>)
    requires db.Valid()
    requires forall j :: 0 <= j < |ps| ==> ps[j].id in db.posts
    modifies db
    ensures db.Valid()
    ensures WrittenOf(db) == PostsDone(old(WrittenOf(db)), RegistryOf(db), sourceId, ps, now, w)
    ensures unchanged(db`authors, db`mods, db`aliases, db`history)
    ensures sent == Announcements(feed, ps, w)
  {
    ghost var start := WrittenOf(db);
    sent := [];
    var i := 0;
    while i < |ps|
      invariant 0 <= i <= |ps|
      invariant db.Valid()
      invariant unchanged(db`authors, db`mods, db`aliases, db`history)
      invariant WrittenOf(db) == PostsDone(start, RegistryOf(db), sourceId, ps[..i], now, w)
      invariant sent == Announcements(feed, ps[..i], w)
    {
      PostsDoneNext(start, RegistryOf(db), sourceId, ps, i, now, w);
      AnnouncementsNext(feed, ps, i, w);
      var note := ProcessNewPost(db, sourceId, feed, ps[i], now, w);
      if note.Some? {
        sent := sent + [note.value];
      }
      i := i + 1;
    }
    assert ps[..i] == ps;
  }

  /** What a post check leaves, in the terms the post loop needs. */
  lemma IngestFacts(stored: map<string, Post>, upstream: seq<PatreonPosts.PostData>, sourceId: string, cutoff: int)
    ensures var r := PatreonPosts.Ingest(stored, upstream, sourceId, cutoff);
      (forall k :: k in stored ==> k in r.posts && r.posts[k] == stored[k])
      && (forall j :: 0 <= j < |r.added| ==> r.added[j].id in r.posts && r.added[j].id !in stored)
      && (forall i, j :: 0 <= i < j < |r.added| ==> r.added[i].id != r.added[j].id)
      && (forall k :: k in r.posts && k !in stored ==> exists j :: 0 <= j < |r.added| && r.added[j].id == k)
  {
    var r := PatreonPosts.Ingest(stored, upstream, sourceId, cutoff);
    PatreonPosts.IngestKeys(stored, upstream, sourceId, cutoff);
    PatreonPosts.IngestAdded(stored, upstream, sourceId, cutoff);
    forall k | k in r.posts && k !in stored
      ensures exists j :: 0 <= j < |r.added| && r.added[j].id == k
    {
      var p :| p in r.added && p.id == k;
      var j :| 0 <= j < |r.added| && r.added[j] == p;
    }
  }

  /** The check of a post feed: its new posts, each analysed, announced and marked. */
  method CheckPostFeed(db: Store, sourceId: string, feed: Feed, now: int, w: World)
    returns (sent: seq<PatreonNotification.Notification>)
    requires db.Valid()
    modifies db
    ensures db.Valid()
    ensures Run(WrittenOf(db), sent) == PostFeedDone(old(WrittenOf(db)), RegistryOf(db), sourceId, feed, now, w)
    ensures unchanged(db`authors, db`mods, db`aliases, db`history)
  {
    ghost var start := WrittenOf(db);
    var newPosts := PatreonPosts.CheckForNewPosts(db, sourceId, w.posts(sourceId), now);
    if sourceId in start.feeds && start.feeds[sourceId].isActive && w.posts(sourceId).PostsListed? {
      IngestFacts(start.posts, w.posts(sourceId).posts, sourceId, now - PatreonPosts.TenDays);
    }
    sent := ProcessNewPosts(db, sourceId, feed, newPosts, now, w);
  }

  /** The check of one due feed: the spreadsheet path or the post path. */
  method CheckFeed(db: Store, sourceId: string, feed: Feed, now: int, w: World)
    returns (sent: seq<PatreonNotification.Notification>)
    requires db.Valid() && sourceId in db.feeds
    modifies db
    ensures db.Valid()
    ensures Run(WrittenOf(db), sent) == FeedDone(old(WrittenOf(db)), RegistryOf(db), sourceId, feed, now, w)
    ensures unchanged(db`authors, db`mods, db`aliases, db`history)
  {
    if feed.platform == GoogleSheets {
      CheckGoogleSheetFeed(db, sourceId, w.apiKey, w.modified(sourceId), w.values, now);
      return [];
    }
    sent := CheckPostFeed(db, sourceId, feed, now, w);
  }

  // ---------------------------------------------------------------------------------------
  // The scheduler
  // ---------------------------------------------------------------------------------------

  class PatreonScheduler {
    /** Set while a run is going, so that the next tick skips. */
    var isChecking: bool

    constructor()
      ensures !isChecking
    {
      isChecking := false;
    }

    /**
     * checkAllFeeds over the active feeds in the order the store lists them. The flag is set
     * without being tested and always cleared; the tables and the announcements are those of
     * AllDone over the feed rows read at the start.
     */
    method CheckAllFeeds(db: Store, order: seq<string>, now: int, w: World)
      returns (sent: seq<PatreonNotification.Notification>)
      requires db.Valid()
      requires forall k :: k in order ==> k in db.feeds
      modifies this, db
      ensures !isChecking && db.Valid()
      ensures Run(WrittenOf(db), sent) == AllDone(old(WrittenOf(db)), RegistryOf(db), old(db.feeds), order, now, w)
      ensures unchanged(db`authors, db`mods, db`aliases, db`history)
    {
      isChecking := true;
      var feeds := db.feeds;
      ghost var start := WrittenOf(db);
      sent := [];
      var i := 0;
      while i < |order|
        invariant 0 <= i <= |order|
        invariant db.Valid() && db.feeds.Keys == feeds.Keys
        invariant unchanged(db`authors, db`mods, db`aliases, db`history)
        invariant Run(WrittenOf(db), sent) == AllDone(start, RegistryOf(db), feeds, order[..i], now, w)
      {
        var sourceId := order[i];
        assert order[..i + 1][..i] == order[..i];
        var feed := feeds[sourceId];
        if Due(feed, now) {
          ghost var before := WrittenOf(db);
          var fromFeed := CheckFeed(db, sourceId, feed, now, w);
          assert db.feeds.Keys == before.feeds.Keys by {
            FeedDoneMeaning(before, RegistryOf(db), sourceId, feed, now, w);
          }
          sent := sent + fromFeed;
        }
        i := i + 1;
      }
      assert order[..i] == order;
      isChecking := false;
    }

    /** handleCron: skipped while a run is going; otherwise a full run. */
    method HandleCron(db: Store, order: seq<string>, now: int, w: World)
      returns (ran: bool, sent: seq<PatreonNotification.Notification>)
      requires db.Valid()
      requires Distinct(order) && forall k :: k in order <==> k in PatreonPosts.ActiveFeeds(db.feeds)
      modifies this, db
      ensures ran <==> !old(isChecking)
      ensures !ran ==> isChecking && sent == [] && unchanged(db)
      ensures ran ==> !isChecking && db.Valid()
      ensures ran ==> Run(WrittenOf(db), sent) == AllDone(old(WrittenOf(db)), RegistryOf(db), old(db.feeds), order, now, w)
      ensures unchanged(db`authors, db`mods, db`aliases, db`history)
    {
      if isChecking {
        return false, [];
      }
      sent := CheckAllFeeds(db, order, now, w);
      ran := true;
    }
  }
}
