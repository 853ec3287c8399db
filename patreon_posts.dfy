/**
 * The Patreon feed service: feeds are created and deleted, and a check of one feed stores the
 * upstream posts of the last ten days that the store does not hold yet, returning exactly those.
 * The posts API's answer is a parameter; "now" is a parameter in milliseconds.
 */
module PatreonPosts {
  import opened Wrappers
  import opened Db

  /** A post as the posts API lists it. */
  datatype PostData = PostData(
    id: string,
    title: string,
    url: string,
    content: Option<string>,
    postType: string,
    publishedAt: int,
    minCentsPledged: Option<nat>)

  /** The posts API's answer: a failure (rethrown by the fetch), or the listed posts. */
  datatype PostsAnswer = PostsFailed | PostsListed(posts: seq<PostData>)

  /** Ten days in milliseconds: posts published before `now - TenDays` are skipped. */
  const TenDays: int := 10 * 24 * 60 * 60 * 1000

  /** The fields a feed is created from; absent optional fields are `None`. */
  datatype CreateFeedDto = CreateFeedDto(
    platform: Option<Platform>,
    sourceId: string,
    creatorName: string,
    creatorUrl: Option<string>,
    description: Option<string>,
    notificationChannelId: string,
    checkIntervalMins: Option<int>)

  // ---------------------------------------------------------------------------------------
  // createFeed, deleteFeed, getActiveFeeds
  // ---------------------------------------------------------------------------------------

  /** The row createFeed writes: Patreon unless told otherwise, every 30 minutes unless a non-zero interval is given. */
  function NewFeed(dto: CreateFeedDto): Feed
  {
    Feed(
      if dto.platform.Some? then dto.platform.value else Patreon,
      dto.creatorName,
      dto.creatorUrl,
      dto.description,
      dto.notificationChannelId,
      if dto.checkIntervalMins.Some? && dto.checkIntervalMins.value != 0 then dto.checkIntervalMins.value else 30,
      true,
      None)
  }

  /**
   * A new feed is active, never checked, has a non-zero interval, and keeps every field the
   * caller gave; only an absent platform and an absent or zero interval are replaced.
   */
  lemma NewFeedDefaults(dto: CreateFeedDto)
    ensures var f := NewFeed(dto);
      f.isActive && f.lastCheckedAt.None? && f.checkIntervalMins != 0
      && f.platform == dto.platform.UnwrapOr(Patreon)
      && (dto.checkIntervalMins.Some? && dto.checkIntervalMins.value != 0 ==> f.checkIntervalMins == dto.checkIntervalMins.value)
      && (f.checkIntervalMins != 30 ==> dto.checkIntervalMins == Some(f.checkIntervalMins))
      && f.creatorName == dto.creatorName && f.notificationChannelId == dto.notificationChannelId
  {
  }

  /** createFeed: the source id is the feed's unique key, so a second feed for it is refused. */
  method CreateFeed(db: Store, dto: CreateFeedDto) returns (r: Result<Feed>)
    modifies db
    ensures dto.sourceId in old(db.feeds) ==> r == Err(UniqueViolation) && db.feeds == old(db.feeds)
    ensures dto.sourceId !in old(db.feeds) ==>
      r == Ok(NewFeed(dto)) && db.feeds == old(db.feeds)[dto.sourceId := NewFeed(dto)]
    ensures unchanged(db`posts, db`authors, db`mods, db`aliases, db`appearances, db`history, db`snapshots, db`nextId)
  {
    if dto.sourceId in db.feeds {
      return Err(UniqueViolation);
    }
    var feed := NewFeed(dto);
    db.feeds := db.feeds[dto.sourceId := feed];
    r := Ok(feed);
  }

  /** The posts that do not belong to the given feed. */
  function PostsOutside(posts: map<string, Post>, sourceId: string): map<string, Post>
  {
    map k | k in posts && posts[k].feedSourceId != sourceId :: posts[k]
  }

  /**
   * deleteFeed: the feed's posts are deleted first and the feed second, so deleting a feed the
   * store does not hold still deletes its posts before it fails.
   */
  method DeleteFeed(db: Store, sourceId: string) returns (r: Result<()>)
    modifies db
    ensures db.posts == PostsOutside(old(db.posts), sourceId)
    ensures sourceId in old(db.feeds) ==> r == Ok(()) && db.feeds == old(db.feeds) - {sourceId}
    ensures sourceId !in old(db.feeds) ==> r == Err(RecordNotFound) && db.feeds == old(db.feeds)
    ensures unchanged(db`authors, db`mods, db`aliases, db`appearances, db`history, db`snapshots, db`nextId)
  {
    db.posts := PostsOutside(db.posts, sourceId);
    if sourceId !in db.feeds {
      return Err(RecordNotFound);
    }
    db.feeds := db.feeds - {sourceId};
    r := Ok(());
  }

  /** After a deletion no post of the feed is left, and every other post is kept as it was. */
  lemma {:induction false} PostsOutsideMeaning(posts: map<string, Post>, sourceId: string, k: string)
    ensures k in PostsOutside(posts, sourceId) ==> PostsOutside(posts, sourceId)[k].feedSourceId != sourceId
    ensures k in posts && posts[k].feedSourceId != sourceId <==> k in PostsOutside(posts, sourceId) && PostsOutside(posts, sourceId)[k] == posts[k]
  {
  }

  /** getActiveFeeds: the source ids of the active feeds. */
  function ActiveFeeds(feeds: map<string, Feed>): set<string>
  {
    set k | k in feeds && feeds[k].isActive
  }

  // ---------------------------------------------------------------------------------------
  // checkForNewPosts
  // ---------------------------------------------------------------------------------------

  /** The row a newly seen post is stored as: not yet notified, not yet analysed. */
  function StoredPost(p: PostData, sourceId: string): Post
  {
    Post(sourceId, p.title, p.url, p.content, p.postType, p.publishedAt, p.minCentsPledged,
         false, false, false, None, None)
  }

  /** The posts after a check and the upstream posts it returned as new. */
  datatype Ingested = Ingested(posts: map<string, Post>, added: seq<PostData>)

  /**
   * The loop of checkForNewPosts over the upstream list: a post older than the cutoff is skipped,
   * one whose id the store already holds (including one stored earlier in the same list) is
   * skipped, and any other is stored and returned.
   */
  function Ingest(stored: map<string, Post>, upstream: seq<PostData>, sourceId: string, cutoff: int): Ingested
    decreases |upstream|
  {
    if |upstream| == 0 then Ingested(stored, [])
    else
      var before := Ingest(stored, upstream[..|upstream| - 1], sourceId, cutoff);
      var p := upstream[|upstream| - 1];
      if p.publishedAt < cutoff || p.id in before.posts then before
      else Ingested(before.posts[p.id := StoredPost(p, sourceId)], before.added + [p])
  }

  /** The ids of the upstream posts inside the window. */
  function RecentIds(upstream: seq<PostData>, cutoff: int): set<string>
  {
    set i | 0 <= i < |upstream| && upstream[i].publishedAt >= cutoff :: upstream[i].id
  }

  /** The window ids of a list grow by the last post's id when that post is recent. */
  lemma RecentIdsSnoc(upstream: seq<PostData>, cutoff: int)
    requires |upstream| > 0
    ensures var p := upstream[|upstream| - 1];
      RecentIds(upstream, cutoff)
      == RecentIds(upstream[..|upstream| - 1], cutoff) + (if p.publishedAt >= cutoff then {p.id} else {})
  {
    var front := upstream[..|upstream| - 1];
    var p := upstream[|upstream| - 1];
    forall k | k in RecentIds(upstream, cutoff)
      ensures k in RecentIds(front, cutoff) || (p.publishedAt >= cutoff && k == p.id)
    {
      var i :| 0 <= i < |upstream| && upstream[i].publishedAt >= cutoff && upstream[i].id == k;
      if i < |front| {
        assert front[i] == upstream[i];
      }
    }
    forall k | k in RecentIds(front, cutoff)
      ensures k in RecentIds(upstream, cutoff)
    {
      var i :| 0 <= i < |front| && front[i].publishedAt >= cutoff && front[i].id == k;
      assert upstream[i] == front[i];
    }
    if p.publishedAt >= cutoff {
      assert upstream[|upstream| - 1] == p;
    }
  }

  /**
   * What a check keeps and adds: every post held before is kept as it was, and the keys
   * afterwards are the old keys plus the ids of the recent upstream posts.
   */
  lemma {:induction false} IngestKeys(stored: map<string, Post>, upstream: seq<PostData>, sourceId: string, cutoff: int)
    ensures var r := Ingest(stored, upstream, sourceId, cutoff);
      (forall k :: k in stored ==> k in r.posts && r.posts[k] == stored[k])
      && r.posts.Keys == stored.Keys + RecentIds(upstream, cutoff)
    decreases |upstream|
  {
    if |upstream| > 0 {
      IngestKeys(stored, upstream[..|upstream| - 1], sourceId, cutoff);
      RecentIdsSnoc(upstream, cutoff);
    }
  }

  /**
   * What a check returns: every returned post is a recent upstream post that was not held
   * before and is now stored, not notified; no id is returned twice; and every stored post that
   * was not held before is one of those returned.
   */
  lemma {:induction false} IngestAdded(stored: map<string, Post>, upstream: seq<PostData>, sourceId: string, cutoff: int)
    ensures var r := Ingest(stored, upstream, sourceId, cutoff);
      (forall p :: p in r.added ==>
            p in upstream && p.publishedAt >= cutoff && p.id !in stored
            && p.id in r.posts && r.posts[p.id] == StoredPost(p, sourceId) && !r.posts[p.id].isNotified)
      && (forall i, j :: 0 <= i < j < |r.added| ==> r.added[i].id != r.added[j].id)
      && (forall k :: k in r.posts && k !in stored ==> exists p :: p in r.added && p.id == k)
    decreases |upstream|
  {
    if |upstream| > 0 {
      var front := upstream[..|upstream| - 1];
      IngestAdded(stored, front, sourceId, cutoff);
      IngestKeys(stored, front, sourceId, cutoff);
      assert forall p :: p in front ==> p in upstream;
    }
  }

  /**
   * If every recent upstream post is already held, a check stores nothing and returns nothing;
   * a later cutoff only narrows the window.
   */
  lemma {:induction false} IngestNothingNew(stored: map<string, Post>, upstream: seq<PostData>, sourceId: string, cutoff: int)
    requires RecentIds(upstream, cutoff) <= stored.Keys
    ensures Ingest(stored, upstream, sourceId, cutoff) == Ingested(stored, [])
    decreases |upstream|
  {
    if |upstream| > 0 {
      var front := upstream[..|upstream| - 1];
      assert RecentIds(front, cutoff) <= RecentIds(upstream, cutoff) by {
        forall k | k in RecentIds(front, cutoff)
          ensures k in RecentIds(upstream, cutoff)
        {
          var i :| 0 <= i < |front| && front[i].publishedAt >= cutoff && front[i].id == k;
          assert upstream[i] == front[i];
        }
      }
      IngestNothingNew(stored, front, sourceId, cutoff);
      var p := upstream[|upstream| - 1];
      if p.publishedAt >= cutoff {
        assert p.id in RecentIds(upstream, cutoff);
      }
    }
  }

  /** Window ids shrink as the cutoff moves later. */
  lemma RecentIdsShrink(upstream: seq<PostData>, cutoff: int, later: int)
    requires cutoff <= later
    ensures RecentIds(upstream, later) <= RecentIds(upstream, cutoff)
  {
    forall k | k in RecentIds(upstream, later)
      ensures k in RecentIds(upstream, cutoff)
    {
      var i :| 0 <= i < |upstream| && upstream[i].publishedAt >= later && upstream[i].id == k;
    }
  }

  /**
   * Checking the same upstream posts again, at the same moment or later, stores nothing and
   * returns nothing.
   */
  lemma RecheckInsertsNothing(stored: map<string, Post>, upstream: seq<PostData>, sourceId: string, cutoff: int, later: int)
    requires cutoff <= later
    ensures var first := Ingest(stored, upstream, sourceId, cutoff);
      Ingest(first.posts, upstream, sourceId, later) == Ingested(first.posts, [])
  {
    var first := Ingest(stored, upstream, sourceId, cutoff);
    IngestKeys(stored, upstream, sourceId, cutoff);
    RecentIdsShrink(upstream, cutoff, later);
    IngestNothingNew(first.posts, upstream, sourceId, later);
  }

  /**
   * checkForNewPosts: an unknown or inactive feed, or a failed fetch, gives [] and writes
   * nothing; otherwise the recent unseen posts are stored and returned in upstream order, and
   * the feed's `lastCheckedAt` becomes `now` after the loop.
   */
  method CheckForNewPosts(db: Store, sourceId: string, answer: PostsAnswer, now: int) returns (newPosts: seq<PostData>)
    modifies db
    ensures sourceId !in old(db.feeds) || !old(db.feeds)[sourceId].isActive || answer.PostsFailed? ==>
      newPosts == [] && db.posts == old(db.posts) && db.feeds == old(db.feeds)
    ensures sourceId in old(db.feeds) && old(db.feeds)[sourceId].isActive && answer.PostsListed? ==>
      var r := Ingest(old(db.posts), answer.posts, sourceId, now - TenDays);
      newPosts == r.added && db.posts == r.posts
      && db.feeds == old(db.feeds)[sourceId := old(db.feeds)[sourceId].(lastCheckedAt := Some(now))]
    ensures unchanged(db`authors, db`mods, db`aliases, db`appearances, db`history, db`snapshots, db`nextId)
  {
    if sourceId !in db.feeds || !db.feeds[sourceId].isActive || answer.PostsFailed? {
      return [];
    }
    var upstream := answer.posts;
    var cutoff := now - TenDays;
    ghost var stored := db.posts;
    newPosts := [];
    var i := 0;
    while i < |upstream|
      invariant 0 <= i <= |upstream|
      invariant Ingest(stored, upstream[..i], sourceId, cutoff) == Ingested(db.posts, newPosts)
      invariant db.feeds == old(db.feeds)
      invariant unchanged(db`authors, db`mods, db`aliases, db`appearances, db`history, db`snapshots, db`nextId)
    {
      var p := upstream[i];
      assert upstream[..i + 1][..i] == upstream[..i];
      if !(p.publishedAt < cutoff) && p.id !in db.posts {
        db.posts := db.posts[p.id := StoredPost(p, sourceId)];
        newPosts := newPosts + [p];
      }
      i := i + 1;
    }
    assert upstream[..i] == upstream;
    db.feeds := db.feeds[sourceId := db.feeds[sourceId].(lastCheckedAt := Some(now))];
  }

  // ---------------------------------------------------------------------------------------
  // markPostAsNotified, getUnnotifiedPosts
  // ---------------------------------------------------------------------------------------

  /** The ids of the posts not yet announced. */
  function UnnotifiedIds(posts: map<string, Post>): set<string>
  {
    set k | k in posts && !posts[k].isNotified
  }

  /** markPostAsNotified: an update by post id, which fails for an id the store does not hold. */
  method MarkPostAsNotified(db: Store, postId: string) returns (r: Result<()>)
    modifies db
    ensures postId in old(db.posts) ==>
      r == Ok(()) && db.posts == old(db.posts)[postId := old(db.posts)[postId].(isNotified := true)]
    ensures postId !in old(db.posts) ==> r == Err(RecordNotFound) && db.posts == old(db.posts)
    ensures unchanged(db`feeds, db`authors, db`mods, db`aliases, db`appearances, db`history, db`snapshots, db`nextId)
  {
    if postId !in db.posts {
      return Err(RecordNotFound);
    }
    db.posts := db.posts[postId := db.posts[postId].(isNotified := true)];
    r := Ok(());
  }

  /** Marking a post notified takes exactly that post out of the unnotified ones. */
  lemma {:induction false} MarkedLeavesUnnotified(posts: map<string, Post>, postId: string)
    requires postId in posts
    ensures UnnotifiedIds(posts[postId := posts[postId].(isNotified := true)]) == UnnotifiedIds(posts) - {postId}
  {
    var after := posts[postId := posts[postId].(isNotified := true)];
    forall k | k in UnnotifiedIds(posts) - {postId}
      ensures k in UnnotifiedIds(after)
    {
      assert after[k] == posts[k];
    }
  }

  /** getUnnotifiedPosts: exactly the posts not yet announced, each once, newest first. */
  method GetUnnotifiedPosts(db: Store) returns (ids: seq<string>)
    ensures NewestFirstOrder(db.posts, ids) && Distinct(ids)
    ensures forall k :: k in ids <==> k in db.posts && !db.posts[k].isNotified
  {
    ids := NewestFirst(db.posts, UnnotifiedIds(db.posts));
  }
}
