/**
 * The HTTP endpoints of the registry: creating an author (and, given a campaign and a channel,
 * its Patreon feed), deleting an author with its feed and posts, creating and importing mods,
 * recording versions, adding aliases, settling detected mods, and registering a spreadsheet
 * as a feed. A thrown error is an `Err` carrying its message; the environment's answers (the
 * Patreon lookups, the Sheets API) are parameters.
 */
module PatreonController {
  import opened Wrappers
  import opened Text
  import opened Db
  import Slugs
  import Sheets
  import FeedId
  import ModManagement
  import Scheduler

  /** The tables the endpoints read and write. */
  datatype Tables = Tables(
    feeds: map<string, Feed>,
    posts: map<string, Post>,
    authors: map<Id, Author>,
    mods: map<Id, Mod>,
    aliases: map<Id, Alias>,
    appearances: map<Id, Appearance>,
    snapshots: seq<Snapshot>,
    nextId: Id)

  /** Every generated id in use is below the next one to hand out. */
  predicate Fits(t: Tables)
  {
    (forall k :: k in t.authors ==> k < t.nextId)
    && (forall k :: k in t.mods ==> k < t.nextId)
    && (forall k :: k in t.aliases ==> k < t.nextId)
    && (forall k :: k in t.appearances ==> k < t.nextId)
  }

  /** What an endpoint returns when it does not throw. */
  datatype Response =
    | AuthorCreated(id: Id, author: Author, feedCreated: bool, feedFetchFailed: bool, usedManualId: bool)
    | AuthorDeleted(deletedModsCount: nat)
    | ModRow(modId: Id, mod: Mod)
    | AliasRow(aliasId: Id, alias: Alias)
    | AppearanceRow(appearanceId: Id, appearance: Appearance)
    | SheetRegistered(sourceId: string, feed: Feed, initialModsCount: nat)

  datatype Done = Done(state: Tables, result: Result<Response>)

  /** The message of a create whose foreign key names no row. */
  const ForeignKeyViolation: string := "Foreign key constraint failed"

  /** The row a typed generated id names in a table, if any. */
  function Named<T>(table: map<Id, T>, text: string): Option<Id>
  {
    match ParseId(text)
    case Some(id) => if id in table then Some(id) else None
    case None => None
  }

  // ---------------------------------------------------------------------------------------
  // createAuthor
  // ---------------------------------------------------------------------------------------

  datatype AuthorRequest = AuthorRequest(
    name: string,
    patreonUrl: Option<string>,
    notificationChannelId: Option<string>,
    manualCampaignId: Option<string>)

  /** The campaign an author is to be linked to, and the creator name its feed would carry. */
  datatype Campaign = Campaign(id: Option<string>, creatorName: string)

  /**
   * A manual campaign id is used as given; only without one is the Patreon link looked up, and
   * a lookup that finds nothing leaves no campaign.
   */
  function CampaignOf(req: AuthorRequest, url: Option<FeedId.ParsedUrl>,
                      api: FeedId.ApiAnswer, page: FeedId.PageAnswer): Campaign
  {
    if Truthy(req.patreonUrl) && !Truthy(req.manualCampaignId) then
      match FeedId.GetFeedIdFromPatreon(req.patreonUrl.value, url, api, page).result
      case Some(found) => Campaign(Some(found.campaignId), found.creatorName)
      case None => Campaign(req.manualCampaignId, req.name)
    else Campaign(req.manualCampaignId, req.name)
  }

  /** A new Patreon feed, active and checked every 30 minutes. */
  function PatreonFeed(creatorName: string, channel: string): Feed
  {
    Feed(Patreon, creatorName, None, None, channel, 30, true, None)
  }

  /**
   * createAuthor: with a campaign and a channel the author is linked to the campaign, whose feed
   * is created unless one exists; the author is created in every case.
   */
  function CreateAuthor(t: Tables, req: AuthorRequest, url: Option<FeedId.ParsedUrl>,
                        api: FeedId.ApiAnswer, page: FeedId.PageAnswer): Done
  {
    var campaign := CampaignOf(req, url, api, page);
    var linked := Truthy(campaign.id) && Truthy(req.notificationChannelId);
    var feedCreated := linked && campaign.id.value !in t.feeds;
    var feeds := if feedCreated then t.feeds[campaign.id.value := PatreonFeed(campaign.creatorName, req.notificationChannelId.value)]
                 else t.feeds;
    var feedSourceId := if linked then campaign.id else None;
    var id := t.nextId;
    var author := Author(req.name, Slugs.Slug(req.name), req.patreonUrl, feedSourceId);
    Done(t.(feeds := feeds, authors := t.authors[id := author], nextId := id + 1),
         Ok(AuthorCreated(id, author, feedCreated, Truthy(req.patreonUrl) && feedSourceId.None?, Truthy(req.manualCampaignId))))
  }

  /**
   * A manual campaign id wins: whatever the Patreon lookup would answer, the outcome is the same,
   * and with a channel the author is linked to that id.
   */
  lemma ManualIdPrecedence(t: Tables, req: AuthorRequest,
                           url: Option<FeedId.ParsedUrl>, api: FeedId.ApiAnswer, page: FeedId.PageAnswer,
                           url2: Option<FeedId.ParsedUrl>, api2: FeedId.ApiAnswer, page2: FeedId.PageAnswer)
    requires Truthy(req.manualCampaignId)
    ensures CreateAuthor(t, req, url, api, page) == CreateAuthor(t, req, url2, api2, page2)
    ensures var r := CreateAuthor(t, req, url, api, page).result.value;
      r.usedManualId
      && (Truthy(req.notificationChannelId) ==> r.author.feedSourceId == req.manualCampaignId && !r.feedFetchFailed)
  {
  }

  /**
   * The author is created under a fresh id with its name's slug. A feed is created exactly when
   * there is a campaign and a channel and no feed has that source id; the author is linked to
   * the campaign whenever there is a campaign and a channel, whether or not the feed was new;
   * existing feeds are never changed.
   */
  lemma CreateAuthorMeaning(t: Tables, req: AuthorRequest, url: Option<FeedId.ParsedUrl>,
                            api: FeedId.ApiAnswer, page: FeedId.PageAnswer)
    requires Fits(t)
    ensures var d := CreateAuthor(t, req, url, api, page);
      var campaign := CampaignOf(req, url, api, page);
      var linked := Truthy(campaign.id) && Truthy(req.notificationChannelId);
      var r := d.result.value;
      d.result.Ok? && r.id == t.nextId && r.id !in t.authors
      && d.state.authors == t.authors[r.id := r.author] && d.state.nextId == t.nextId + 1
      && r.author.slug == Slugs.Slug(req.name) && r.author.patreonUrl == req.patreonUrl
      && (r.feedCreated <==> linked && campaign.id.value !in t.feeds)
      && (r.author.feedSourceId.Some? <==> linked)
      && (linked ==> r.author.feedSourceId == campaign.id && campaign.id.value in d.state.feeds)
      && (forall k :: k in t.feeds ==> k in d.state.feeds && d.state.feeds[k] == t.feeds[k])
      && (r.feedCreated ==>
            d.state.feeds == t.feeds[campaign.id.value := PatreonFeed(campaign.creatorName, req.notificationChannelId.value)])
      && (!r.feedCreated ==> d.state.feeds == t.feeds)
      && d.state == t.(feeds := d.state.feeds, authors := d.state.authors, nextId := d.state.nextId)
  {
  }

  /**
   * The fetch-failed flag is raised exactly when a Patreon link was given but no feed got linked:
   * no channel, or no manual id and a lookup that found nothing.
   */
  lemma FeedFetchFailedMeaning(t: Tables, req: AuthorRequest, url: Option<FeedId.ParsedUrl>,
                               api: FeedId.ApiAnswer, page: FeedId.PageAnswer)
    ensures CreateAuthor(t, req, url, api, page).result.value.feedFetchFailed <==>
      Truthy(req.patreonUrl)
      && (!Truthy(req.notificationChannelId)
          || (!Truthy(req.manualCampaignId)
              && FeedId.GetFeedIdFromPatreon(req.patreonUrl.value, url, api, page).result.None?))
  {
    if Truthy(req.patreonUrl) && !Truthy(req.manualCampaignId) {
      FeedId.GetFeedIdFallback(req.patreonUrl.value, url, api, page);
    }
  }

  // ---------------------------------------------------------------------------------------
  // deleteAuthor
  // ---------------------------------------------------------------------------------------

  /** The mods of an author. */
  function ModsOf(mods: map<Id, Mod>, authorId: Id): set<Id>
  {
    set k | k in mods && mods[k].authorId == authorId
  }

  /** The posts that stay when a feed's posts are deleted. */
  function PostsNotOf(posts: map<string, Post>, sourceId: string): map<string, Post>
  {
    map k | k in posts && posts[k].feedSourceId != sourceId :: posts[k]
  }

  /**
   * deleteAuthor: an unknown author throws. A linked feed has its posts deleted and is then
   * deleted itself, and that delete throws when the feed is gone (the posts are deleted by
   * then). The author goes last, and with it its mods, whose number is returned.
   */
  function DeleteAuthor(t: Tables, authorText: string): Done
  {
    match Named(t.authors, authorText)
    case None => Done(t, Err("Author not found"))
    case Some(id) =>
      var author := t.authors[id];
      var count := |ModsOf(t.mods, id)|;
      var remaining := map k | k in t.mods && t.mods[k].authorId != id :: t.mods[k];
      if Truthy(author.feedSourceId) then
        var sourceId := author.feedSourceId.value;
        var posts := PostsNotOf(t.posts, sourceId);
        if sourceId !in t.feeds then Done(t.(posts := posts), Err(RecordNotFound))
        else Done(t.(posts := posts, feeds := t.feeds - {sourceId}, authors := t.authors - {id}, mods := remaining),
                  Ok(AuthorDeleted(count)))
      else Done(t.(authors := t.authors - {id}, mods := remaining), Ok(AuthorDeleted(count)))
  }

  /**
   * Deleting an author removes it and exactly its mods, and reports how many mods it had; when it
   * is linked to a feed, no post of that feed remains and every other post stays. An unknown
   * author changes nothing; a linked feed that is already gone fails the request after the posts
   * are deleted, leaving the author.
   */
  lemma DeleteAuthorMeaning(t: Tables, authorText: string)
    ensures var d := DeleteAuthor(t, authorText);
      (Named(t.authors, authorText).None? ==> d == Done(t, Err("Author not found")))
      && (Named(t.authors, authorText).Some? ==>
            var id := Named(t.authors, authorText).value;
            var author := t.authors[id];
            var linked := Truthy(author.feedSourceId);
            (linked ==>
               (forall k :: k in d.state.posts ==> d.state.posts[k].feedSourceId != author.feedSourceId.value)
               && (forall k :: k in t.posts && t.posts[k].feedSourceId != author.feedSourceId.value ==>
                     k in d.state.posts && d.state.posts[k] == t.posts[k])
               && d.state.feeds == t.feeds - {author.feedSourceId.value})
            && (!linked ==> d.state.posts == t.posts && d.state.feeds == t.feeds)
            && (d.result.Ok? <==> !linked || author.feedSourceId.value in t.feeds)
            && (d.result.Err? ==> d.result.error == RecordNotFound && d.state == t.(posts := d.state.posts))
            && (d.result.Ok? ==>
                  d.result.value == AuthorDeleted(|ModsOf(t.mods, id)|)
                  && d.state.authors.Keys == t.authors.Keys - {id}
                  && (forall k :: k in d.state.authors ==> d.state.authors[k] == t.authors[k])
                  && d.state.mods.Keys == t.mods.Keys - ModsOf(t.mods, id)
                  && (forall k :: k in d.state.mods ==> d.state.mods[k] == t.mods[k])
                  && d.state == t.(posts := d.state.posts, feeds := d.state.feeds, authors := d.state.authors, mods := d.state.mods)))
  {
  }

  // ---------------------------------------------------------------------------------------
  // createMod, importMod, updateMod, addModAlias
  // ---------------------------------------------------------------------------------------

  /** createMod: a mod under the named author, slug and normalized name from its name. */
  function CreateMod(t: Tables, authorText: string, primaryName: string, curseForgeUrl: Option<string>): Done
  {
    match Named(t.authors, authorText)
    case None => Done(t, Err(ForeignKeyViolation))
    case Some(a) =>
      var id := t.nextId;
      var mod := NewMod(a, primaryName, Slugs.Slug(primaryName), curseForgeUrl);
      Done(t.(mods := t.mods[id := mod], nextId := id + 1), Ok(ModRow(id, mod)))
  }

  /** A created mod has a fresh id, its author, and the slug of its name; an unknown author fails it. */
  lemma CreateModMeaning(t: Tables, authorText: string, primaryName: string, curseForgeUrl: Option<string>)
    requires Fits(t)
    ensures var d := CreateMod(t, authorText, primaryName, curseForgeUrl);
      (d.result.Ok? <==> Named(t.authors, authorText).Some?)
      && (d.result.Err? ==> d.state == t)
      && (d.result.Ok? ==>
            d.result.value.modId == t.nextId && t.nextId !in t.mods
            && d.state == t.(mods := t.mods[t.nextId := d.result.value.mod], nextId := t.nextId + 1)
            && Some(d.result.value.mod.authorId) == Named(t.authors, authorText)
            && d.result.value.mod.slug == d.result.value.mod.normalizedName == Slugs.Slug(primaryName)
            && d.result.value.mod.primaryName == primaryName && d.result.value.mod.curseForgeUrl == curseForgeUrl)
  {
  }

  /**
   * importMod: a CurseForge link only; a mod with the same link or slug fails it; otherwise the
   * mod takes the name and slug of the link's last segment. The author is checked only by the
   * create.
   */
  function ImportMod(t: Tables, authorText: string, curseForgeUrl: string): Done
  {
    if !Contains(curseForgeUrl, "curseforge.com") then Done(t, Err("Invalid CurseForge URL"))
    else
      var segment := ModManagement.SlugSegment(curseForgeUrl);
      var slug := ModManagement.ImportedSlug(segment);
      if ModManagement.Existing(t.mods, curseForgeUrl, slug, t.nextId).Some? then Done(t, Err("Mod already exists"))
      else match Named(t.authors, authorText)
        case None => Done(t, Err(ForeignKeyViolation))
        case Some(a) =>
          var id := t.nextId;
          var mod := NewMod(a, ModManagement.ImportedName(segment), slug, Some(curseForgeUrl));
          Done(t.(mods := t.mods[id := mod], nextId := id + 1), Ok(ModRow(id, mod)))
  }

  /** The registry part of the tables, as the chat command sees it. */
  function RegistryOf(t: Tables): ModManagement.Registry
  {
    ModManagement.Registry(t.feeds, t.authors, t.mods, t.aliases, t.nextId)
  }

  /**
   * The endpoint and the `!mod import` command accept the same imports and create the same mod:
   * the endpoint succeeds exactly when the command would create, and leaves the same registry.
   */
  lemma ImportModAgreesWithCommand(t: Tables, authorText: string, curseForgeUrl: string)
    requires Fits(t)
    ensures var d := ImportMod(t, authorText, curseForgeUrl);
      var o := ModManagement.ImportCommand(RegistryOf(t), [authorText, curseForgeUrl]);
      (d.result.Ok? <==> ModManagement.Importable(RegistryOf(t), [authorText, curseForgeUrl]))
      && RegistryOf(d.state) == o.state
      && d.state == t.(mods := d.state.mods, nextId := d.state.nextId)
  {
    var args := [authorText, curseForgeUrl];
    assert args[0] == authorText && args[1] == curseForgeUrl;
    ModManagement.ImportMeaning(RegistryOf(t), args);
  }

  /** The `{ ...(v && { field: v }) }` rule: only a present, non-empty value is written. */
  function Written(value: Option<string>, current: Option<string>): Option<string>
  {
    if Truthy(value) then value else current
  }

  /** updateMod: the given non-empty versions replace the stored ones; an unknown mod fails it. */
  function UpdateMod(t: Tables, modText: string, translatedVersion: Option<string>, latestVersion: Option<string>): Done
  {
    match Named(t.mods, modText)
    case None => Done(t, Err(RecordNotFound))
    case Some(id) =>
      var mod := t.mods[id].(translatedVersion := Written(translatedVersion, t.mods[id].translatedVersion),
                             latestVersion := Written(latestVersion, t.mods[id].latestVersion));
      Done(t.(mods := t.mods[id := mod]), Ok(ModRow(id, mod)))
  }

  /**
   * An update changes at most the two version fields of the named mod, each only when a
   * non-empty value is given, and then to that value; with none given the row is unchanged.
   */
  lemma UpdateModMeaning(t: Tables, modText: string, translatedVersion: Option<string>, latestVersion: Option<string>)
    ensures var d := UpdateMod(t, modText, translatedVersion, latestVersion);
      (Named(t.mods, modText).None? ==> d == Done(t, Err(RecordNotFound)))
      && (Named(t.mods, modText).Some? ==>
            var id := Named(t.mods, modText).value;
            var before := t.mods[id];
            var after := d.state.mods[id];
            d.state == t.(mods := t.mods[id := after])
            && (after.translatedVersion != before.translatedVersion ==> Truthy(translatedVersion) && after.translatedVersion == translatedVersion)
            && (after.latestVersion != before.latestVersion ==> Truthy(latestVersion) && after.latestVersion == latestVersion)
            && (Truthy(translatedVersion) ==> after.translatedVersion == translatedVersion)
            && (Truthy(latestVersion) ==> after.latestVersion == latestVersion)
            && after == before.(translatedVersion := after.translatedVersion, latestVersion := after.latestVersion)
            && (!Truthy(translatedVersion) && !Truthy(latestVersion) ==> d.state == t))
  {
    if Named(t.mods, modText).Some? {
      var id := Named(t.mods, modText).value;
      var d := UpdateMod(t, modText, translatedVersion, latestVersion);
      if !Truthy(translatedVersion) && !Truthy(latestVersion) {
        assert d.state.mods[id] == t.mods[id];
        assert d.state.mods == t.mods;
      }
    }
  }

  /** Repeating an update changes nothing more. */
  lemma UpdateModIdempotent(t: Tables, modText: string, translatedVersion: Option<string>, latestVersion: Option<string>)
    ensures var once := UpdateMod(t, modText, translatedVersion, latestVersion).state;
      UpdateMod(once, modText, translatedVersion, latestVersion).state == once
  {
    if Named(t.mods, modText).Some? {
      var id := Named(t.mods, modText).value;
      var once := UpdateMod(t, modText, translatedVersion, latestVersion).state;
      assert Named(once.mods, modText) == Some(id);
      var twice := UpdateMod(once, modText, translatedVersion, latestVersion).state;
      assert twice.mods[id] == once.mods[id];
      assert twice.mods == once.mods;
    }
  }

  /** addModAlias: an alias of the named mod, normalised by the slug rule. */
  function AddModAlias(t: Tables, modText: string, aliasName: string): Done
  {
    match Named(t.mods, modText)
    case None => Done(t, Err(ForeignKeyViolation))
    case Some(m) =>
      var id := t.nextId;
      var alias := Alias(m, aliasName, Slugs.Slug(aliasName));
      Done(t.(aliases := t.aliases[id := alias], nextId := id + 1), Ok(AliasRow(id, alias)))
  }

  /** An alias is added under a fresh id exactly when the mod exists, with a normal form that is its own slug. */
  lemma AddModAliasMeaning(t: Tables, modText: string, aliasName: string)
    requires Fits(t)
    ensures var d := AddModAlias(t, modText, aliasName);
      (d.result.Ok? <==> Named(t.mods, modText).Some?)
      && (d.result.Err? ==> d.state == t)
      && (d.result.Ok? ==>
            var alias := d.result.value.alias;
            d.result.value.aliasId == t.nextId && t.nextId !in t.aliases
            && d.state == t.(aliases := t.aliases[t.nextId := alias], nextId := t.nextId + 1)
            && Some(alias.modId) == Named(t.mods, modText) && alias.name == aliasName
            && Slugs.Slug(alias.normalized) == alias.normalized)
  {
    if Named(t.mods, modText).Some? {
      Slugs.SlugIdempotent(aliasName);
    }
  }

  // ---------------------------------------------------------------------------------------
  // confirmPostMod, ignorePostMod
  // ---------------------------------------------------------------------------------------

  /**
   * Both confirmPostMod and ignorePostMod: the named appearance stops needing review, and
   * nothing else is written; an unknown one fails the update.
   */
  function ClearReview(t: Tables, appearanceText: string): Done
  {
    match Named(t.appearances, appearanceText)
    case None => Done(t, Err(RecordNotFound))
    case Some(id) =>
      var a := t.appearances[id].(needsReview := false);
      Done(t.(appearances := t.appearances[id := a]), Ok(AppearanceRow(id, a)))
  }

  /**
   * Settling through the endpoints leaves the appearance's verification, mod and every other
   * field as they were and takes it off its post's pending list; doing it twice is doing it once.
   */
  lemma ClearReviewMeaning(t: Tables, appearanceText: string)
    ensures var d := ClearReview(t, appearanceText);
      (Named(t.appearances, appearanceText).None? ==> d == Done(t, Err(RecordNotFound)))
      && (Named(t.appearances, appearanceText).Some? ==>
            var id := Named(t.appearances, appearanceText).value;
            var a := t.appearances[id];
            d.state == t.(appearances := d.state.appearances) && d.state.appearances.Keys == t.appearances.Keys
            && (forall k :: k in t.appearances && k != id ==> d.state.appearances[k] == t.appearances[k])
            && d.state.appearances[id].verified == a.verified && d.state.appearances[id].modId == a.modId
            && d.state.appearances[id] == a.(needsReview := false)
            && PendingOf(d.state.appearances, a.postId) == PendingOf(t.appearances, a.postId) - {id}
            && ClearReview(d.state, appearanceText).state == d.state)
  {
    if Named(t.appearances, appearanceText).Some? {
      var id := Named(t.appearances, appearanceText).value;
      var d := ClearReview(t, appearanceText);
      assert Named(d.state.appearances, appearanceText) == Some(id);
      assert d.state.appearances[id := d.state.appearances[id].(needsReview := false)] == d.state.appearances;
    }
  }

  // ---------------------------------------------------------------------------------------
  // registerGoogleSheet
  // ---------------------------------------------------------------------------------------

  datatype SheetRequest = SheetRequest(sheetUrl: string, authorText: string, notificationChannelId: string, range: Option<string>)

  /** The Sheets API as the registration sees it: the key, the tab list, and the values of a range. */
  datatype SheetsApi = SheetsApi(apiKey: string, tabs: Sheets.TitleAnswer, values: (string, string) -> Sheets.ValuesAnswer)

  /** The range read: the one given, or the whole first block of the tab. */
  function SheetRange(range: Option<string>, title: string): string
  {
    if Truthy(range) then range.value else title + "!A1:Z1000"
  }

  /** A new spreadsheet feed, active and checked every 180 minutes, that remembers its range. */
  function SheetFeed(creatorName: string, sheetUrl: string, range: string, channel: string): Feed
  {
    Feed(GoogleSheets, creatorName, Some(sheetUrl), Some(Scheduler.RangeLabel + range), channel, 180, true, None)
  }

  /**
   * registerGoogleSheet: the link must name a spreadsheet, the tab title must be readable, the
   * author must exist, and the sheet must not be registered; then the sheet is read, a feed is
   * created, its first snapshot stored, and the author linked to it.
   */
  function RegisterGoogleSheet(t: Tables, req: SheetRequest, api: SheetsApi, now: int): Done
  {
    match Sheets.ExtractSpreadsheetId(req.sheetUrl)
    case None => Done(t, Err("Invalid Google Sheets URL"))
    case Some(sourceId) =>
      match Sheets.GetSheetTitle(api.apiKey, Sheets.ExtractSheetGid(req.sheetUrl), api.tabs)
      case Err(e) => Done(t, Err(e))
      case Ok(title) =>
        var range := SheetRange(req.range, title);
        match Named(t.authors, req.authorText)
        case None => Done(t, Err("Author not found"))
        case Some(a) =>
          if sourceId in t.feeds then Done(t, Err("Google Sheet already registered"))
          else
            var answer := api.values(sourceId, range);
            if api.apiKey == "" then Done(t, Err(Sheets.ApiKeyMissing))
            else if answer.ValuesFailed? then Done(t, Err(answer.message))
            else
              var rows := Sheets.SheetData(answer.grid);
              var feed := SheetFeed(t.authors[a].name, req.sheetUrl, range, req.notificationChannelId);
              Done(t.(feeds := t.feeds[sourceId := feed],
                      snapshots := t.snapshots + [Snapshot(sourceId, Sheets.DataMap(rows), now)],
                      authors := t.authors[a := t.authors[a].(feedSourceId := Some(sourceId))]),
                   Ok(SheetRegistered(sourceId, feed, |rows|)))
  }

  /**
   * A failed registration changes nothing. A successful one adds the spreadsheet's feed, which
   * did not exist, appends one snapshot of the rows read, links the author, and touches nothing
   * else.
   */
  lemma RegisterMeaning(t: Tables, req: SheetRequest, api: SheetsApi, now: int)
    ensures var d := RegisterGoogleSheet(t, req, api, now);
      (d.result.Err? ==> d.state == t)
      && (d.result.Ok? ==>
            var r := d.result.value;
            var a := Named(t.authors, req.authorText);
            Sheets.ExtractSpreadsheetId(req.sheetUrl) == Some(r.sourceId) && r.sourceId !in t.feeds && a.Some?
            && d.state.feeds == t.feeds[r.sourceId := r.feed]
            && r.feed.platform == GoogleSheets && r.feed.checkIntervalMins == 180 && r.feed.isActive
            && r.feed.creatorName == t.authors[a.value].name && r.feed.creatorUrl == Some(req.sheetUrl)
            && r.feed.notificationChannelId == req.notificationChannelId
            && |d.state.snapshots| == |t.snapshots| + 1 && d.state.snapshots[..|t.snapshots|] == t.snapshots
            && d.state.snapshots[|t.snapshots|].feedSourceId == r.sourceId
            && d.state.authors == t.authors[a.value := t.authors[a.value].(feedSourceId := Some(r.sourceId))]
            && d.state == t.(feeds := d.state.feeds, snapshots := d.state.snapshots, authors := d.state.authors))
  {
    var d := RegisterGoogleSheet(t, req, api, now);
    if d.result.Ok? {
      assert d.state.snapshots[..|t.snapshots|] == t.snapshots;
    }
  }

  /**
   * The range a registration reads is the one the scheduler later reads back from the feed's
   * description, and the snapshot it stores is the newest for that feed, so a check reading the
   * same rows (with no repeated mod name) finds no change.
   */
  lemma RegisterThenCheck(t: Tables, req: SheetRequest, api: SheetsApi, now: int)
    ensures var d := RegisterGoogleSheet(t, req, api, now);
      d.result.Ok? ==>
        var sourceId := d.result.value.sourceId;
        var title := Sheets.GetSheetTitle(api.apiKey, Sheets.ExtractSheetGid(req.sheetUrl), api.tabs).value;
        var range := SheetRange(req.range, title);
        var answer := api.values(sourceId, range);
        Scheduler.RangeOf(d.state.feeds[sourceId].description) == range
        && answer.Values?
        && Scheduler.Baseline(d.state.snapshots, sourceId) == Sheets.DataMap(Sheets.SheetData(answer.grid))
        && (var rows := Sheets.SheetData(answer.grid);
            (forall i, j :: 0 <= i < j < |rows| && rows[i].modName != "" ==> rows[i].modName != rows[j].modName) ==>
              Sheets.Changes(rows, Scheduler.Baseline(d.state.snapshots, sourceId)) == [])
  {
    var d := RegisterGoogleSheet(t, req, api, now);
    if d.result.Ok? {
      var sourceId := d.result.value.sourceId;
      var title := Sheets.GetSheetTitle(api.apiKey, Sheets.ExtractSheetGid(req.sheetUrl), api.tabs).value;
      var range := SheetRange(req.range, title);
      assert range != "" by {
        if !Truthy(req.range) {
          assert |title + "!A1:Z1000"| > 0;
        }
      }
      Scheduler.RangeRoundTrip(range);
      var rows := Sheets.SheetData(api.values(sourceId, range).grid);
      assert d.state.snapshots[|d.state.snapshots| - 1] == Snapshot(sourceId, Sheets.DataMap(rows), now);
      if forall i, j :: 0 <= i < j < |rows| && rows[i].modName != "" ==> rows[i].modName != rows[j].modName {
        Sheets.SnapshotOfSameRowsHasNoChanges(rows);
      }
    }
  }

  // ---------------------------------------------------------------------------------------
  // The endpoints on the store
  // ---------------------------------------------------------------------------------------

  /** The tables of the store. */
  function TablesOf(db: Store): Tables
    reads db
  {
    Tables(db.feeds, db.posts, db.authors, db.mods, db.aliases, db.appearances, db.snapshots, db.nextId)
  }

  /** A request to one of the modelled endpoints, with the answers of the services it calls. */
  datatype Request =
    | PostAuthor(author: AuthorRequest, url: Option<FeedId.ParsedUrl>, api: FeedId.ApiAnswer, page: FeedId.PageAnswer)
    | DeleteAuthorRequest(deletedAuthorText: string)
    | PostMod(modAuthorText: string, primaryName: string, curseForgeUrl: Option<string>)
    | PostImport(importAuthorText: string, importUrl: string)
    | PatchMod(patchedModText: string, translatedVersion: Option<string>, latestVersion: Option<string>)
    | PostAlias(aliasModText: string, aliasName: string)
    | PostConfirm(confirmedText: string)
    | PostIgnore(ignoredText: string)
    | PostSheet(sheet: SheetRequest, sheetsApi: SheetsApi, now: int)

  /** What each endpoint does to the tables and returns. */
  function Serve(t: Tables, req: Request): Done
  {
    match req
    case PostAuthor(a, url, api, page) => CreateAuthor(t, a, url, api, page)
    case DeleteAuthorRequest(authorText) => DeleteAuthor(t, authorText)
    case PostMod(authorText, name, url) => CreateMod(t, authorText, name, url)
    case PostImport(authorText, url) => ImportMod(t, authorText, url)
    case PatchMod(modText, translated, latest) => UpdateMod(t, modText, translated, latest)
    case PostAlias(modText, aliasName) => AddModAlias(t, modText, aliasName)
    case PostConfirm(appearanceText) => ClearReview(t, appearanceText)
    case PostIgnore(appearanceText) => ClearReview(t, appearanceText)
    case PostSheet(sheet, sheetsApi, now) => RegisterGoogleSheet(t, sheet, sheetsApi, now)
  }

  /** The ids in use stay below the next one, which never goes back. */
  predicate Grows(t: Tables, d: Done)
  {
    Fits(d.state) && d.state.nextId >= t.nextId
  }

  /** Every endpoint keeps the ids in use below the next one and never reuses an id. */
  lemma ServeKeepsFit(t: Tables, req: Request)
    requires Fits(t)
    ensures Grows(t, Serve(t, req))
  {
    match req
    case PostAuthor(a, url, api, page) => CreatedAuthorGrows(t, a, url, api, page);
    case DeleteAuthorRequest(authorText) => DeletedAuthorGrows(t, authorText);
    case PostMod(authorText, name, url) => CreatedModGrows(t, authorText, name, url);
    case PostImport(authorText, url) => ImportedModGrows(t, authorText, url);
    case PatchMod(modText, translated, latest) => UpdatedModGrows(t, modText, translated, latest);
    case PostAlias(modText, aliasName) => AddedAliasGrows(t, modText, aliasName);
    case PostConfirm(appearanceText) => ClearedReviewGrows(t, appearanceText);
    case PostIgnore(appearanceText) => ClearedReviewGrows(t, appearanceText);
    case PostSheet(sheet, sheetsApi, now) => RegisteredGrows(t, sheet, sheetsApi, now);
  }

  lemma CreatedAuthorGrows(t: Tables, req: AuthorRequest, url: Option<FeedId.ParsedUrl>,
                           api: FeedId.ApiAnswer, page: FeedId.PageAnswer)
    requires Fits(t)
    ensures Grows(t, CreateAuthor(t, req, url, api, page))
  {
  }

  lemma DeletedAuthorGrows(t: Tables, authorText: string)
    requires Fits(t)
    ensures Grows(t, DeleteAuthor(t, authorText))
  {
  }

  lemma CreatedModGrows(t: Tables, authorText: string, primaryName: string, curseForgeUrl: Option<string>)
    requires Fits(t)
    ensures Grows(t, CreateMod(t, authorText, primaryName, curseForgeUrl))
  {
  }

  lemma ImportedModGrows(t: Tables, authorText: string, curseForgeUrl: string)
    requires Fits(t)
    ensures Grows(t, ImportMod(t, authorText, curseForgeUrl))
  {
  }

  lemma UpdatedModGrows(t: Tables, modText: string, translatedVersion: Option<string>, latestVersion: Option<string>)
    requires Fits(t)
    ensures Grows(t, UpdateMod(t, modText, translatedVersion, latestVersion))
  {
  }

  lemma AddedAliasGrows(t: Tables, modText: string, aliasName: string)
    requires Fits(t)
    ensures Grows(t, AddModAlias(t, modText, aliasName))
  {
  }

  lemma ClearedReviewGrows(t: Tables, appearanceText: string)
    requires Fits(t)
    ensures Grows(t, ClearReview(t, appearanceText))
  {
  }

  lemma RegisteredGrows(t: Tables, req: SheetRequest, api: SheetsApi, now: int)
    requires Fits(t)
    ensures Grows(t, RegisterGoogleSheet(t, req, api, now))
  {
  }

  /** Handles one request: the store's tables become what `Serve` says; the history is untouched. */
  method Handle(db: Store, req: Request) returns (result: Result<Response>)
    requires db.Valid()
    modifies db
    ensures db.Valid()
    ensures var d := Serve(old(TablesOf(db)), req);
      TablesOf(db) == d.state && result == d.result && db.history == old(db.history)
  {
    var d := Serve(TablesOf(db), req);
    ServeKeepsFit(TablesOf(db), req);
    Apply(db, d.state);
    result := d.result;
  }

  /** Writes consistent tables into the store, leaving the history alone. */
  method Apply(db: Store, t: Tables)
    requires Fits(t)
    modifies db
    ensures db.Valid() && TablesOf(db) == t && db.history == old(db.history)
  {
    db.feeds, db.posts, db.authors, db.mods := t.feeds, t.posts, t.authors, t.mods;
    db.aliases, db.appearances, db.snapshots, db.nextId := t.aliases, t.appearances, t.snapshots, t.nextId;
  }
}
