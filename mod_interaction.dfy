/**
 * The operator's side of mod review: routing of button presses, menu choices and modal
 * submissions from the review message, and the handlers that confirm, link, create or ignore
 * detected mod appearances, record confirmations, links and creations in the link history, and
 * refresh the message the action came from.
 */
module ModInteraction {
  import opened Wrappers
  import opened Text
  import opened Db
  import opened ModNotification
  import Slugs
  import EmbedBuilder

  // ---------------------------------------------------------------------------------------
  // Routing
  // ---------------------------------------------------------------------------------------

  /** Where a button press goes, with the text after the matched prefix. */
  datatype ButtonRoute =
    | ConfirmOne(arg: string)
    | LinkOne(arg: string)
    | CreateOne(arg: string)
    | IgnoreOne(arg: string)
    | ConfirmAll
    | IgnoreAll
    | Unrouted

  /** handleButtonInteraction: the first matching prefix wins; the bulk ids are compared last. */
  function RouteButton(customId: string): ButtonRoute
  {
    if StartsWith(customId, ConfirmPrefix) then ConfirmOne(ReplaceFirst(customId, ConfirmPrefix, ""))
    else if StartsWith(customId, LinkPrefix) then LinkOne(ReplaceFirst(customId, LinkPrefix, ""))
    else if StartsWith(customId, CreatePrefix) then CreateOne(ReplaceFirst(customId, CreatePrefix, ""))
    else if StartsWith(customId, IgnorePrefix) then IgnoreOne(ReplaceFirst(customId, IgnorePrefix, ""))
    else if customId == ConfirmAllId then ConfirmAll
    else if customId == IgnoreAllId then IgnoreAll
    else Unrouted
  }

  /**
   * The bulk buttons are shadowed: their ids start with the single-item prefixes, so they reach
   * the single-item handlers with the argument "all", which names no appearance.
   */
  lemma BulkButtonsShadowed()
    ensures RouteButton(ConfirmAllId) == ConfirmOne("all")
    ensures RouteButton(IgnoreAllId) == IgnoreOne("all")
    ensures ParseId("all") == None
  {
    ConfirmAllRoute();
    IgnoreAllRoute();
    assert !IsDigit("all"[0]);
  }

  /** The confirm-all id matches the confirm prefix, the first one tried. */
  lemma ConfirmAllRoute()
    ensures RouteButton(ConfirmAllId) == ConfirmOne("all")
  {
    PrefixRoute(ConfirmPrefix, "all");
    assert ConfirmAllId == ConfirmPrefix + "all";
  }

  /** The ignore-all id matches none of the first three prefixes and then the ignore prefix. */
  lemma IgnoreAllRoute()
    ensures RouteButton(IgnoreAllId) == IgnoreOne("all")
  {
    PrefixRoute(IgnorePrefix, "all");
    assert IgnoreAllId == IgnorePrefix + "all";
    DiffersFromPrefix(IgnoreAllId, ConfirmPrefix, 4);
    DiffersFromPrefix(IgnoreAllId, LinkPrefix, 4);
    DiffersFromPrefix(IgnoreAllId, CreatePrefix, 4);
  }

  /** No button press ever reaches the confirm-all or ignore-all handler. */
  lemma BulkHandlersUnreachable(customId: string)
    ensures RouteButton(customId) != ConfirmAll && RouteButton(customId) != IgnoreAll
  {
    if customId == ConfirmAllId {
      PrefixRoute(ConfirmPrefix, "all");
      assert customId == ConfirmPrefix + "all";
    } else if customId == IgnoreAllId {
      PrefixRoute(IgnorePrefix, "all");
      assert customId == IgnorePrefix + "all";
    }
  }

  /** handleButtonInteraction as intended: the bulk ids are compared before the prefixes. */
  function RouteButtonIntended(customId: string): ButtonRoute
  {
    if customId == ConfirmAllId then ConfirmAll
    else if customId == IgnoreAllId then IgnoreAll
    else RouteButton(customId)
  }

  /**
   * With the bulk ids compared first, exactly the two bulk ids reach the bulk handlers, and
   * every other id goes where it went before.
   */
  lemma RouteButtonIntendedMeaning(customId: string)
    ensures RouteButtonIntended(customId) == ConfirmAll <==> customId == ConfirmAllId
    ensures RouteButtonIntended(customId) == IgnoreAll <==> customId == IgnoreAllId
    ensures customId != ConfirmAllId && customId != IgnoreAllId ==> RouteButtonIntended(customId) == RouteButton(customId)
  {
    assert ConfirmAllId != IgnoreAllId by { assert |ConfirmAllId| != |IgnoreAllId|; }
    BulkHandlersUnreachable(customId);
  }

  /**
   * The four buttons shown for one appearance reach the confirm, link, create and ignore
   * handlers, each with that appearance's id.
   */
  lemma ActionButtonsRoute(id: Id, verified: bool)
    ensures var bs := ActionButtons(id, verified);
      RouteButton(bs[0].customId) == ConfirmOne(IdText(id))
      && RouteButton(bs[1].customId) == LinkOne(IdText(id))
      && RouteButton(bs[2].customId) == CreateOne(IdText(id))
      && RouteButton(bs[3].customId) == IgnoreOne(IdText(id))
    ensures ParseId(IdText(id)) == Some(id)
  {
    var t := IdText(id);
    PrefixRoute(ConfirmPrefix, t);
    PrefixRoute(LinkPrefix, t);
    PrefixRoute(CreatePrefix, t);
    PrefixRoute(IgnorePrefix, t);
    DiffersFromPrefix(LinkPrefix + t, ConfirmPrefix, 4);
    DiffersFromPrefix(CreatePrefix + t, ConfirmPrefix, 5);
    DiffersFromPrefix(CreatePrefix + t, LinkPrefix, 4);
    DiffersFromPrefix(IgnorePrefix + t, ConfirmPrefix, 4);
    DiffersFromPrefix(IgnorePrefix + t, LinkPrefix, 4);
    DiffersFromPrefix(IgnorePrefix + t, CreatePrefix, 4);
    ParseIdMeaning(t, id);
  }

  lemma PrefixRoute(p: string, t: string)
    ensures StartsWith(p + t, p) && ReplaceFirst(p + t, p, "") == t
  {
    assert (p + t)[..|p|] == p;
    ReplaceFirstPrefix(p + t, p, "");
    assert (p + t)[|p|..] == t;
  }

  const LinkModalPrefix: string := "mod_link_modal_"
  const CreateModalPrefix: string := "mod_create_modal_"

  /** Where a modal submission goes. */
  datatype ModalRoute = LinkModal(arg: string) | CreateModal(arg: string) | NoModal

  function RouteModal(customId: string): ModalRoute
  {
    if StartsWith(customId, LinkModalPrefix) then LinkModal(ReplaceFirst(customId, LinkModalPrefix, ""))
    else if StartsWith(customId, CreateModalPrefix) then CreateModal(ReplaceFirst(customId, CreateModalPrefix, ""))
    else NoModal
  }

  /** The modals opened from an appearance's link and create buttons come back with its argument. */
  lemma ModalRoundTrip(arg: string)
    ensures RouteModal(LinkModalPrefix + arg) == LinkModal(arg)
    ensures RouteModal(CreateModalPrefix + arg) == CreateModal(arg)
  {
    PrefixRoute(LinkModalPrefix, arg);
    PrefixRoute(CreateModalPrefix, arg);
    DiffersFromPrefix(CreateModalPrefix + arg, LinkModalPrefix, 5);
  }

  // ---------------------------------------------------------------------------------------
  // The select menu
  // ---------------------------------------------------------------------------------------

  /** A reply to the operator, possibly with buttons. */
  datatype Answer = Answer(content: string, buttons: seq<Button>)

  /** The reply of a failed interaction, sent by the catch-all handler. */
  const ErrorReply: string := "❌ Erro ao processar a interação. Tente novamente."

  /**
   * handleSelectMenuInteraction: the chosen appearance's name and version with its four action
   * buttons; an unknown choice gets a not-found reply; a choice-less submission fails.
   */
  function SelectMenuAnswer(apps: map<Id, Appearance>, customId: string, values: seq<string>): Option<Answer>
  {
    if customId != SelectMenuId then None
    else if |values| == 0 then Some(Answer(ErrorReply, []))
    else match ParseId(values[0])
      case Some(id) =>
        if id in apps then
          var a := apps[id];
          Some(Answer("📦 **" + a.detectedName + "** " + (if Truthy(a.detectedVersion) then "(v" + a.detectedVersion.value + ")" else "(sem versão)")
            + "\n\nEscolha uma ação:", ActionButtons(id, false)))
        else Some(Answer("❌ Mod não encontrado.", []))
      case None => Some(Answer("❌ Mod não encontrado.", []))
  }

  /** Choosing a stored appearance's id in the menu offers its four action buttons. */
  lemma SelectMenuChoice(apps: map<Id, Appearance>, id: Id)
    requires id in apps
    ensures var ans := SelectMenuAnswer(apps, SelectMenuId, [IdText(id)]);
      ans.Some? && ans.value.buttons == ActionButtons(id, false)
  {
    ParseIdMeaning(IdText(id), id);
  }

  /** The menu of a review message with two or more pending appearances, and its option values. */
  lemma MenuValues(pending: seq<Pending>, i: nat)
    requires 2 <= |pending| && i < |pending| && i < MenuLimit
    ensures var rows := Components(pending);
      |rows| > 0 && rows[0].Menu? && rows[0].customId == SelectMenuId && i < |rows[0].options|
      && rows[0].options[i].value == IdText(pending[i].id)
  {
    ComponentsLayout(pending);
  }

  /**
   * Choosing an option of the review menu for a stored appearance offers the four buttons that
   * route back to the handlers with that same appearance's id.
   */
  lemma SelectMenuRoundTrip(apps: map<Id, Appearance>, pending: seq<Pending>, i: nat)
    requires 2 <= |pending| && i < |pending| && i < MenuLimit && pending[i].id in apps
    ensures var rows := Components(pending);
      |rows| > 0 && rows[0].Menu? && i < |rows[0].options|
      && var ans := SelectMenuAnswer(apps, rows[0].customId, [rows[0].options[i].value]);
      ans.Some? && |ans.value.buttons| == 4
      && RouteButton(ans.value.buttons[0].customId) == ConfirmOne(IdText(pending[i].id))
      && RouteButton(ans.value.buttons[1].customId) == LinkOne(IdText(pending[i].id))
      && RouteButton(ans.value.buttons[2].customId) == CreateOne(IdText(pending[i].id))
      && RouteButton(ans.value.buttons[3].customId) == IgnoreOne(IdText(pending[i].id))
  {
    MenuValues(pending, i);
    SelectMenuChoice(apps, pending[i].id);
    ActionButtonsRoute(pending[i].id, false);
  }

  // ---------------------------------------------------------------------------------------
  // Refreshing the review message
  // ---------------------------------------------------------------------------------------

  /** A posted Discord message: its id, text, embeds and components. */
  datatype Posted = Posted(id: string, content: string, embeds: seq<ReviewEmbed>, components: seq<Row>)

  /** The appearances of a message still awaiting review. */
  function PendingOn(apps: map<Id, Appearance>, messageId: string): set<Id>
  {
    set k | k in apps && apps[k].discordMessageId == Some(messageId) && apps[k].needsReview
  }

  /** The appearances of a message still awaiting review, oldest first, with their mods. */
  function Remaining(apps: map<Id, Appearance>, mods: map<Id, Mod>, messageId: string, n: nat): seq<Pending>
  {
    var ids := Ascending(PendingOn(apps, messageId), n);
    seq(|ids|, i requires 0 <= i < |ids| => Pending(ids[i], apps[ids[i]], LinkedMod(mods, apps[ids[i]])))
  }

  /** The entry of a remaining appearance in the refreshed list. */
  function RemainingLine(i: nat, p: Pending): string
  {
    var status := if p.mod.Some? then "✅ Identificado (" + IntText(Percent(p.appearance.confidence)) + "%)" else "❓ Não identificado (0%)";
    IntText(i + 1) + ". **" + p.appearance.detectedName + "** (v"
    + (if Truthy(p.appearance.detectedVersion) then p.appearance.detectedVersion.value else "N/A") + ")\n"
    + "   └ " + status + "\n"
  }

  /** The refreshed list of remaining appearances. */
  function RemainingText(remaining: seq<Pending>): string
  {
    Join(seq(|remaining|, i requires 0 <= i < |remaining| => RemainingLine(i, remaining[i])), "")
  }

  const AllReviewed: string := "✅ **Todos os mods foram revisados!**"

  /**
   * updateMessageAfterAction as written: with nothing left the message loses its embeds and
   * components; otherwise the first field of the first embed gets the refreshed list. A message
   * without an embed or field fails and stays as it was (None).
   */
  function AfterActionAsWritten(message: Posted, remaining: seq<Pending>): Option<Posted>
  {
    if |remaining| == 0 then Some(message.(content := AllReviewed, embeds := [], components := []))
    else if |message.embeds| == 0 || |message.embeds[0].fields| == 0 then None
    else
      var e := message.embeds[0];
      Some(message.(embeds := [e.(fields := e.fields[0 := e.fields[0].(value := RemainingText(remaining))])]))
  }

  /** The position of the first field with the given name. */
  function FieldNamed(fields: seq<EmbedBuilder.Field>, name: string): (r: Option<nat>)
    ensures r.Some? ==> r.value < |fields| && fields[r.value].name == name
    ensures r.None? ==> forall i :: 0 <= i < |fields| ==> fields[i].name != name
  {
    if |fields| == 0 then None
    else if fields[0].name == name then Some(0)
    else match FieldNamed(fields[1..], name)
      case Some(i) => Some(i + 1)
      case None => None
  }

  /**
   * updateMessageAfterAction as intended: the refreshed list replaces the mods field, leaving
   * the post link and the other fields as they were.
   */
  function AfterAction(message: Posted, remaining: seq<Pending>): Option<Posted>
  {
    if |remaining| == 0 then Some(message.(content := AllReviewed, embeds := [], components := []))
    else if |message.embeds| == 0 then None
    else
      var e := message.embeds[0];
      match FieldNamed(e.fields, ModsFieldName)
      case None => None
      case Some(i) => Some(message.(embeds := [e.(fields := e.fields[i := e.fields[i].(value := RemainingText(remaining))])]))
  }

  /**
   * On a review message as posted, the refresh as written overwrites the post link with the
   * remaining list and leaves the stale full list in the mods field.
   */
  lemma AfterActionOverwritesPostLink(message: Posted, post: Post, author: Option<Author>, pending: seq<Pending>, remaining: seq<Pending>)
    requires message.embeds == [MainEmbed(post, author, pending)]
    requires |remaining| > 0
    ensures var r := AfterActionAsWritten(message, remaining);
      var fs := r.value.embeds[0].fields;
      r.Some? && fs[0].name == PostFieldName && fs[0].value == RemainingText(remaining)
      && fs[|fs| - 1] == ModsField(pending)
  {
    MainEmbedMeaning(post, author, pending);
  }

  /**
   * The intended refresh keeps the post link and puts the remaining list in the mods field; with
   * nothing remaining both versions clear the message.
   */
  lemma AfterActionMeaning(message: Posted, post: Post, author: Option<Author>, pending: seq<Pending>, remaining: seq<Pending>)
    requires message.embeds == [MainEmbed(post, author, pending)]
    ensures var r := AfterAction(message, remaining);
      r.Some? && r.value.id == message.id
      && (|remaining| == 0 ==> r == AfterActionAsWritten(message, remaining) && r.value.embeds == [] && r.value.components == [])
      && (|remaining| > 0 ==>
            var fs := r.value.embeds[0].fields;
            r.value.components == message.components && r.value.content == message.content
            && |fs| == |message.embeds[0].fields|
            && fs[0] == PostField(post)
            && fs[|fs| - 1] == EmbedBuilder.Field(ModsFieldName, RemainingText(remaining), false))
  {
    MainEmbedMeaning(post, author, pending);
    var fs := message.embeds[0].fields;
    if author.Some? {
      assert fs[2].name == AuthorFieldName;
      assert AuthorFieldName[0] != ModsFieldName[0];
    }
    assert PostFieldName[0] != ModsFieldName[0];
    assert PublishedFieldName[0] != ModsFieldName[0];
    assert forall i :: 0 <= i < |fs| - 1 ==> fs[i].name != ModsFieldName;
    assert FieldNamed(fs, ModsFieldName) == Some(|fs| - 1) by {
      FieldNamedLast(fs, ModsFieldName);
    }
  }

  /** The first field with a name is the last field when no earlier field has that name. */
  lemma {:induction false} FieldNamedLast(fields: seq<EmbedBuilder.Field>, name: string)
    requires |fields| > 0 && fields[|fields| - 1].name == name
    requires forall i :: 0 <= i < |fields| - 1 ==> fields[i].name != name
    ensures FieldNamed(fields, name) == Some(|fields| - 1)
  {
    if |fields| > 1 {
      FieldNamedLast(fields[1..], name);
    }
  }

  // ---------------------------------------------------------------------------------------
  // Single-item handlers on the store's rows
  // ---------------------------------------------------------------------------------------

  /** The rows the review handlers change. */
  datatype Review = Review(appearances: map<Id, Appearance>, mods: map<Id, Mod>, history: seq<HistoryEntry>, nextId: Id)

  /** The new rows, the reply, and whether the review message is refreshed afterwards. */
  datatype Handled = Handled(state: Review, reply: string, refresh: bool)

  const NothingToConfirm: string := "❌ Não há mod vinculado para confirmar."

  /** An appearance settled by the operator: no longer pending, and verified or not. */
  function Settled(a: Appearance, verified: bool): Appearance
  {
    a.(verified := verified, needsReview := false)
  }

  /** Whether confirming the appearance moves its mod's latest version. */
  predicate Promotes(a: Appearance, m: Mod)
  {
    a.normalizedVersion != "" && m.translatedVersionNormalized != Some(a.normalizedVersion)
  }

  /** The mod after a confirmation that promotes the detected version to its latest. */
  function Promoted(m: Mod, a: Appearance, publishedAt: int): Mod
  {
    m.(latestVersion := a.detectedVersion, latestVersionNormalized := Some(a.normalizedVersion),
       latestVersionDate := Some(publishedAt), isUpToDate := false)
  }

  /**
   * handleConfirm: an appearance that is missing or has no linked mod changes nothing;
   * otherwise it is verified and settled, the mod's latest version is promoted when the
   * detected one differs from the translated one, and one confirmation is logged. There is no
   * check that the appearance is still pending.
   */
  function Confirm(s: Review, posts: map<string, Post>, arg: string, userId: string): Handled
  {
    match ParseId(arg)
    case None => Handled(s, NothingToConfirm, false)
    case Some(id) =>
      if id !in s.appearances || LinkedMod(s.mods, s.appearances[id]).None? || s.appearances[id].postId !in posts then
        Handled(s, NothingToConfirm, false)
      else
        var a := s.appearances[id];
        var m := a.modId.value;
        var mod := s.mods[m];
        var mods := if Promotes(a, mod) then s.mods[m := Promoted(mod, a, posts[a.postId].publishedAt)] else s.mods;
        Handled(Review(s.appearances[id := Settled(a, true)], mods, s.history + [HistoryEntry(m, id, Verified, userId, a.detectedVersion)], s.nextId),
          "✅ Mod **" + mod.primaryName + "** confirmado!", true)
  }

  /**
   * What a confirmation does: with a linked mod, the appearance (and nothing else) is verified
   * and settled, exactly one confirmation naming the mod, the appearance, the user and the
   * detected version is appended, and the mod changes iff the version is promoted; without
   * one, nothing changes.
   */
  lemma ConfirmMeaning(s: Review, posts: map<string, Post>, id: Id, userId: string)
    ensures var h := Confirm(s, posts, IdText(id), userId);
      var found := id in s.appearances && LinkedMod(s.mods, s.appearances[id]).Some? && s.appearances[id].postId in posts;
      (!found ==> h.state == s && !h.refresh)
      && (found ==>
            var a := s.appearances[id];
            var m := a.modId.value;
            h.state.appearances == s.appearances[id := Settled(a, true)]
            && h.state.history == s.history + [HistoryEntry(m, id, Verified, userId, a.detectedVersion)]
            && h.state.mods.Keys == s.mods.Keys
            && (forall k :: k in s.mods && k != m ==> h.state.mods[k] == s.mods[k])
            && (h.state.mods[m] != s.mods[m] <==> Promotes(a, s.mods[m]) && Promoted(s.mods[m], a, posts[a.postId].publishedAt) != s.mods[m])
            && (Promotes(a, s.mods[m]) ==>
                  h.state.mods[m].latestVersionNormalized == Some(a.normalizedVersion)
                  && h.state.mods[m].latestVersionDate == Some(posts[a.postId].publishedAt)
                  && !h.state.mods[m].isUpToDate)
            && h.refresh)
  {
    ParseIdMeaning(IdText(id), id);
  }

  /** Confirming twice logs two confirmations: the handler is not idempotent. */
  lemma ConfirmNotIdempotent(s: Review, posts: map<string, Post>, id: Id, userId: string)
    requires id in s.appearances && LinkedMod(s.mods, s.appearances[id]).Some? && s.appearances[id].postId in posts
    ensures var once := Confirm(s, posts, IdText(id), userId).state;
      var twice := Confirm(once, posts, IdText(id), userId).state;
      |twice.history| == |s.history| + 2 && twice.history[|s.history|] == twice.history[|s.history| + 1]
  {
    ParseIdMeaning(IdText(id), id);
    var once := Confirm(s, posts, IdText(id), userId).state;
    var a := s.appearances[id];
    assert once.appearances[id] == Settled(a, true);
    assert once.mods.Keys == s.mods.Keys;
  }

  /**
   * handleIgnore: the appearance is settled as not verified, with nothing logged; an argument
   * naming no appearance makes the update fail, and the catch-all handler replies with an error.
   */
  function Ignore(s: Review, arg: string): Handled
  {
    match ParseId(arg)
    case None => Handled(s, ErrorReply, false)
    case Some(id) =>
      if id !in s.appearances then Handled(s, ErrorReply, false)
      else Handled(s.(appearances := s.appearances[id := Settled(s.appearances[id], false)]), "❌ Mod ignorado.", true)
  }

  /** Ignoring touches only the one appearance's two flags, and never the mods or the history. */
  lemma IgnoreMeaning(s: Review, arg: string)
    ensures var h := Ignore(s, arg);
      h.state.mods == s.mods && h.state.history == s.history && h.state.nextId == s.nextId
      && h.state.appearances.Keys == s.appearances.Keys
      && (h.refresh <==> ParseId(arg).Some? && ParseId(arg).value in s.appearances)
      && (forall k :: k in s.appearances ==>
            h.state.appearances[k] == if h.refresh && k == ParseId(arg).value then Settled(s.appearances[k], false) else s.appearances[k])
  {
  }

  /** A mod answers to an identifier that is its id or its slug, or that its name contains, in any letter case. */
  predicate Names(mods: map<Id, Mod>, k: Id, identifier: string)
    requires k in mods
  {
    IdText(k) == identifier || Contains(Lower(mods[k].primaryName), Lower(identifier)) || mods[k].slug == identifier
  }

  /** The mod a link modal's identifier names: the oldest one that answers to it. */
  function FindMod(mods: map<Id, Mod>, identifier: string, n: nat): (r: Option<Id>)
    ensures r.Some? ==> r.value in mods && r.value < n
  {
    Head(Ascending((set k | k in mods && Names(mods, k, identifier)), n))
  }

  /**
   * The lookup finds a mod that answers to the identifier, and no older mod does; it finds none
   * exactly when no mod below `n` answers to it.
   */
  lemma FindModMeaning(mods: map<Id, Mod>, identifier: string, n: nat)
    ensures var r := FindMod(mods, identifier, n);
      (r.Some? ==> Names(mods, r.value, identifier)
                   && forall k :: k in mods && k < r.value ==> !Names(mods, k, identifier))
      && (r.None? <==> forall k :: k in mods && k < n ==> !Names(mods, k, identifier))
  {
    var keys := set k | k in mods && Names(mods, k, identifier);
    HeadOfAscending(keys, n);
    var r := FindMod(mods, identifier, n);
    assert r == Head(Ascending(keys, n));
    var bound := if r.Some? then r.value else n;
    forall k | k in mods && k < bound
      ensures !Names(mods, k, identifier)
    {
      assert Names(mods, k, identifier) ==> k in keys;
    }
    if r.Some? {
      assert r.value in keys;
    }
  }

  /**
   * The link modal: an identifier naming no mod changes nothing; otherwise the appearance is
   * linked to that mod, verified and settled, and one link is logged. The search is over all
   * mods, not only the post's author's. An argument naming no appearance fails the update.
   */
  function Link(s: Review, arg: string, identifier: string, userId: string): Handled
  {
    match FindMod(s.mods, identifier, s.nextId)
    case None => Handled(s, "❌ Mod \"" + identifier + "\" não encontrado.", false)
    case Some(m) =>
      match ParseId(arg)
      case None => Handled(s, ErrorReply, false)
      case Some(id) =>
        if id !in s.appearances || m !in s.mods then Handled(s, ErrorReply, false)
        else Handled(Review(s.appearances[id := Settled(s.appearances[id], true).(modId := Some(m))], s.mods,
                       s.history + [HistoryEntry(m, id, Linked, userId, None)], s.nextId),
               "🔗 Vinculado a **" + s.mods[m].primaryName + "**!", true)
  }

  /**
   * A link goes to the oldest mod of any author that answers to the identifier; it changes only
   * that appearance and appends exactly one link entry; with no such mod nothing changes.
   */
  lemma LinkMeaning(s: Review, arg: string, identifier: string, userId: string)
    requires forall k :: k in s.mods ==> k < s.nextId
    ensures var h := Link(s, arg, identifier, userId);
      var found := FindMod(s.mods, identifier, s.nextId);
      (found.None? ==> h.state == s)
      && (h.state != s ==>
            found.Some? && ParseId(arg).Some? && ParseId(arg).value in s.appearances
            && var id := ParseId(arg).value;
            var m := found.value;
            Names(s.mods, m, identifier)
            && (forall k :: k in s.mods && k < m ==> !Names(s.mods, k, identifier))
            && h.state.appearances == s.appearances[id := s.appearances[id].(modId := Some(m), verified := true, needsReview := false)]
            && h.state.history == s.history + [HistoryEntry(m, id, Linked, userId, None)]
            && h.state.mods == s.mods)
  {
    FindModMeaning(s.mods, identifier, s.nextId);
  }

  /**
   * The create modal: without an author linked to the post's feed nothing changes; otherwise a
   * mod named as typed is created under that author, with the typed name's slug as slug and
   * normalized name and the appearance's version as its latest, the appearance is linked to it,
   * verified and settled, and one creation is logged.
   */
  function Create(s: Review, feeds: map<string, Feed>, posts: map<string, Post>, authors: map<Id, Author>,
                  arg: string, modName: string, curseForgeText: string, userId: string): Handled
  {
    var noAuthor := Handled(s, "❌ Autor não encontrado.", false);
    match ParseId(arg)
    case None => noAuthor
    case Some(id) =>
      if id !in s.appearances || s.appearances[id].postId !in posts then noAuthor
      else
        var a := s.appearances[id];
        var post := posts[a.postId];
        if post.feedSourceId !in feeds then noAuthor
        else match FeedAuthor(authors, post.feedSourceId, s.nextId)
          case None => noAuthor
          case Some(authorId) =>
            var slug := Slugs.Slug(modName);
            var m := s.nextId;
            var mod := NewMod(authorId, modName, slug, if curseForgeText == "" then None else Some(curseForgeText))
              .(latestVersion := a.detectedVersion, latestVersionNormalized := Some(a.normalizedVersion), latestVersionDate := Some(post.publishedAt));
            Handled(Review(s.appearances[id := Settled(a, true).(modId := Some(m))], s.mods[m := mod],
                      s.history + [HistoryEntry(m, id, Created, userId, None)], m + 1),
              "✅ Mod **" + modName + "** criado e vinculado!", true)
  }

  /**
   * A creation adds exactly one mod, under a fresh id and under the post's feed's author, whose
   * slug is the typed name's slug and whose latest version is the appearance's; the appearance
   * then points at it.
   */
  lemma CreateMeaning(s: Review, feeds: map<string, Feed>, posts: map<string, Post>, authors: map<Id, Author>,
                      arg: string, modName: string, curseForgeText: string, userId: string)
    requires forall k :: k in s.mods ==> k < s.nextId
    ensures var h := Create(s, feeds, posts, authors, arg, modName, curseForgeText, userId);
      (h.refresh ==>
          var id := ParseId(arg).value;
          var a := s.appearances[id];
          var m := s.nextId;
          m !in s.mods && h.state.mods.Keys == s.mods.Keys + {m} && h.state.nextId == m + 1
          && (forall k :: k in s.mods ==> h.state.mods[k] == s.mods[k])
          && Some(h.state.mods[m].authorId) == FeedAuthor(authors, posts[a.postId].feedSourceId, s.nextId)
          && h.state.mods[m].slug == Slugs.Slug(modName) && h.state.mods[m].normalizedName == Slugs.Slug(modName)
          && h.state.mods[m].primaryName == modName
          && h.state.mods[m].latestVersion == a.detectedVersion
          && h.state.mods[m].latestVersionNormalized == Some(a.normalizedVersion)
          && h.state.appearances[id].modId == Some(m)
          && h.state.history == s.history + [HistoryEntry(m, id, Created, userId, None)])
      && (!h.refresh ==> h.state == s)
  {
  }

  // ---------------------------------------------------------------------------------------
  // Bulk handlers
  // ---------------------------------------------------------------------------------------

  /** An appearance the confirm-all handler settles: pending on the message and linked to a mod. */
  predicate Confirmable(apps: map<Id, Appearance>, mods: map<Id, Mod>, messageId: string, k: Id)
  {
    k in apps && apps[k].discordMessageId == Some(messageId) && apps[k].needsReview && LinkedMod(mods, apps[k]).Some?
  }

  /** The appearances after confirming all of a message. */
  function ConfirmedAll(apps: map<Id, Appearance>, mods: map<Id, Mod>, messageId: string): (r: map<Id, Appearance>)
    ensures r.Keys == apps.Keys
  {
    map k | k in apps :: if Confirmable(apps, mods, messageId, k) then Settled(apps[k], true) else apps[k]
  }

  function ConfirmAllReply(count: nat): string
  {
    "✅ " + IntText(count) + " mod(s) confirmado(s)!"
  }

  /** Confirming all leaves no linked appearance of the message pending, and touches nothing else. */
  lemma ConfirmedAllMeaning(apps: map<Id, Appearance>, mods: map<Id, Mod>, messageId: string)
    ensures var r := ConfirmedAll(apps, mods, messageId);
      (forall k :: k in r && r[k].discordMessageId == Some(messageId) && LinkedMod(mods, r[k]).Some? ==> !r[k].needsReview)
      && (forall k :: k in r && !Confirmable(apps, mods, messageId, k) ==> r[k] == apps[k])
  {
  }

  /** The appearances of a message the confirm-all handler settles. */
  function ConfirmableSet(apps: map<Id, Appearance>, mods: map<Id, Mod>, messageId: string): set<Id>
  {
    set k | k in apps && Confirmable(apps, mods, messageId, k)
  }

  /** The appearances once those of `done` have been visited by the confirm-all loop. */
  function ConfirmedOver(apps: map<Id, Appearance>, mods: map<Id, Mod>, messageId: string, done: set<Id>): map<Id, Appearance>
  {
    map k | k in apps :: if k in done && Confirmable(apps, mods, messageId, k) then Settled(apps[k], true) else apps[k]
  }

  lemma ConfirmedOverStep(apps: map<Id, Appearance>, mods: map<Id, Mod>, messageId: string, done: set<Id>, id: Id)
    requires id in apps
    ensures ConfirmedOver(apps, mods, messageId, done + {id})
      == if Confirmable(apps, mods, messageId, id) then ConfirmedOver(apps, mods, messageId, done)[id := Settled(apps[id], true)]
         else ConfirmedOver(apps, mods, messageId, done)
  {
  }

  lemma ConfirmedCountStep(all: set<Id>, done: set<Id>, id: Id)
    requires id !in done
    ensures |all * (done + {id})| == |all * done| + if id in all then 1 else 0
  {
    if id in all {
      assert all * (done + {id}) == all * done + {id};
    } else {
      assert all * (done + {id}) == all * done;
    }
  }

  /** Once every pending appearance of the message is visited, the loop has confirmed them all. */
  lemma ConfirmedOverAll(apps: map<Id, Appearance>, mods: map<Id, Mod>, messageId: string, n: nat, done: set<Id>)
    requires forall k :: k in apps ==> k < n
    requires var ids := Ascending(PendingOn(apps, messageId), n); forall j :: 0 <= j < |ids| ==> ids[j] in done
    ensures ConfirmedOver(apps, mods, messageId, done) == ConfirmedAll(apps, mods, messageId)
    ensures ConfirmableSet(apps, mods, messageId) * done == ConfirmableSet(apps, mods, messageId)
  {
    var keys := PendingOn(apps, messageId);
    var ids := Ascending(keys, n);
    AscendingMeaning(keys, n);
    forall k | k in keys ensures k in done {
      var j :| 0 <= j < |ids| && ids[j] == k;
    }
  }

  /**
   * The loop of handleConfirmAll: visits the message's pending appearances oldest first,
   * settles each one that has a linked mod as verified, and counts them.
   */
  method ConfirmPending(apps0: map<Id, Appearance>, mods: map<Id, Mod>, messageId: string, n: nat)
    returns (apps: map<Id, Appearance>, confirmed: nat)
    requires forall k :: k in apps0 ==> k < n
    ensures apps == ConfirmedAll(apps0, mods, messageId)
    ensures confirmed == |ConfirmableSet(apps0, mods, messageId)|
  {
    ghost var all := ConfirmableSet(apps0, mods, messageId);
    var ids := Ascending(PendingOn(apps0, messageId), n);
    AscendingMeaning(PendingOn(apps0, messageId), n);
    apps := apps0;
    ghost var done: set<Id> := {};
    confirmed := 0;
    var i := 0;
    while i < |ids|
      invariant 0 <= i <= |ids|
      invariant forall j :: 0 <= j < i ==> ids[j] in done
      invariant forall j :: i <= j < |ids| ==> ids[j] !in done
      invariant apps == ConfirmedOver(apps0, mods, messageId, done)
      invariant confirmed == |all * done|
    {
      var id := ids[i];
      var pm := apps[id];
      assert pm == apps0[id];
      ConfirmedOverStep(apps0, mods, messageId, done, id);
      ConfirmedCountStep(all, done, id);
      if LinkedMod(mods, pm).Some? {
        apps := apps[id := Settled(pm, true)];
        confirmed := confirmed + 1;
      }
      done := done + {id};
      i := i + 1;
    }
    ConfirmedOverAll(apps0, mods, messageId, n, done);
  }

  /**
   * handleConfirmAll: each pending appearance of the message that has a linked mod is verified
   * and settled, and the reply counts them; no history is written and no mod is promoted.
   */
  method HandleConfirmAll(db: Store, messageId: string) returns (reply: string)
    requires db.Valid()
    modifies db
    ensures db.Valid()
    ensures unchanged(db`feeds, db`posts, db`authors, db`mods, db`aliases, db`history, db`snapshots, db`nextId)
    ensures db.appearances == ConfirmedAll(old(db.appearances), db.mods, messageId)
    ensures reply == ConfirmAllReply(|ConfirmableSet(old(db.appearances), db.mods, messageId)|)
  {
    var apps, confirmed := ConfirmPending(db.appearances, db.mods, messageId, db.nextId);
    db.appearances := apps;
    reply := ConfirmAllReply(confirmed);
  }

  /** The appearances after ignoring all of a message: every appearance carrying its id, pending or not. */
  function IgnoredAll(apps: map<Id, Appearance>, messageId: string): (r: map<Id, Appearance>)
    ensures r.Keys == apps.Keys
  {
    map k | k in apps :: if apps[k].discordMessageId == Some(messageId) then apps[k].(needsReview := false) else apps[k]
  }

  /**
   * Ignoring all leaves nothing of the message pending, keeps every verification flag, and
   * touches no appearance of another message.
   */
  lemma IgnoredAllMeaning(apps: map<Id, Appearance>, messageId: string)
    ensures var r := IgnoredAll(apps, messageId);
      (forall k :: k in r && r[k].discordMessageId == Some(messageId) ==> !r[k].needsReview)
      && (forall k :: k in r ==> r[k].verified == apps[k].verified)
      && (forall k :: k in r && apps[k].discordMessageId != Some(messageId) ==> r[k] == apps[k])
  {
  }

  /** handleIgnoreAll: one update over every appearance of the message. */
  method HandleIgnoreAll(db: Store, messageId: string) returns (reply: string)
    requires db.Valid()
    modifies db
    ensures db.Valid()
    ensures unchanged(db`feeds, db`posts, db`authors, db`mods, db`aliases, db`history, db`snapshots, db`nextId)
    ensures db.appearances == IgnoredAll(old(db.appearances), messageId)
    ensures reply == "❌ Todos os mods ignorados."
  {
    db.appearances := IgnoredAll(db.appearances, messageId);
    reply := "❌ Todos os mods ignorados.";
  }

  // ---------------------------------------------------------------------------------------
  // The handlers on the store
  // ---------------------------------------------------------------------------------------

  function ReviewOf(db: Store): Review
    reads db
  {
    Review(db.appearances, db.mods, db.history, db.nextId)
  }

  /**
   * The message the pressed component was on, after a handler, as the code refreshes it: only
   * when the handler asked for a refresh and the edit succeeded.
   */
  function Refreshed(h: Handled, message: Posted): Option<Posted>
  {
    if h.refresh then AfterActionAsWritten(message, Remaining(h.state.appearances, h.state.mods, message.id, h.state.nextId)) else None
  }

  /**
   * As written, the refresh targets the message the pressed component is on. After a choice in
   * the select menu that is the operator's private reply, whose id no appearance carries, so the
   * refresh finds nothing remaining and clears that reply.
   */
  lemma PrivateReplyCleared(h: Handled, message: Posted)
    requires h.refresh
    requires forall k :: k in h.state.appearances ==> h.state.appearances[k].discordMessageId != Some(message.id)
    ensures Refreshed(h, message) == Some(message.(content := AllReviewed, embeds := [], components := []))
  {
    assert PendingOn(h.state.appearances, message.id) == {};
    Db.AscendingOfNone(h.state.nextId);
    assert Remaining(h.state.appearances, h.state.mods, message.id, h.state.nextId) == [];
  }

  /**
   * Confirming one appearance leaves every other appearance of its review message pending, so
   * that message still has appearances to list after an action taken from the private reply.
   */
  lemma ReviewStillPending(s: Review, posts: map<string, Post>, arg: string, userId: string, j: Id, reviewId: string)
    requires j in s.appearances && s.appearances[j].discordMessageId == Some(reviewId) && s.appearances[j].needsReview
    requires ParseId(arg) != Some(j)
    ensures j in PendingOn(Confirm(s, posts, arg, userId).state.appearances, reviewId)
  {
  }

  /**
   * The refresh as intended: the review message the acted-on appearance was posted in, fetched
   * by the id stamped on the appearance (`review`, None when the fetch fails), gets the list of
   * that message's remaining appearances.
   */
  function RefreshedIntended(h: Handled, arg: string, review: Option<Posted>): Option<Posted>
  {
    match ParseId(arg)
    case None => None
    case Some(id) =>
      if !h.refresh || id !in h.state.appearances || review.None?
         || h.state.appearances[id].discordMessageId != Some(review.value.id) then None
      else AfterAction(review.value, Remaining(h.state.appearances, h.state.mods, review.value.id, h.state.nextId))
  }

  /**
   * After an action, the intended refresh edits the review message of the acted-on appearance:
   * it is cleared when nothing of it is pending, and otherwise keeps its post link and lists
   * exactly the appearances of that message still pending, in its mods field.
   */
  lemma RefreshedIntendedMeaning(h: Handled, arg: string, review: Posted, post: Post, author: Option<Author>, pending: seq<Pending>)
    requires h.refresh && ParseId(arg).Some? && ParseId(arg).value in h.state.appearances
    requires h.state.appearances[ParseId(arg).value].discordMessageId == Some(review.id)
    requires review.embeds == [MainEmbed(post, author, pending)]
    ensures var r := RefreshedIntended(h, arg, Some(review));
      var rem := Remaining(h.state.appearances, h.state.mods, review.id, h.state.nextId);
      r.Some? && r.value.id == review.id
      && (|rem| == 0 ==> r.value.content == AllReviewed && r.value.embeds == [] && r.value.components == [])
      && (|rem| > 0 ==>
            var fs := r.value.embeds[0].fields;
            r.value.components == review.components && fs[0] == PostField(post)
            && fs[|fs| - 1] == EmbedBuilder.Field(ModsFieldName, RemainingText(rem), false))
  {
    AfterActionMeaning(review, post, author, pending, Remaining(h.state.appearances, h.state.mods, review.id, h.state.nextId));
  }

  /** Applies a handler's outcome to the store. */
  method Apply(db: Store, h: Handled, message: Posted) returns (reply: string, edited: Option<Posted>)
    modifies db
    ensures ReviewOf(db) == h.state
    ensures unchanged(db`feeds, db`posts, db`authors, db`aliases, db`snapshots)
    ensures reply == h.reply && edited == Refreshed(h, message)
  {
    db.appearances, db.mods, db.history, db.nextId := h.state.appearances, h.state.mods, h.state.history, h.state.nextId;
    reply := h.reply;
    edited := Refreshed(h, message);
  }

  /** handleConfirm on the store, then the refresh of the message the button was on. */
  method HandleConfirm(db: Store, arg: string, userId: string, message: Posted) returns (reply: string, edited: Option<Posted>)
    requires db.Valid()
    modifies db
    ensures db.Valid()
    ensures unchanged(db`feeds, db`posts, db`authors, db`aliases, db`snapshots)
    ensures var h := Confirm(old(ReviewOf(db)), db.posts, arg, userId);
      ReviewOf(db) == h.state && reply == h.reply && edited == Refreshed(h, message)
  {
    var h := Confirm(ReviewOf(db), db.posts, arg, userId);
    reply, edited := Apply(db, h, message);
  }

  /** handleIgnore on the store, then the refresh. */
  method HandleIgnore(db: Store, arg: string, message: Posted) returns (reply: string, edited: Option<Posted>)
    requires db.Valid()
    modifies db
    ensures db.Valid()
    ensures unchanged(db`feeds, db`posts, db`authors, db`aliases, db`snapshots)
    ensures var h := Ignore(old(ReviewOf(db)), arg);
      ReviewOf(db) == h.state && reply == h.reply && edited == Refreshed(h, message)
  {
    var h := Ignore(ReviewOf(db), arg);
    reply, edited := Apply(db, h, message);
  }

  /** The link modal on the store, then the refresh. */
  method HandleLinkModal(db: Store, arg: string, identifier: string, userId: string, message: Posted)
    returns (reply: string, edited: Option<Posted>)
    requires db.Valid()
    modifies db
    ensures db.Valid()
    ensures unchanged(db`feeds, db`posts, db`authors, db`aliases, db`snapshots)
    ensures var h := Link(old(ReviewOf(db)), arg, identifier, userId);
      ReviewOf(db) == h.state && reply == h.reply && edited == Refreshed(h, message)
  {
    var h := Link(ReviewOf(db), arg, identifier, userId);
    reply, edited := Apply(db, h, message);
  }

  /** The create modal on the store, then the refresh. */
  method HandleCreateModal(db: Store, arg: string, modName: string, curseForgeText: string, userId: string, message: Posted)
    returns (reply: string, edited: Option<Posted>)
    requires db.Valid()
    modifies db
    ensures db.Valid()
    ensures unchanged(db`feeds, db`posts, db`authors, db`aliases, db`snapshots)
    ensures var h := Create(old(ReviewOf(db)), db.feeds, db.posts, db.authors, arg, modName, curseForgeText, userId);
      ReviewOf(db) == h.state && reply == h.reply && edited == Refreshed(h, message)
  {
    var h := Create(ReviewOf(db), db.feeds, db.posts, db.authors, arg, modName, curseForgeText, userId);
    reply, edited := Apply(db, h, message);
  }

  /** What pressing an appearance's link button does: open the link modal, or refuse. */
  datatype Prompt = OpenModal(customId: string) | Refuse(content: string)

  /** Whether some active mod belongs to the author. */
  predicate HasActiveMods(mods: map<Id, Mod>, authorId: Id)
  {
    exists k :: k in mods && mods[k].authorId == authorId && mods[k].isActive
  }

  /**
   * handleLink: the link modal is offered only for a stored appearance whose post's feed has an
   * author with at least one active mod; otherwise the operator is told so.
   */
  function LinkPrompt(apps: map<Id, Appearance>, posts: map<string, Post>, authors: map<Id, Author>, mods: map<Id, Mod>,
                      arg: string, n: nat): Prompt
  {
    var noMods := Refuse("❌ Nenhum mod cadastrado para este autor.");
    match ParseId(arg)
    case None => Refuse("❌ Mod não encontrado.")
    case Some(id) =>
      if id !in apps || apps[id].postId !in posts then Refuse("❌ Mod não encontrado.")
      else match FeedAuthor(authors, posts[apps[id].postId].feedSourceId, n)
        case None => noMods
        case Some(authorId) => if HasActiveMods(mods, authorId) then OpenModal(LinkModalPrefix + arg) else noMods
  }

  /**
   * The modal opens exactly when the appearance exists and its post's author has an active mod,
   * and its submission comes back to the link modal handler with the same argument.
   */
  lemma LinkPromptMeaning(apps: map<Id, Appearance>, posts: map<string, Post>, authors: map<Id, Author>, mods: map<Id, Mod>,
                          id: Id, n: nat)
    ensures var p := LinkPrompt(apps, posts, authors, mods, IdText(id), n);
      (p.OpenModal? <==>
         id in apps && apps[id].postId in posts
         && var author := FeedAuthor(authors, posts[apps[id].postId].feedSourceId, n);
         author.Some? && HasActiveMods(mods, author.value))
      && (p.OpenModal? ==> p.customId == LinkModalPrefix + IdText(id))
  {
    ParseIdMeaning(IdText(id), id);
  }

  /** The modal a prompt opens comes back to the link modal handler with the same argument. */
  lemma LinkPromptRoundTrip(apps: map<Id, Appearance>, posts: map<string, Post>, authors: map<Id, Author>, mods: map<Id, Mod>,
                            arg: string, n: nat)
    ensures var p := LinkPrompt(apps, posts, authors, mods, arg, n);
      p.OpenModal? ==> RouteModal(p.customId) == LinkModal(arg)
  {
    ModalRoundTrip(arg);
  }
}
