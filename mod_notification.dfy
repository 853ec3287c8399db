/**
 * The review surface of the mod-monitoring pipeline: the message posted to the review channel
 * for a post with pending mod appearances (an embed listing them and the components an operator
 * uses to act on them), and the bookkeeping that ties every appearance of the post to that
 * message (and to its review thread, when one is opened).
 */
module ModNotification {
  import opened Wrappers
  import opened Text
  import opened Db
  import EmbedBuilder

  /** Confidence from which an unlinked appearance is shown as similar to a known mod. */
  const SimilarFrom: real := 0.8

  /** Longest title prefix used in a thread name, and longest mod name in a large menu. */
  const NameCut: nat := 80

  /** Most options a select menu carries. */
  const MenuLimit: nat := 25

  /** The mod an appearance is linked to, as the `mod` relation loads it. */
  function LinkedMod(mods: map<Id, Mod>, a: Appearance): Option<Mod>
  {
    if a.modId.Some? && a.modId.value in mods then Some(mods[a.modId.value]) else None
  }

  /** A pending appearance with its id and linked mod, as the notification loads it. */
  datatype Pending = Pending(id: Id, appearance: Appearance, mod: Option<Mod>)

  /** The pending appearances of a post, oldest first, each with its linked mod. */
  function PendingList(apps: map<Id, Appearance>, mods: map<Id, Mod>, postId: string, n: nat): (r: seq<Pending>)
    ensures |r| == |Ascending(PendingOf(apps, postId), n)|
  {
    var ids := Ascending(PendingOf(apps, postId), n);
    seq(|ids|, i requires 0 <= i < |ids| => Pending(ids[i], apps[ids[i]], LinkedMod(mods, apps[ids[i]])))
  }

  /** Every pending appearance of the post below `n` is listed once, in increasing id order. */
  lemma PendingListMeaning(apps: map<Id, Appearance>, mods: map<Id, Mod>, postId: string, n: nat)
    ensures var r := PendingList(apps, mods, postId, n);
      (forall i :: 0 <= i < |r| ==>
        r[i].id in apps && r[i].appearance == apps[r[i].id] && r[i].appearance.postId == postId
        && r[i].appearance.needsReview && r[i].mod == LinkedMod(mods, apps[r[i].id]))
      && (forall i, j :: 0 <= i < j < |r| ==> r[i].id < r[j].id)
      && (forall k :: k in apps && apps[k].postId == postId && apps[k].needsReview && k < n ==>
            exists i :: 0 <= i < |r| && r[i].id == k)
  {
    var ids := Ascending(PendingOf(apps, postId), n);
    var r := PendingList(apps, mods, postId, n);
    AscendingMeaning(PendingOf(apps, postId), n);
    assert forall i :: 0 <= i < |r| ==> r[i].id == ids[i];
    forall k | k in apps && apps[k].postId == postId && apps[k].needsReview && k < n
      ensures exists i :: 0 <= i < |r| && r[i].id == k
    {
      assert k in ids;
      var i :| 0 <= i < |ids| && ids[i] == k;
      assert r[i].id == k;
    }
  }

  // ---------------------------------------------------------------------------------------
  // Status glyph and status text
  // ---------------------------------------------------------------------------------------

  /** getStatusEmoji: the glyph shown next to an appearance in the select menu. */
  function StatusEmoji(a: Appearance, mod: Option<Mod>): string
  {
    if a.verified then "✅"
    else if mod.Some? then (if mod.value.isUpToDate then "✅" else "⚠️")
    else if a.confidence >= SimilarFrom then "🔗"
    else "❓"
  }

  /**
   * The glyph's precedence: a verified appearance is ✅ whatever its mod; otherwise a linked mod
   * decides between ✅ and ⚠️; otherwise the confidence decides between 🔗 and ❓.
   */
  lemma StatusEmojiMeaning(a: Appearance, mod: Option<Mod>)
    ensures StatusEmoji(a, mod) == "✅" <==> a.verified || (mod.Some? && mod.value.isUpToDate)
    ensures StatusEmoji(a, mod) == "⚠️" <==> !a.verified && mod.Some? && !mod.value.isUpToDate
    ensures StatusEmoji(a, mod) == "🔗" <==> !a.verified && mod.None? && a.confidence >= SimilarFrom
    ensures StatusEmoji(a, mod) == "❓" <==> !a.verified && mod.None? && a.confidence < SimilarFrom
  {
    assert "✅" != "⚠️" && "✅" != "🔗" && "✅" != "❓";
    assert "⚠️" != "🔗" && "⚠️" != "❓" && "🔗" != "❓";
  }

  /** `Math.round(confidence * 100)`: the nearest whole percentage, halves rounded up. */
  function Percent(c: real): int
  {
    (c * 100.0 + 0.5).Floor
  }

  /** The percentage is within half a point of the exact one, and a confidence in [0, 1] gives 0 to 100. */
  lemma PercentMeaning(c: real)
    ensures c * 100.0 - 0.5 < Percent(c) as real <= c * 100.0 + 0.5
    ensures 0.0 <= c <= 1.0 ==> 0 <= Percent(c) <= 100
    ensures c == 1.0 ==> Percent(c) == 100
  {
  }

  /** How a whole number is written in a template string. */
  function IntText(i: int): string
  {
    if i < 0 then "-" + NatToString(-i) else NatToString(i)
  }

  /** The glyph that opens an appearance's status line: the linked mod's state, else the confidence. */
  function StatusGlyph(a: Appearance, mod: Option<Mod>): string
  {
    if mod.Some? then (if mod.value.isUpToDate then "✅" else "⚠️")
    else if a.confidence >= SimilarFrom then "🔗"
    else "❓"
  }

  /** The words after the glyph in an appearance's status line. */
  function StatusWords(a: Appearance, mod: Option<Mod>): string
  {
    var pct := IntText(Percent(a.confidence));
    if mod.Some? then
      if mod.value.isUpToDate then " Atualizado (" + pct + "%)"
      else " Precisa atualizar (sua versão: " + (if Truthy(mod.value.translatedVersion) then mod.value.translatedVersion.value else "N/A") + ")"
    else if a.confidence >= SimilarFrom then " Similar a outro mod (" + pct + "%)"
    else " Não identificado (" + pct + "%)"
  }

  /** The status line of an appearance in the embed. */
  function StatusText(a: Appearance, mod: Option<Mod>): string
  {
    StatusGlyph(a, mod) + StatusWords(a, mod)
  }

  /**
   * The embed's status line opens with the menu's glyph for every appearance not yet verified;
   * a verified appearance is ✅ in the menu whatever its status line says.
   */
  lemma StatusTextOpensWithGlyph(a: Appearance, mod: Option<Mod>)
    requires !a.verified
    ensures StatusEmoji(a, mod) <= StatusText(a, mod)
  {
    PrefixOf(StatusGlyph(a, mod), StatusWords(a, mod));
  }

  lemma PrefixOf(a: string, b: string)
    ensures a <= a + b
  {
    assert (a + b)[..|a|] == a;
  }

  /** The version shown after a mod's name in the embed. */
  function VersionSuffix(v: Option<string>): string
  {
    if Truthy(v) then " (v" + v.value + ")" else " (sem versão)"
  }

  /** The embed's entry for the appearance at position `i` (counted from 0). */
  function ModLine(i: nat, p: Pending): string
  {
    "\n" + IntText(i + 1) + ". **" + p.appearance.detectedName + "**" + VersionSuffix(p.appearance.detectedVersion)
    + "\n   └ " + StatusText(p.appearance, p.mod)
  }

  /** The entries of all pending appearances, numbered from 1. */
  function ModLines(pending: seq<Pending>): (r: seq<string>)
    ensures |r| == |pending|
  {
    seq(|pending|, i requires 0 <= i < |pending| => ModLine(i, pending[i]))
  }

  /** The value of the mods field. */
  function ModsDescription(pending: seq<Pending>): string
  {
    var text := Join(ModLines(pending), "\n");
    if text == "" then "Nenhum mod detectado" else text
  }

  /** A listed appearance always yields text, so the placeholder shows only for an empty list. */
  lemma ModsDescriptionMeaning(pending: seq<Pending>)
    ensures ModsDescription(pending) == "Nenhum mod detectado" <==> |pending| == 0
  {
    if |pending| > 0 {
      var lines := ModLines(pending);
      assert lines[0][0] == '\n';
      JoinHead(lines, "\n");
      assert Join(lines, "\n")[0] == '\n';
      assert "Nenhum mod detectado"[0] == 'N';
    }
  }

  /** A join of at least one part opens with the first part. */
  lemma JoinHead(parts: seq<string>, sep: string)
    requires |parts| >= 1
    ensures parts[0] <= Join(parts, sep)
  {
    if |parts| > 1 {
      PrefixOf(parts[0], sep + Join(parts[1..], sep));
      assert Join(parts, sep) == parts[0] + (sep + Join(parts[1..], sep));
    }
  }

  // ---------------------------------------------------------------------------------------
  // The main embed
  // ---------------------------------------------------------------------------------------

  /** The review embed. */
  datatype ReviewEmbed = ReviewEmbed(title: string, color: nat, url: string, timestamp: int, fields: seq<EmbedBuilder.Field>)

  const EmbedTitle: string := "📦 Post com Mods Detectados"
  const EmbedColor: nat := 0x5865f2
  const PostFieldName: string := "🔗 Post"
  const PublishedFieldName: string := "📅 Publicado"
  const AuthorFieldName: string := "👤 Autor"
  const ModsFieldName: string := "🎮 Mods Detectados"

  /** The link to the post, shown first. */
  function PostField(post: Post): EmbedBuilder.Field
  {
    EmbedBuilder.Field(PostFieldName, "[" + post.title + "](" + post.url + ")", false)
  }

  /** The relative publication time, in whole seconds rounded down. */
  function PublishedField(post: Post): EmbedBuilder.Field
  {
    EmbedBuilder.Field(PublishedFieldName, "<t:" + IntText(post.publishedAt / 1000) + ":R>", true)
  }

  /** The list of pending mods, shown last. */
  function ModsField(pending: seq<Pending>): EmbedBuilder.Field
  {
    EmbedBuilder.Field(ModsFieldName, ModsDescription(pending), false)
  }

  /**
   * buildMainEmbed as written: the author field is guarded by the post's `campaign` relation,
   * which posts do not have, so the guard never holds and the field is never added.
   */
  function MainEmbedAsWritten(post: Post, pending: seq<Pending>): ReviewEmbed
  {
    ReviewEmbed(EmbedTitle, EmbedColor, post.url, post.publishedAt, [PostField(post), PublishedField(post), ModsField(pending)])
  }

  /** Whatever the post's feed and author, the as-written embed never names the author. */
  lemma AuthorFieldNeverShown(post: Post, pending: seq<Pending>)
    ensures forall i :: 0 <= i < |MainEmbedAsWritten(post, pending).fields| ==>
      MainEmbedAsWritten(post, pending).fields[i].name != AuthorFieldName
  {
    var fs := MainEmbedAsWritten(post, pending).fields;
    assert PostFieldName[0] != AuthorFieldName[0];
    assert PublishedFieldName[0] != AuthorFieldName[0];
    assert ModsFieldName[0] != AuthorFieldName[0];
    assert fs[0].name[0] != AuthorFieldName[0];
    assert fs[1].name[0] != AuthorFieldName[0];
    assert fs[2].name[0] != AuthorFieldName[0];
  }

  /**
   * buildMainEmbed as intended: the author of the post's feed, which the same query loads, is
   * named between the publication time and the mods list.
   */
  function MainEmbed(post: Post, author: Option<Author>, pending: seq<Pending>): ReviewEmbed
  {
    var authorFields := if author.Some? then [EmbedBuilder.Field(AuthorFieldName, author.value.name, true)] else [];
    ReviewEmbed(EmbedTitle, EmbedColor, post.url, post.publishedAt,
      [PostField(post), PublishedField(post)] + authorFields + [ModsField(pending)])
  }

  /**
   * The corrected embed shows the author field exactly when the feed has an author, always
   * opens with the post link and ends with the mods list, and otherwise agrees with the embed
   * as written.
   */
  lemma MainEmbedMeaning(post: Post, author: Option<Author>, pending: seq<Pending>)
    ensures author.Some? ==> var e := MainEmbed(post, author, pending);
      exists i :: 0 <= i < |e.fields| && e.fields[i] == EmbedBuilder.Field(AuthorFieldName, author.value.name, true)
    ensures author.None? ==> var e := MainEmbed(post, author, pending);
      forall i :: 0 <= i < |e.fields| ==> e.fields[i].name != AuthorFieldName
    ensures var e := MainEmbed(post, author, pending);
      |e.fields| >= 3 && e.fields[0] == PostField(post) && e.fields[|e.fields| - 1] == ModsField(pending)
    ensures author.None? ==> MainEmbed(post, author, pending) == MainEmbedAsWritten(post, pending)
  {
    var e := MainEmbed(post, author, pending);
    if author.Some? {
      assert e.fields[2] == EmbedBuilder.Field(AuthorFieldName, author.value.name, true);
    } else {
      assert PostFieldName[0] != AuthorFieldName[0];
      assert PublishedFieldName[0] != AuthorFieldName[0];
      assert ModsFieldName[0] != AuthorFieldName[0];
      assert forall i :: 0 <= i < |e.fields| ==> e.fields[i].name[0] != AuthorFieldName[0];
    }
  }

  // ---------------------------------------------------------------------------------------
  // Components
  // ---------------------------------------------------------------------------------------

  datatype ButtonStyle = Primary | Secondary | Success | Danger

  datatype Button = Button(customId: string, caption: string, style: ButtonStyle, disabled: bool)

  datatype MenuOption = MenuOption(caption: string, description: string, value: string, emoji: Option<string>)

  /** An action row: a row of buttons, or a row holding one select menu. */
  datatype Row = Buttons(buttons: seq<Button>) | Menu(customId: string, placeholder: string, options: seq<MenuOption>)

  const ConfirmPrefix: string := "mod_confirm_"
  const LinkPrefix: string := "mod_link_"
  const CreatePrefix: string := "mod_create_"
  const IgnorePrefix: string := "mod_ignore_"
  const ConfirmAllId: string := "mod_confirm_all"
  const IgnoreAllId: string := "mod_ignore_all"
  const SelectMenuId: string := "mod_select_menu"

  /** The four action buttons for one appearance; confirming is disabled once it is verified. */
  function ActionButtons(id: Id, verified: bool): seq<Button>
  {
    [ Button(ConfirmPrefix + IdText(id), "✅ Confirmar", Success, verified),
      Button(LinkPrefix + IdText(id), "🔗 Vincular", Primary, false),
      Button(CreatePrefix + IdText(id), "➕ Criar Novo", Secondary, false),
      Button(IgnorePrefix + IdText(id), "❌ Ignorar", Danger, false) ]
  }

  /** The bulk buttons under a small menu. */
  const BulkButtons: seq<Button> :=
    [ Button(ConfirmAllId, "✅ Confirmar Todos", Success, false),
      Button(IgnoreAllId, "❌ Ignorar Todos", Danger, false) ]

  /** A menu option of a small list: numbered name, version, id and status glyph. */
  function SmallOption(i: nat, p: Pending): MenuOption
  {
    MenuOption(IntText(i + 1) + ". " + p.appearance.detectedName,
      if Truthy(p.appearance.detectedVersion) then "Versão " + p.appearance.detectedVersion.value else "Sem versão",
      IdText(p.id), Some(StatusEmoji(p.appearance, p.mod)))
  }

  /** A menu option of a large list: numbered name cut to 80 characters, bare version, id, no glyph. */
  function LargeOption(i: nat, p: Pending): MenuOption
  {
    MenuOption(IntText(i + 1) + ". " + Take(p.appearance.detectedName, NameCut),
      if Truthy(p.appearance.detectedVersion) then p.appearance.detectedVersion.value else "Sem versão",
      IdText(p.id), None)
  }

  /** buildComponents: one, up to five, or more pending appearances. */
  function Components(pending: seq<Pending>): seq<Row>
  {
    if |pending| == 1 then
      [Buttons(ActionButtons(pending[0].id, pending[0].appearance.verified))]
    else if |pending| <= 5 then
      [ Menu(SelectMenuId, "Selecione um mod para gerenciar",
          seq(|pending|, i requires 0 <= i < |pending| => SmallOption(i, pending[i]))),
        Buttons(BulkButtons) ]
    else
      var shown := pending[..if |pending| < MenuLimit then |pending| else MenuLimit];
      [ Menu(SelectMenuId, "Selecione um dos " + IntText(|pending|) + " mods",
          seq(|shown|, i requires 0 <= i < |shown| => LargeOption(i, shown[i]))) ]
  }

  /**
   * The three layouts. One appearance: a single row of confirm, link, create and ignore buttons
   * carrying its id, confirm disabled exactly when it is verified. Two to five: a menu with one
   * option per appearance, in order, whose value is the appearance's id, followed by the bulk
   * row. Six or more: a single menu over the first 25, names cut to 80 characters, no glyphs and
   * no bulk row.
   */
  lemma ComponentsLayout(pending: seq<Pending>)
    ensures |pending| == 1 ==>
      var rows := Components(pending);
      |rows| == 1 && rows[0].Buttons? && |rows[0].buttons| == 4
      && rows[0].buttons[0].customId == ConfirmPrefix + IdText(pending[0].id)
      && rows[0].buttons[1].customId == LinkPrefix + IdText(pending[0].id)
      && rows[0].buttons[2].customId == CreatePrefix + IdText(pending[0].id)
      && rows[0].buttons[3].customId == IgnorePrefix + IdText(pending[0].id)
      && (rows[0].buttons[0].disabled <==> pending[0].appearance.verified)
      && !rows[0].buttons[1].disabled && !rows[0].buttons[2].disabled && !rows[0].buttons[3].disabled
    ensures 2 <= |pending| <= 5 ==>
      var rows := Components(pending);
      |rows| == 2 && rows[0].Menu? && rows[0].customId == SelectMenuId && |rows[0].options| == |pending|
      && (forall i :: 0 <= i < |pending| ==>
            rows[0].options[i].value == IdText(pending[i].id)
            && rows[0].options[i].caption == IntText(i + 1) + ". " + pending[i].appearance.detectedName
            && rows[0].options[i].emoji == Some(StatusEmoji(pending[i].appearance, pending[i].mod)))
      && rows[1].Buttons? && |rows[1].buttons| == 2
      && rows[1].buttons[0].customId == ConfirmAllId && rows[1].buttons[1].customId == IgnoreAllId
    ensures |pending| >= 6 ==>
      var rows := Components(pending);
      |rows| == 1 && rows[0].Menu? && rows[0].customId == SelectMenuId
      && |rows[0].options| == (if |pending| < MenuLimit then |pending| else MenuLimit)
      && (forall i :: 0 <= i < |rows[0].options| ==>
            rows[0].options[i].value == IdText(pending[i].id)
            && rows[0].options[i].caption == IntText(i + 1) + ". " + Take(pending[i].appearance.detectedName, NameCut)
            && rows[0].options[i].emoji.None?)
  {
    if |pending| >= 6 {
      var shown := pending[..if |pending| < MenuLimit then |pending| else MenuLimit];
      var options := Components(pending)[0].options;
      assert |options| == |shown|;
      forall i | 0 <= i < |options|
        ensures options[i] == LargeOption(i, pending[i])
      {
        assert shown[i] == pending[i];
      }
    }
  }

  /** No menu has more than 25 options and every option's value reads back as its appearance's id. */
  lemma MenuOptionsNameIds(pending: seq<Pending>)
    ensures forall r :: r in Components(pending) && r.Menu? ==>
      |r.options| <= MenuLimit
      && forall o :: o in r.options ==> exists i :: 0 <= i < |pending| && ParseId(o.value) == Some(pending[i].id)
  {
    var rows := Components(pending);
    ComponentsLayout(pending);
    forall r | r in rows && r.Menu?
      ensures |r.options| <= MenuLimit
      ensures forall o :: o in r.options ==> exists i :: 0 <= i < |pending| && ParseId(o.value) == Some(pending[i].id)
    {
      forall o | o in r.options
        ensures exists i :: 0 <= i < |pending| && ParseId(o.value) == Some(pending[i].id)
      {
        var i :| 0 <= i < |r.options| && r.options[i] == o;
        assert o.value == IdText(pending[i].id);
        ParseIdMeaning(o.value, pending[i].id);
      }
    }
  }

  // ---------------------------------------------------------------------------------------
  // notifyModsDetected
  // ---------------------------------------------------------------------------------------

  /**
   * The review channel as the bot sees it: missing, not text-based or a direct message; a guild
   * text channel with the bot's three permissions there; or another guild text-based channel,
   * which may or may not host threads.
   */
  datatype ReviewChannel =
    | Unavailable
    | GuildText(canView: bool, canSend: bool, canEmbedLinks: bool)
    | OtherGuildChannel(hasThreads: bool)

  /** Whether the bot may post the review message in the channel. */
  predicate Permits(channel: ReviewChannel)
  {
    match channel
    case Unavailable => false
    case GuildText(view, send, embed) => view && send && embed
    case OtherGuildChannel(_) => true
  }

  /** Whether a review thread can be opened under a message of the channel. */
  predicate HasThreads(channel: ReviewChannel)
  {
    channel.GuildText? || (channel.OtherGuildChannel? && channel.hasThreads)
  }

  /** The message posted to the review channel. */
  datatype ReviewMessage = ReviewMessage(embed: ReviewEmbed, components: seq<Row>)

  /** The name of the review thread of a post. */
  function ThreadName(title: string): string
  {
    Take(title, NameCut) + " - Revisão"
  }

  /**
   * Every appearance of the post, pending or not, gets the message id and, when a thread was
   * opened, the thread id; appearances of other posts are untouched.
   */
  function Stamped(apps: map<Id, Appearance>, postId: string, messageId: string, threadId: Option<string>): (r: map<Id, Appearance>)
    ensures r.Keys == apps.Keys
  {
    map k | k in apps :: if apps[k].postId == postId
      then apps[k].(discordMessageId := Some(messageId), discordThreadId := if threadId.Some? then threadId else apps[k].discordThreadId)
      else apps[k]
  }

  /**
   * After stamping with a message id no appearance carried before, the appearances of that
   * message are exactly the appearances of the post, so every pending one is reachable from the
   * message; nothing but the two Discord ids changes.
   */
  lemma StampedMeaning(apps: map<Id, Appearance>, postId: string, messageId: string, threadId: Option<string>)
    requires forall k :: k in apps ==> apps[k].discordMessageId != Some(messageId)
    ensures var r := Stamped(apps, postId, messageId, threadId);
      (forall k :: k in r ==> (r[k].discordMessageId == Some(messageId) <==> apps[k].postId == postId))
      && PendingOf(apps, postId) <= (set k | k in r && r[k].discordMessageId == Some(messageId))
      && (forall k :: k in r ==>
            r[k].(discordMessageId := apps[k].discordMessageId, discordThreadId := apps[k].discordThreadId) == apps[k])
      && (forall k :: k in r && apps[k].postId == postId && threadId.Some? ==> r[k].discordThreadId == threadId)
  {
  }

  /** Whether a notification for the post is sent at all. */
  predicate Deliverable(reviewChannelId: Option<string>, posts: map<string, Post>, apps: map<Id, Appearance>,
                        postId: string, channel: ReviewChannel)
  {
    Truthy(reviewChannelId) && postId in posts && PendingOf(apps, postId) != {} && Permits(channel)
  }

  /** Whether at least two appearances of the post are pending. */
  predicate TwoPending(apps: map<Id, Appearance>, postId: string)
  {
    exists k1, k2 :: k1 in PendingOf(apps, postId) && k2 in PendingOf(apps, postId) && k1 != k2
  }

  /** What a notification attempt sends, which thread it opens, and the appearances afterwards. */
  datatype Notified = Notified(message: Option<ReviewMessage>, threadName: Option<string>, appearances: map<Id, Appearance>)

  /**
   * notifyModsDetected on the store's rows: nothing without a configured channel, a stored post
   * with pending appearances and a channel the bot may post in; otherwise the review message,
   * then the review thread when two or more appearances are pending and the channel has
   * threads, then the ids on every appearance of the post. A failed send or a failed thread is
   * caught before any id is written.
   */
  function Notify(reviewChannelId: Option<string>, posts: map<string, Post>, authors: map<Id, Author>, mods: map<Id, Mod>,
                  apps: map<Id, Appearance>, n: nat, postId: string, channel: ReviewChannel,
                  sendAnswer: Option<string>, threadAnswer: Option<string>): Notified
  {
    if !Deliverable(reviewChannelId, posts, apps, postId, channel) then Notified(None, None, apps)
    else
      var post := posts[postId];
      var pending := PendingList(apps, mods, postId, n);
      var message := Some(ReviewMessage(MainEmbed(post, FeedAuthorOf(authors, post.feedSourceId, n), pending), Components(pending)));
      if sendAnswer.None? then Notified(message, None, apps)
      else if |pending| >= 2 && HasThreads(channel) then
        Notified(message, Some(ThreadName(post.title)),
          if threadAnswer.None? then apps else Stamped(apps, postId, sendAnswer.value, threadAnswer))
      else Notified(message, None, Stamped(apps, postId, sendAnswer.value, None))
  }

  /** The listed pending appearances number two or more exactly when two distinct ones exist. */
  lemma PendingListTwo(apps: map<Id, Appearance>, mods: map<Id, Mod>, postId: string, n: nat)
    requires forall k :: k in apps ==> k < n
    ensures |PendingList(apps, mods, postId, n)| >= 2 <==> TwoPending(apps, postId)
  {
    var r := PendingList(apps, mods, postId, n);
    PendingListMeaning(apps, mods, postId, n);
    if |r| >= 2 {
      assert r[0].id in PendingOf(apps, postId) && r[1].id in PendingOf(apps, postId) && r[0].id != r[1].id;
    }
    if TwoPending(apps, postId) {
      var k1, k2 :| k1 in PendingOf(apps, postId) && k2 in PendingOf(apps, postId) && k1 != k2;
      var i1 :| 0 <= i1 < |r| && r[i1].id == k1;
      var i2 :| 0 <= i2 < |r| && r[i2].id == k2;
      assert i1 != i2;
    }
  }

  /**
   * The notification's rules: a message exactly when a channel is configured, the post is
   * stored, some appearance of it is pending and the bot may post (in a guild text channel it
   * needs all three permissions); a thread, named after the first 80 characters of the title,
   * exactly when the message went out, two or more appearances are pending and the channel has
   * threads; the store changes only after a successful send (and thread), and then every
   * appearance of the post, pending or not, carries the message id (and thread id) while other
   * posts' appearances stay as they were.
   */
  lemma NotifyMeaning(reviewChannelId: Option<string>, posts: map<string, Post>, authors: map<Id, Author>, mods: map<Id, Mod>,
                      apps: map<Id, Appearance>, n: nat, postId: string, channel: ReviewChannel,
                      sendAnswer: Option<string>, threadAnswer: Option<string>)
    requires forall k :: k in apps ==> k < n
    ensures var r := Notify(reviewChannelId, posts, authors, mods, apps, n, postId, channel, sendAnswer, threadAnswer);
      r.message.Some? <==> Truthy(reviewChannelId) && postId in posts && PendingOf(apps, postId) != {} && Permits(channel)
    ensures channel.GuildText? && !(channel.canView && channel.canSend && channel.canEmbedLinks) ==>
      Notify(reviewChannelId, posts, authors, mods, apps, n, postId, channel, sendAnswer, threadAnswer) == Notified(None, None, apps)
    ensures var r := Notify(reviewChannelId, posts, authors, mods, apps, n, postId, channel, sendAnswer, threadAnswer);
      (r.threadName.Some? <==> r.message.Some? && sendAnswer.Some? && TwoPending(apps, postId) && HasThreads(channel))
      && (r.threadName.Some? ==> postId in posts && r.threadName.value == Take(posts[postId].title, NameCut) + " - Revisão")
    ensures var r := Notify(reviewChannelId, posts, authors, mods, apps, n, postId, channel, sendAnswer, threadAnswer);
      r.appearances.Keys == apps.Keys
      && (r.appearances != apps ==> r.message.Some? && sendAnswer.Some? && (r.threadName.Some? ==> threadAnswer.Some?))
    ensures var r := Notify(reviewChannelId, posts, authors, mods, apps, n, postId, channel, sendAnswer, threadAnswer);
      r.message.Some? && sendAnswer.Some? && (r.threadName.Some? ==> threadAnswer.Some?) ==>
        forall k :: k in apps ==>
          if apps[k].postId == postId then
            r.appearances[k].discordMessageId == sendAnswer
            && r.appearances[k].discordThreadId == (if r.threadName.Some? then threadAnswer else apps[k].discordThreadId)
          else r.appearances[k] == apps[k]
  {
    PendingListTwo(apps, mods, postId, n);
  }

  /**
   * The appearances a notification attempt leaves, without building the message: every
   * appearance of the post is stamped once the message went out and, when a thread was due, the
   * thread was opened.
   */
  function NotifiedAppearances(reviewChannelId: Option<string>, posts: map<string, Post>, apps: map<Id, Appearance>, n: nat,
                               postId: string, channel: ReviewChannel, sendAnswer: Option<string>,
                               threadAnswer: Option<string>): map<Id, Appearance>
  {
    if !Deliverable(reviewChannelId, posts, apps, postId, channel) || sendAnswer.None? then apps
    else if |Ascending(PendingOf(apps, postId), n)| >= 2 && HasThreads(channel) then
      if threadAnswer.None? then apps else Stamped(apps, postId, sendAnswer.value, threadAnswer)
    else Stamped(apps, postId, sendAnswer.value, None)
  }

  /** The appearances a notification leaves do not depend on the message it builds. */
  lemma NotifyAppearances(reviewChannelId: Option<string>, posts: map<string, Post>, authors: map<Id, Author>, mods: map<Id, Mod>,
                          apps: map<Id, Appearance>, n: nat, postId: string, channel: ReviewChannel,
                          sendAnswer: Option<string>, threadAnswer: Option<string>)
    ensures Notify(reviewChannelId, posts, authors, mods, apps, n, postId, channel, sendAnswer, threadAnswer).appearances
      == NotifiedAppearances(reviewChannelId, posts, apps, n, postId, channel, sendAnswer, threadAnswer)
  {
  }

  /** A notification changes nothing but the Discord ids of the post's own appearances. */
  lemma NotifiedAppearancesKeepOthers(reviewChannelId: Option<string>, posts: map<string, Post>, apps: map<Id, Appearance>, n: nat,
                                      postId: string, channel: ReviewChannel, sendAnswer: Option<string>,
                                      threadAnswer: Option<string>)
    ensures var r := NotifiedAppearances(reviewChannelId, posts, apps, n, postId, channel, sendAnswer, threadAnswer);
      r.Keys == apps.Keys
      && (forall k :: k in apps ==> r[k].postId == apps[k].postId)
      && (forall k :: k in apps && apps[k].postId != postId ==> r[k] == apps[k])
  {
  }

  /** The author the notification names: the author linked to the post's feed, if any. */
  function FeedAuthorOf(authors: map<Id, Author>, sourceId: string, n: nat): Option<Author>
  {
    match FeedAuthor(authors, sourceId, n)
    case Some(k) => if k in authors then Some(authors[k]) else None
    case None => None
  }

  /** A post with pending appearances always has at least one listed, so the thread rule is about two or more of them. */
  lemma PendingListNonEmpty(apps: map<Id, Appearance>, mods: map<Id, Mod>, postId: string, n: nat)
    requires PendingOf(apps, postId) != {}
    requires forall k :: k in apps ==> k < n
    ensures |PendingList(apps, mods, postId, n)| >= 1
  {
    var k :| k in PendingOf(apps, postId);
    AscendingMeaning(PendingOf(apps, postId), n);
    assert k in Ascending(PendingOf(apps, postId), n);
  }

  /**
   * notifyModsDetected. The configured review channel id, the channel's answer, the id of the
   * sent message (None when sending failed) and the id of the opened thread (None when opening
   * or posting in it failed) are parameters. Returns the message it tried to send and the name
   * of the thread it tried to open; only appearance rows change.
   */
  method NotifyModsDetected(db: Store, postId: string, reviewChannelId: Option<string>, channel: ReviewChannel,
                            sendAnswer: Option<string>, threadAnswer: Option<string>)
    returns (message: Option<ReviewMessage>, threadName: Option<string>)
    requires db.Valid()
    modifies db
    ensures db.Valid()
    ensures unchanged(db`feeds, db`posts, db`authors, db`mods, db`aliases, db`history, db`snapshots, db`nextId)
    ensures Notified(message, threadName, db.appearances)
      == Notify(reviewChannelId, db.posts, db.authors, db.mods, old(db.appearances), db.nextId, postId, channel, sendAnswer, threadAnswer)
  {
    message, threadName := None, None;
    if !Truthy(reviewChannelId) {
      return;
    }
    if postId !in db.posts || PendingOf(db.appearances, postId) == {} {
      return;
    }
    if !Permits(channel) {
      return;
    }
    var post := db.posts[postId];
    var pending := PendingList(db.appearances, db.mods, postId, db.nextId);
    message := Some(ReviewMessage(MainEmbed(post, FeedAuthorOf(db.authors, post.feedSourceId, db.nextId), pending), Components(pending)));
    if sendAnswer.None? {
      return;
    }
    var threadId := None;
    if |pending| >= 2 && HasThreads(channel) {
      threadName := Some(ThreadName(post.title));
      if threadAnswer.None? {
        return;
      }
      threadId := threadAnswer;
    }
    db.appearances := Stamped(db.appearances, postId, sendAnswer.value, threadId);
  }
}
