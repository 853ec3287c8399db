# Alic3 mod monitoring, modelled in Dafny

This project models the core of Alic3, a Discord bot (NestJS, TypeScript) that watches the
Patreon pages and Google Sheets of game-mod translators and helps its operators keep a registry
of translated mods up to date. The model follows the bot's mod-monitoring pipeline from one end to the other:

- **Feeds and posts** (`PatreonPosts`, `Scheduler`, `Sheets`). Every ten minutes the scheduler
  walks the active feeds and checks the ones that are due. A Patreon feed stores the upstream
  posts of the last ten days that the store does not hold yet. A spreadsheet feed is read into
  mod rows and diffed against its newest snapshot.
- **Detection** (`ModDetection`, `Groq`, `Normalization`). Each new post passes a keyword gate.
  A chat-completion model then extracts the mods the post names, with a bounded retry and
  validation of the answer. Each extracted mod is matched against the author's registry: by
  exact slug or normalized name, then by alias, then by a fuzzy Levenshtein suggestion. The
  match leads to an appearance row with verification and review flags.
- **Review** (`ModNotification`, `ModInteraction`). The review channel gets a message listing
  the detected mods, with buttons and menus. The operator confirms, links, creates or ignores
  each appearance, one at a time or in bulk. Confirming, linking and creating each write one
  link-history row; ignoring writes none. These four single-item actions then refresh the
  message the pressed component belongs to. The bulk confirm and ignore write no history and
  refresh nothing, and as written no button reaches them.
- **Registry** (`ModManagement`, `PatreonController`, `Slugs`). The `!mod` chat command and the
  HTTP endpoints create authors and their feeds, delete an author with its feed and posts,
  create or import mods, record translated versions, add aliases and register spreadsheets.

The relational store behind all of this is the class `Db.Store`. It keeps one map per table,
history rows and snapshots as lists, and a counter for generated ids.

Smaller self-contained parts of the bot are modelled too:
- the campaign-id lookup from a Patreon URL (`FeedId`);
- the new-post notification (`PatreonNotification`);
- the embed builder of the admin panel (`EmbedBuilder`);
- the two Livepix payment services with their cached OAuth token (`Payments`);
- the Discord-to-Livepix link table (`LivepixLinks`);
- the dashboard's login sessions (`Sessions`);
- the MANAGE_GUILD test (`DiscordOAuth`);
- the guild channel list and message composer (`Guilds`);
- the ticket permission overwrites (`Permissions`);
- the start-up Node.js version check (`NodeVersion`).

`Wrappers` holds Option and Result. `Text` holds string helpers with JavaScript's meaning.

Anything from outside the bot becomes a parameter of the operation that uses it. This covers
the Patreon, Google, Groq, Livepix and Discord answers, `JSON.parse`, and the clock. Most
operations take one clock reading per call. The places where the source reads the clock more
than once in one call are listed under "Left out". A thrown error is an `Err` value. Times are
integer milliseconds. Generated ids are naturals.

## Model

| member | source | states |
|---|---|---|
| Db.ParseIdMeaning | src/patreon/mod-interaction.handler.ts:44-51 | a text carried in a button id names a row id exactly when it is that id's text, so ids written into buttons read back as themselves |
| Db.NewMod | src/bot/commands/mod-management.command.ts:175-183 | a newly created mod has its slug as normalized name, no versions yet, and is active and up to date |
| Db.InsertKeepsOrder | src/patreon/mod-detection.service.ts:237 | inserting a post before the first strictly older one keeps a list ordered newest first |
| Db.InsertKeepsDistinct | src/patreon/mod-detection.service.ts:237 | inserting a new id anywhere in a list of distinct ids adds exactly that id and keeps the list distinct |
| Db.NewestFirst | src/patreon/mod-detection.service.ts:237 | the given posts listed newest first by publication time, each exactly once |
| Db.Ascending | src/patreon/mod-interaction.handler.ts:345-353 | every listed id is one of the given keys and below the next id to hand out |
| Db.AscendingMeaning | src/patreon/mod-interaction.handler.ts:345-353 | the rows a query returns without an order come in creation order: every key below the next id exactly once, strictly increasing |
| Db.HeadOfAscending | src/patreon/mod-interaction.handler.ts:345-353 | the first row such a query finds is the oldest matching row, and there is none exactly when no row matches |
| Db.Store.NewId | src/bot/commands/mod-management.command.ts:87-95 | a created row gets an id no author, mod, alias or appearance uses yet; no table changes |
| DiscordOAuth.DigitRun | src/auth/discord-oauth.service.ts:121 | parseInt reads the longest prefix of digits of the radix: every character of the run is such a digit and the next character is not |
| DiscordOAuth.Int32Bits | src/auth/discord-oauth.service.ts:122 | the operand `&` works on is a 32-bit pattern, with NaN read as 0 |
| DiscordOAuth.AndPow2 | src/auth/discord-oauth.service.ts:122 | masking with a single bit keeps exactly that bit of the other operand |
| DiscordOAuth.HighIrrelevant | src/auth/discord-oauth.service.ts:122 | adding a multiple of a higher power of two leaves a bit unchanged, so the reduction to 32 bits keeps low bits |
| DiscordOAuth.Int32Bit5 | src/auth/discord-oauth.service.ts:122 | bit 5 (0x20) of a parsed number survives the reduction to 32 bits, negative numbers included |
| DiscordOAuth.CanManageGuildMeaning | src/auth/discord-oauth.service.ts:119-123 | an owner can always manage the guild; anybody else exactly when the permission string parses to a number whose bit 0x20 is set; a non-numeric string never grants it |
| DiscordOAuth.Bit5OfParts | src/auth/discord-oauth.service.ts:120-122 | in `64·high + 32·bit + low` bit 5 is exactly `bit`, whatever the other bits |
| DiscordOAuth.OtherBitsIrrelevant | src/auth/discord-oauth.service.ts:119-123 | for a non-owner with a decimal permission string, the answer depends on bit 0x20 alone |
| DiscordOAuth.DecimalPermissions | src/auth/discord-oauth.service.ts:119-123 | with a decimal permission string, a non-owner may manage the guild exactly when bit 5 of the number is set |
| DiscordOAuth.ParseIntOfDecimal | src/auth/discord-oauth.service.ts:121 | parseInt reads back the decimal text of any natural number |
| EmbedBuilder.ValidateEmbedData | src/admin/embed/embed-builder.service.ts:175-217 | the error list is the ordered list of failed checks, and the embed is reported valid exactly when every limit holds |
| EmbedBuilder.CollectFieldErrors | src/admin/embed/embed-builder.service.ts:195-202 | the loop over the fields collects each field's name and value errors, numbered from 1, in field order |
| EmbedBuilder.FieldErrorsSnoc | src/admin/embed/embed-builder.service.ts:195-202 | the errors of one more field follow those of the fields before it |
| EmbedBuilder.FieldErrorsConcat | src/admin/embed/embed-builder.service.ts:195-202 | the field errors come in field order: those of a prefix, then those of the rest, numbered on from the prefix |
| EmbedBuilder.FieldErrorsEmpty | src/admin/embed/embed-builder.service.ts:195-202 | there is no field error exactly when every field name is at most 256 and every value at most 1024 characters |
| EmbedBuilder.ValidIffWithinLimits | src/admin/embed/embed-builder.service.ts:178-216 | the embed is valid exactly when it has a title or a description and the title (256), description (4096), field count (25), field names (256), field values (1024), footer (2048) and author name (256) are within their limits |
| EmbedBuilder.NoTextFirst | src/admin/embed/embed-builder.service.ts:178-180 | an embed with neither title nor description is invalid, and that is its first error |
| EmbedBuilder.PretoIsBlue | src/admin/embed/embed-builder.service.ts:94-107 | as written, "preto" in any case comes out as the default blue 0x3498db rather than black |
| EmbedBuilder.AsWrittenAgreesElsewhere | src/admin/embed/embed-builder.service.ts:79-107 | the code as written and the intended parser differ only for "preto" |
| EmbedBuilder.ParseColorMeaning | src/admin/embed/embed-builder.service.ts:79-107 | a `#` text is kept as it is; a listed Portuguese name in any case gives its colour, "preto" black; six hex digits give their value, below 0x1000000; anything else the default blue |
| EmbedBuilder.HexValueBelow | src/admin/embed/embed-builder.service.ts:102-105 | n hex digits have a value below 16^n |
| EmbedBuilder.GetButtonStyle | src/admin/embed/embed-builder.service.ts:163-173 | the style is one of the five button styles, and an unknown name gives Primary |
| EmbedBuilder.BuildButtons | src/admin/embed/embed-builder.service.ts:129-161 | the loop that adds each button to the row, reading the clock once per button, returns the rows the specification gives for those readings |
| EmbedBuilder.ButtonRowsMeaning | src/admin/embed/embed-builder.service.ts:129-160 | no buttons give no rows; otherwise one row holds every button in order, a donation link with the fixed id `custom_donation_button`, a custom link with a URL as a link button to it, a custom action with the id `custom_action_` followed by the clock reading taken for that button, and no other button with a URL |
| FeedId.NonEmpty | src/patreon/helpers/fetch-feed-id.helper.ts:69 | the filtered pieces are all non-empty and no more than the pieces given |
| FeedId.NonEmptyConcat | src/patreon/helpers/fetch-feed-id.helper.ts:69 | filtering out empty pieces distributes over concatenation, keeping order |
| FeedId.NonEmptyMembers | src/patreon/helpers/fetch-feed-id.helper.ts:69 | a piece survives the filter exactly when it is non-empty |
| FeedId.SegmentsConcat | src/patreon/helpers/fetch-feed-id.helper.ts:69 | the segments on either side of a slash are those of the two sides, in order |
| FeedId.SlashesIgnored | src/patreon/helpers/fetch-feed-id.helper.ts:69 | repeated and trailing slashes do not change the path's segments |
| FeedId.SegmentsMeaning | src/patreon/helpers/fetch-feed-id.helper.ts:69 | the segments are exactly the non-empty pieces between slashes, and hold no slash |
| FeedId.ExtractUsernameMeaning | src/patreon/helpers/fetch-feed-id.helper.ts:60-88 | a username comes out exactly for a URL whose host contains "patreon.com" and whose path has a segment; it is "post" for `/posts/...`, the segment after `/c/`, else the first segment; never empty, no slash |
| FeedId.GetFeedIdFallback | src/patreon/helpers/fetch-feed-id.helper.ts:258-276 | without a username nothing is requested; otherwise the API is asked first and the page is requested, as the second and last request, exactly when the API gave no feed; a feed found has a non-empty id and name and keeps the URL asked for |
| FeedId.PageUrlMeaning | src/patreon/helpers/fetch-feed-id.helper.ts:100 | a post URL scrapes the URL itself; any other username scrapes https://www.patreon.com/ followed by the username |
| Groq.KnownModNamed | src/ai/groq.service.ts:94-96 | every known mod name occurs in the known-mods clause |
| Groq.KnownModsClauseMeaning | src/ai/groq.service.ts:94-96 | the clause is empty exactly when there are no known mods, and otherwise names each of them |
| Groq.ParseAndValidateResponse | src/ai/groq.service.ts:130-168 | the method accepts or rejects the reply exactly as validating the parsed, fence-stripped text says |
| Groq.CheckMods | src/ai/groq.service.ts:150-163 | the validation loop accepts exactly the mod lists ModsOfMeaning describes and fails with the first failing element's message |
| Groq.UnfencedOnlyTrimmed | src/ai/groq.service.ts:131-142 | a reply without fences is only trimmed |
| Groq.FencedBody | src/ai/groq.service.ts:131-142 | a reply fenced with ```json … ``` gives back its trimmed body |
| Groq.ModsOfMeaning | src/ai/groq.service.ts:150-163 | the mod list is accepted exactly when every element passes, keeping each element's mod in order; a rejection carries a failing element's error |
| Groq.ModOfMeaning | src/ai/groq.service.ts:151-162 | an element passes exactly when it has a non-empty string name, a null or string version and boolean isUpdate and isNewMod, and the mod carries those values |
| Groq.ValidateMeaning | src/ai/groq.service.ts:144-167 | a reply is accepted exactly when it parses with a mods array whose every element passes; the mods come back in order with confidence 0.8 when there are any and 0 otherwise |
| Groq.AnalyzePatreonPost | src/ai/groq.service.ts:39-91 | the first of at most three attempts that succeeds gives the result, after that many requests and waits of 2 s × attempt; when all three fail the result is empty with confidence 0 |
| Groq.FirstSuccessFound | src/ai/groq.service.ts:48-88 | the attempt found is within 1..3, succeeded, and every attempt before it failed |
| Groq.FirstSuccessNone | src/ai/groq.service.ts:48-88 | with no success every attempt up to the third failed |
| Groq.PromptContent | src/ai/groq.service.ts:44 | the prompt carries a prefix of the content of at most 2500 characters, all of it when shorter |
| Guilds.TextOnly | src/guilds/guilds.service.ts:45-46 | a channel is kept exactly when its slot is filled and it is a text channel (type 0) |
| Guilds.InsertByPosition | src/guilds/guilds.service.ts:54 | inserting a channel adds exactly that channel to the list |
| Guilds.SortByPosition | src/guilds/guilds.service.ts:54 | the sort is a permutation of its input |
| Guilds.AtPositionConcat | src/guilds/guilds.service.ts:54 | the channels at one position of a joined list are those of the first part, then those of the second |
| Guilds.InsertSorted | src/guilds/guilds.service.ts:54 | inserting into a list sorted by position keeps it sorted |
| Guilds.AppendSorted | src/guilds/guilds.service.ts:54 | appending a channel no lower than every other keeps the list sorted |
| Guilds.InsertStable | src/guilds/guilds.service.ts:54 | an inserted channel goes after every channel already at its position, and other positions keep their order |
| Guilds.SortSortedStable | src/guilds/guilds.service.ts:54 | the sort returns channels in ascending position, and channels sharing a position keep their input order |
| Guilds.GetGuildChannelsMeaning | src/guilds/guilds.service.ts:35-63 | the endpoint lists exactly the guild's text channels, each once, in ascending position, and channels sharing a position keep the order they were fetched in |
| Guilds.BuildButton | src/guilds/guilds.service.ts:88-104 | a falsy style becomes Secondary; a link button (style 5) gets no custom id, and a URL only when one was given; every other button gets a custom id |
| Guilds.RowButtons | src/guilds/guilds.service.ts:85-107 | one built button per requested button of the row |
| Guilds.BuildRow | src/guilds/guilds.service.ts:88-104 | the loop that adds each button to the row builds the row the specification gives |
| Guilds.SendMessage | src/guilds/guilds.service.ts:65-120 | a missing guild fails with "Guild not found", a missing or non-text channel with "Channel not found or not a text channel"; a message sent has no content exactly when the content was empty, and the embeds as given |
| Guilds.NoBraceInert | src/guilds/guilds.service.ts:79-83 | a text without `{` holds no placeholder, so replacing leaves it alone |
| Guilds.PlaceholderFacts | src/guilds/guilds.service.ts:81-82 | the two placeholders are distinct nine-character texts, and replacing the first leaves the second intact |
| Guilds.PlaceholdersFilled | src/guilds/guilds.service.ts:79-83 | every `{user_id}` and `{user.id}` in a label or URL becomes the user id and the text between them is unchanged |
| Guilds.CustomIdParts | src/guilds/guilds.service.ts:100 | a custom id reads back as "button", the row, the index and the clock reading |
| Guilds.DigitsWordsSplit | src/guilds/guilds.service.ts:100 | digit texts joined by `_` after "button" split back into those texts |
| Guilds.CustomIdsDistinct | src/guilds/guilds.service.ts:100 | two custom ids are equal only when row, index and clock reading are |
| Guilds.ComponentIdsUnique | src/guilds/guilds.service.ts:85-107 | within one request, no two interactive buttons share a custom id |
| LivepixLinks.Lookup | src/livepix/livepix-link.service.ts:68-70 | an entry is found exactly when one is stored under the id, and it is that id's entry |
| LivepixLinks.LinkRegistry.constructor | src/livepix/livepix-link.service.ts:14 | a new registry holds no links |
| LivepixLinks.LinkRegistry.LinkUser | src/livepix/livepix-link.service.ts:18-34 | the member's new link is stored under their id, replacing any earlier one in place; ids stay distinct |
| LivepixLinks.LinkRegistry.UnlinkUser | src/livepix/livepix-link.service.ts:36-42 | the answer says whether a link existed, and afterwards the member has none |
| LivepixLinks.LinkRegistry.FindDiscordIdByLivepixUsername | src/livepix/livepix-link.service.ts:44-54 | the first member, in insertion order, linked to the username in lower case, if any |
| LivepixLinks.LinkRegistry.FindDiscordIdByLivepixEmail | src/livepix/livepix-link.service.ts:56-66 | the first member, in insertion order, linked to the address in lower case, if any |
| LivepixLinks.LinkRegistry.FindFirst | src/livepix/livepix-link.service.ts:47-53 | the loop over the entries returns the id of the first entry whose key matches |
| LivepixLinks.LinkRegistry.GetUserLink | src/livepix/livepix-link.service.ts:68-70 | the link stored for the member, and none exactly when there is none |
| LivepixLinks.LinkRegistry.GetAllLinks | src/livepix/livepix-link.service.ts:72-74 | every stored link once, no id twice, and nothing that a lookup of its id would not give |
| LivepixLinks.NewLinkMeaning | src/livepix/livepix-link.service.ts:18-30 | a link holds the identifier in lower case, as the e-mail when it contains `@` and as the username otherwise, never both |
| LivepixLinks.LookupIndex | src/livepix/livepix-link.service.ts:68-70 | in a map without duplicate ids, looking up an entry's id gives that entry |
| LivepixLinks.LookupOfMember | src/livepix/livepix-link.service.ts:68-70 | every entry of a map without duplicate ids is what a lookup of its id gives |
| LivepixLinks.StoreMeaning | src/livepix/livepix-link.service.ts:32 | after `set` the id maps to the new link, every other id keeps its entry, no id appears twice, only a new id adds an entry, and an existing id keeps its position |
| LivepixLinks.StoreLookup | src/livepix/livepix-link.service.ts:32 | a lookup after `set` sees the new link under its id and the old entries elsewhere |
| LivepixLinks.StoreDistinct | src/livepix/livepix-link.service.ts:32 | `set` keeps the ids distinct |
| LivepixLinks.StorePlace | src/livepix/livepix-link.service.ts:32 | an existing id keeps its position in iteration order; only a new id lengthens the map |
| LivepixLinks.StoreIds | src/livepix/livepix-link.service.ts:32 | an entry after `set` is the new link or one that was there before |
| LivepixLinks.RemoveMeaning | src/livepix/livepix-link.service.ts:37 | after `delete` the id is gone, every other id keeps its entry, and the entries are exactly the old ones of other ids |
| LivepixLinks.FirstMatchMeaning | src/livepix/livepix-link.service.ts:47-53 | a finder answers the id of the first entry whose key matches, and nothing exactly when no entry matches |
| LivepixLinks.LinkedUsernameFound | src/livepix/livepix-link.service.ts:18-54 | after a member links a username, a username lookup in any case finds that member when nobody else holds it, and an e-mail lookup never finds them through that link |
| LivepixLinks.UnlinkedGone | src/livepix/livepix-link.service.ts:36-42 | after an unlink, looking the member up gives nothing and nobody else's link changed |
| ModDetection.CheckKeywordsMeaning | src/patreon/mod-detection.service.ts:138-143 | the gate opens exactly when one of the seven keywords occurs in the lower-cased "title content", and letter case does not matter |
| ModDetection.FirstWhere | src/patreon/mod-detection.service.ts:150-152 | a found position is in range and satisfies the test |
| ModDetection.FirstWhereMeaning | src/patreon/mod-detection.service.ts:150-160 | `find` finds nothing exactly when no element passes, and otherwise no earlier element passes |
| ModDetection.Scores | src/patreon/mod-detection.service.ts:168-172 | one similarity score per candidate |
| ModDetection.Best | src/patreon/mod-detection.service.ts:166-184 | a chosen position is in range |
| ModDetection.BestMeaning | src/patreon/mod-detection.service.ts:166-184 | the fuzzy loop picks nothing exactly when every score is below 0.80, and otherwise the first maximal score, which is at least 0.80 |
| ModDetection.MatchOfMeaning | src/patreon/mod-detection.service.ts:145-185 | an exact slug or normalized-name match gives the first such mod at 1.0; otherwise an alias match gives the first such mod at 0.95; otherwise no mod, and a suggestion exactly when some similarity reaches 0.80, namely the first best one with its score |
| ModDetection.FuzzyMatch | src/patreon/mod-detection.service.ts:166-184 | the loop returns the first best candidate at or above the threshold as a suggestion, or the empty match |
| ModDetection.FindModMatch | src/patreon/mod-detection.service.ts:145-185 | the method returns the match MatchOfMeaning characterises |
| ModDetection.CheckIfNeedsUpdateMeaning | src/patreon/mod-detection.service.ts:187-216 | no mod: no update; no translated version: update; otherwise an update when the new version is greater, none when smaller, and on equal versions exactly when the post is newer than the translation date |
| ModDetection.ActiveModIds | src/patreon/mod-detection.service.ts:46-48 | the candidate mods are stored mods |
| ModDetection.KnownNames | src/patreon/mod-detection.service.ts:55 | one known name per candidate |
| ModDetection.AppearanceFlags | src/patreon/mod-detection.service.ts:92-108 | verified iff confidence ≥ 0.95; pending iff below that or no mod; a matched mod is a candidate; confidence is 0 or at least 0.80; the row expires 15 minutes after now |
| ModDetection.Rows | src/patreon/mod-detection.service.ts:75-109 | one appearance row per detected mod |
| ModDetection.AddRowsMeaning | src/patreon/mod-detection.service.ts:92-111 | the rows are stored under consecutive fresh ids from the start id, and every other appearance is kept |
| ModDetection.AnalysisResultMeaning | src/patreon/mod-detection.service.ts:23-136 | the post is always marked analyzed; it needs review iff the gate opened with mods and either a write failed or some mod is new and not an update; rows exist iff the gate opened with mods and no write failed, one per mod |
| ModDetection.AnalyzePost | src/patreon/mod-detection.service.ts:23-136 | the extraction runs exactly when the keyword gate opens, whether or not the post is stored; for a post the store does not hold the writes fail with a not-found error and no table changes; otherwise the post and appearances become the analysis result's, new rows under fresh ids |
| ModDetection.BuildAppearance | src/patreon/mod-detection.service.ts:76-108 | the row built for one detected mod is its specified appearance |
| ModDetection.BuildRows | src/patreon/mod-detection.service.ts:75-109 | the loop builds the specified rows, in the order of the detected mods |
| ModDetection.InsertRows | src/patreon/mod-detection.service.ts:111 | the rows are stored under consecutive fresh ids and nothing else changes |
| ModDetection.GetPostsNeedingReview | src/patreon/mod-detection.service.ts:218-239 | at most the limit of analyzed pending posts, each once, newest first, each with its pending appearances; a pending post left out is no newer than any listed one and only when the limit is reached |
| ModInteraction.BulkButtonsShadowed | src/patreon/mod-interaction.handler.ts:41-57 | the confirm-all and ignore-all ids reach the single-item confirm and ignore handlers with the argument "all", which names no appearance |
| ModInteraction.ConfirmAllRoute | src/patreon/mod-interaction.handler.ts:44-45 | `mod_confirm_all` matches the confirm prefix, the first one tried, leaving "all" |
| ModInteraction.IgnoreAllRoute | src/patreon/mod-interaction.handler.ts:44-51 | `mod_ignore_all` matches none of the first three prefixes and then the ignore prefix |
| ModInteraction.BulkHandlersUnreachable | src/patreon/mod-interaction.handler.ts:41-57 | no custom id routes to the confirm-all or ignore-all handler |
| ModInteraction.RouteButtonIntendedMeaning | src/patreon/mod-interaction.handler.ts:41-57 | with the bulk ids compared before the prefixes, as intended, a press reaches the confirm-all handler exactly for `mod_confirm_all` and the ignore-all handler exactly for `mod_ignore_all`, and every other id is routed as the code routes it |
| ModInteraction.ActionButtonsRoute | src/patreon/mod-notification.service.ts:209-229 | the four buttons of one appearance route to confirm, link, create and ignore with that appearance's id, which parses back to it |
| ModInteraction.ModalRoundTrip | src/patreon/mod-interaction.handler.ts:338-342 | a modal opened with an argument routes back to the link or create branch with that same argument |
| ModInteraction.SelectMenuChoice | src/patreon/mod-interaction.handler.ts:59-107 | choosing a stored appearance in the menu offers its four action buttons |
| ModInteraction.MenuValues | src/patreon/mod-notification.service.ts:232-245 | with two or more pending appearances the first row is the select menu and option i carries appearance i's id |
| ModInteraction.SelectMenuRoundTrip | src/patreon/mod-interaction.handler.ts:59-107 | an option of the review menu leads to four buttons that route back to the handlers with the same appearance's id |
| ModInteraction.FieldNamed | src/patreon/mod-interaction.handler.ts:287 | the position found holds a field with the name, and when none is found no field has it |
| ModInteraction.AfterActionOverwritesPostLink | src/patreon/mod-interaction.handler.ts:254-297 | applied to a review message as posted that still has appearances remaining, the refresh as written would write the remaining list over the post-link field and leave the stale list in the mods field; the handlers never refresh such a message, but the intended refresh does, which is why it writes the mods field instead |
| ModInteraction.AfterActionMeaning | src/patreon/mod-interaction.handler.ts:254-297 | the edit the intended refresh makes clears the message when nothing remains, and otherwise keeps the post link, the other fields and the components and puts the remaining list in the mods field |
| ModInteraction.PrivateReplyCleared | src/patreon/mod-interaction.handler.ts:254-272 | as written, the refresh of a message no appearance carries, such as the private reply of the select menu, finds nothing remaining and clears that message |
| ModInteraction.ReviewStillPending | src/patreon/mod-interaction.handler.ts:111-128 | confirming one appearance leaves every other pending appearance of its review message pending |
| ModInteraction.RefreshedIntendedMeaning | src/patreon/mod-interaction.handler.ts:254-297 | the intended refresh edits the review message stamped on the acted-on appearance: cleared when none of its appearances is pending, and otherwise its post link kept and its mods field listing exactly its pending appearances |
| ModInteraction.ConfirmMeaning | src/patreon/mod-interaction.handler.ts:111-160 | a linked appearance is verified and settled, one confirmation naming mod, appearance, user and version is logged, and the mod changes exactly when the detected version is promoted; without a linked mod nothing changes |
| ModInteraction.ConfirmNotIdempotent | src/patreon/mod-interaction.handler.ts:111-160 | confirming the same appearance twice logs two identical confirmations |
| ModInteraction.IgnoreMeaning | src/patreon/mod-interaction.handler.ts:235-252 | ignoring settles only the named appearance as not verified and never touches the mods or the history; an unknown argument changes nothing |
| ModInteraction.FindMod | src/patreon/mod-interaction.handler.ts:345-353 | a found mod is stored and older than the next id |
| ModInteraction.FindModMeaning | src/patreon/mod-interaction.handler.ts:345-353 | the lookup finds a mod whose id, slug or name (case-insensitively contained) matches, with no older match; none exactly when no mod matches |
| ModInteraction.LinkMeaning | src/patreon/mod-interaction.handler.ts:341-382 | a link goes to the oldest mod of any author that answers to the identifier, changes only that appearance and logs one link; with no such mod nothing changes |
| ModInteraction.CreateMeaning | src/patreon/mod-interaction.handler.ts:384-437 | a creation adds exactly one mod under a fresh id and the post's feed's author, with the typed name's slug and the appearance's version, links the appearance to it and logs one creation; otherwise nothing changes |
| ModInteraction.ConfirmedAll | src/patreon/mod-interaction.handler.ts:299-322 | confirming all keeps the set of appearances |
| ModInteraction.ConfirmedAllMeaning | src/patreon/mod-interaction.handler.ts:299-322 | after confirming all, no linked appearance of the message is pending and no other appearance changed |
| ModInteraction.ConfirmPending | src/patreon/mod-interaction.handler.ts:307-316 | the loop settles exactly the pending linked appearances of the message and counts them |
| ModInteraction.HandleConfirmAll | src/patreon/mod-interaction.handler.ts:299-322 | on the store only the appearances change, as confirming all says, and the reply counts the confirmed ones |
| ModInteraction.IgnoredAll | src/patreon/mod-interaction.handler.ts:324-336 | ignoring all keeps the set of appearances |
| ModInteraction.IgnoredAllMeaning | src/patreon/mod-interaction.handler.ts:324-336 | nothing of the message stays pending, every verification flag is kept and other messages' appearances are untouched |
| ModInteraction.HandleIgnoreAll | src/patreon/mod-interaction.handler.ts:324-336 | on the store only the appearances change, as ignoring all says, with the fixed reply |
| ModInteraction.Apply | src/patreon/mod-interaction.handler.ts:125-150 | writes a handler's outcome to the store, leaving feeds, posts, authors, aliases and snapshots alone |
| ModInteraction.HandleConfirm | src/patreon/mod-interaction.handler.ts:111-160 | the store afterwards is the outcome of the confirm handler; the reply is its reply, and the message the button was on is refreshed as the code refreshes it, only when the confirm succeeded |
| ModInteraction.HandleIgnore | src/patreon/mod-interaction.handler.ts:235-252 | the store afterwards is the outcome of the ignore handler; the message the button was on is refreshed as the code refreshes it |
| ModInteraction.HandleLinkModal | src/patreon/mod-interaction.handler.ts:341-382 | the store afterwards is the outcome of the link modal; the message the modal came from is refreshed as the code refreshes it, only after a link |
| ModInteraction.HandleCreateModal | src/patreon/mod-interaction.handler.ts:384-437 | the store afterwards is the outcome of the create modal; the message the modal came from is refreshed as the code refreshes it, only after a creation |
| ModInteraction.LinkPromptMeaning | src/patreon/mod-interaction.handler.ts:162-208 | the link modal opens exactly when the appearance exists and its post's author has an active mod, and carries the appearance's id |
| ModInteraction.LinkPromptRoundTrip | src/patreon/mod-interaction.handler.ts:192-194 | the modal a link prompt opens routes back to the link modal handler with the same argument |
| ModManagement.ParseHelpDefault | src/bot/commands/mod-management.command.ts:13-46 | the help card answers exactly when there is no first word or it is no known sub-command |
| ModManagement.ParseCaseInsensitive | src/bot/commands/mod-management.command.ts:14 | the sub-command is matched regardless of letter case |
| ModManagement.AuthorArgsMeaning | src/bot/commands/mod-management.command.ts:76-83 | no words is the usage error; a last word containing "patreon.com" is the Patreon URL and the words before it the name, otherwise every word is the name |
| ModManagement.AddAuthorMeaning | src/bot/commands/mod-management.command.ts:76-96 | `author add` adds exactly one author under a fresh id, with the parsed name, its slug and the URL, and changes nothing else |
| ModManagement.LinkAuthorMeaning | src/bot/commands/mod-management.command.ts:124-160 | `author link` changes only the named author's feed, to a stored feed, after which the feed's lookup finds that author or an older one; otherwise nothing changes |
| ModManagement.ModArgsRoundTrip | src/bot/commands/mod-management.command.ts:162-170 | the author id, the middle words joined by spaces and the last word are read back as author, name and URL |
| ModManagement.AddModMeaning | src/bot/commands/mod-management.command.ts:162-189 | `add` creates a mod exactly when there are three words and the author exists: one new mod under a fresh id, named by the middle words, slugged, with the URL |
| ModManagement.SlugSegmentOfPath | src/bot/commands/mod-management.command.ts:228-229 | the slug segment of a URL is its last path segment |
| ModManagement.SlugSegmentOfTrailingSlash | src/bot/commands/mod-management.command.ts:228-229 | with a trailing slash the segment before it is taken |
| ModManagement.CapitalizeMeaning | src/bot/commands/mod-management.command.ts:231-234 | capitalising keeps the length and the letters up to case, upper-cases the first and keeps the rest |
| ModManagement.ImportedNameWords | src/bot/commands/mod-management.command.ts:231-234 | the imported name has one word per hyphen-separated piece, each capitalised |
| ModManagement.ImportedSlugShape | src/bot/commands/mod-management.command.ts:236 | the imported slug keeps only `[\w-]` characters and is stable under the same rule |
| ModManagement.Existing | src/bot/commands/mod-management.command.ts:238-245 | a found mod has the URL or the slug |
| ModManagement.ExistingNoneMeaning | src/bot/commands/mod-management.command.ts:238-245 | no mod is found exactly when no mod has the URL or the slug |
| ModManagement.ImportMeaning | src/bot/commands/mod-management.command.ts:191-264 | an import that passes the checks adds exactly one new mod named and slugged from the URL; a failing one changes nothing |
| ModManagement.ImportIdempotent | src/bot/commands/mod-management.command.ts:238-247 | importing the same URL again finds the existing mod and changes nothing |
| ModManagement.StripVersionPrefixMeaning | src/bot/commands/mod-management.command.ts:290 | `replace(/^v/i, '')` removes exactly one leading v or V and keeps a version without one |
| ModManagement.UpdateMeaning | src/bot/commands/mod-management.command.ts:266-306 | with a mod answering to the identifier, the oldest such mod alone gets the stripped version as translated version, the date and the up-to-date flag; otherwise nothing changes |
| ModManagement.AddAliasMeaning | src/bot/commands/mod-management.command.ts:308-331 | an alias is added exactly when two words are given and the mod exists: one new alias with the joined words and their slug; otherwise nothing changes |
| ModManagement.AddAuthorKeepsFit | src/bot/commands/mod-management.command.ts:76-96 | `author add` keeps the registry consistent and the feeds, and gives no id back |
| ModManagement.LinkAuthorKeepsFit | src/bot/commands/mod-management.command.ts:124-160 | `author link` keeps the registry consistent |
| ModManagement.AddModKeepsFit | src/bot/commands/mod-management.command.ts:162-189 | `add` keeps the registry consistent |
| ModManagement.ImportKeepsFit | src/bot/commands/mod-management.command.ts:191-264 | `import` keeps the registry consistent |
| ModManagement.UpdateKeepsFit | src/bot/commands/mod-management.command.ts:266-306 | `update` keeps the registry consistent |
| ModManagement.AddAliasKeepsFit | src/bot/commands/mod-management.command.ts:308-331 | `alias add` keeps the registry consistent |
| ModManagement.RunKeepsFit | src/bot/commands/mod-management.command.ts:13-46 | every command other than `review` keeps the registry consistent |
| ModManagement.ShowPending | src/bot/commands/mod-management.command.ts:446-472 | `review` says there is nothing exactly when no post is pending; otherwise it counts up to ten and shows the five newest pending posts with their pending appearances |
| ModManagement.ReviewReplyMeaning | src/bot/commands/mod-management.command.ts:446-472 | for a fetch of the newest pending posts, the answer is the fixed text exactly when none is pending, and otherwise shows the five newest |
| ModManagement.NoneFetchedIffNonePending | src/bot/commands/mod-management.command.ts:447-452 | the fetch comes back empty exactly when no post is pending |
| ModManagement.FirstFiveListed | src/bot/commands/mod-management.command.ts:459 | the shown posts are pending posts with their pending appearances |
| ModManagement.FirstFive | src/bot/commands/mod-management.command.ts:459 | `slice(0, 5)` keeps the first five items, or all when fewer |
| ModManagement.FirstFiveNewest | src/bot/commands/mod-management.command.ts:459 | a pending post left out is no newer than any shown one, and five are shown |
| ModManagement.HandleModCommand | src/bot/commands/mod-management.command.ts:13-46 | `review` changes nothing; every other command leaves the registry as the command says and the posts, appearances, history and snapshots alone |
| ModManagement.Apply | src/bot/commands/mod-management.command.ts:87-93 | writes a consistent registry to the store and leaves the rest alone |
| ModNotification.PendingList | src/patreon/mod-notification.service.ts:42-61 | one entry per pending appearance of the post below the next id |
| ModNotification.PendingListMeaning | src/patreon/mod-notification.service.ts:42-61 | the list holds exactly the post's appearances still marked for review, oldest first, each with its stored row and linked mod |
| ModNotification.StatusEmojiMeaning | src/patreon/mod-notification.service.ts:279-285 | ✅ for verified or up-to-date, ⚠️ for a linked outdated mod, 🔗 or ❓ by the 0.8 confidence threshold when unlinked; each case if and only if |
| ModNotification.PercentMeaning | src/patreon/mod-notification.service.ts:177 | `Math.round(c * 100)` is within half a unit of c·100, lies in 0..100 for a confidence in [0, 1] and is 100 at 1.0 |
| ModNotification.StatusTextOpensWithGlyph | src/patreon/mod-notification.service.ts:179-191 | for an unverified appearance the status line opens with the same glyph the status emoji gives |
| ModNotification.ModLines | src/patreon/mod-notification.service.ts:171-194 | one description line per pending appearance |
| ModNotification.ModsDescriptionMeaning | src/patreon/mod-notification.service.ts:171-200 | the mods field reads "Nenhum mod detectado" exactly when no appearance is pending |
| ModNotification.AuthorFieldNeverShown | src/patreon/mod-notification.service.ts:144-204 | as written, the embed never carries an author field, since posts have no campaign |
| ModNotification.MainEmbedMeaning | src/patreon/mod-notification.service.ts:144-204 | the corrected embed shows the feed author's name exactly when there is one, opens with the post link and ends with the mods field; without an author it equals the embed as written |
| ModNotification.ComponentsLayout | src/patreon/mod-notification.service.ts:206-277 | one appearance gets four buttons routed by its id (confirm disabled iff verified); two to five get a menu of all plus the two bulk buttons; more get a menu of the first 25 with names cut to 80 characters |
| ModNotification.MenuOptionsNameIds | src/patreon/mod-notification.service.ts:232-274 | no menu has more than 25 options and every option's value reads back as a pending appearance's id |
| ModNotification.Stamped | src/patreon/mod-notification.service.ts:109-127 | stamping keeps the set of appearances |
| ModNotification.StampedMeaning | src/patreon/mod-notification.service.ts:109-127 | exactly the post's appearances get the message id, and the thread id when there is a thread; nothing else of any appearance changes |
| ModNotification.PendingListTwo | src/patreon/mod-notification.service.ts:98 | the list has two or more entries exactly when two appearances of the post are pending |
| ModNotification.NotifyMeaning | src/patreon/mod-notification.service.ts:35-142 | a message is sent exactly when the channel id is set, the post exists with a pending appearance and the channel permits it; a thread is opened exactly for two or more pending with threads available, named by the title's first 80 characters; the stamps follow the sent message and thread only |
| ModNotification.PendingListNonEmpty | src/patreon/mod-notification.service.ts:63-65 | a post with a pending appearance has a non-empty list |
| ModNotification.NotifyModsDetected | src/patreon/mod-notification.service.ts:35-142 | on the store only the appearances change, and the message, thread name and appearances are those the notification outcome gives |
| ModNotification.NotifyAppearances | src/patreon/mod-notification.service.ts:35-142 | the appearances after a notification are those the delivery gives: unchanged when nothing is sent or the thread cannot be opened for a multi-appearance message, otherwise the post's appearances stamped with the message id and the thread id if any |
| ModNotification.NotifiedAppearancesKeepOthers | src/patreon/mod-notification.service.ts:109-127 | a notification keeps the set of appearance ids and each appearance's post, and changes no appearance of another post |
| NodeVersion.NumbersOf | scripts/check-node-version.js:5-6 | one entry per piece; an entry is a number exactly when the trimmed piece is all digits, and a piece of digits reads as its decimal value |
| NodeVersion.CompareFromMeaning | scripts/check-node-version.js:4-13 | the result is 1, -1 or 0: 1 or -1 at the first required position where the current segment is strictly greater or smaller, 0 when there is none; missing and non-numeric segments decide nothing |
| NodeVersion.IgnoresExtraSegments | scripts/check-node-version.js:8 | current segments beyond the required length do not affect the result |
| NodeVersion.RequiredParts | scripts/check-node-version.js:2 | the required version "24.0.0" reads as the numbers 24, 0, 0 |
| NodeVersion.PartsOfDigits | scripts/check-node-version.js:5 | three digit strings joined by dots read as their three decimal values |
| NodeVersion.PartsOfThree | scripts/check-node-version.js:5 | three digit strings joined by dots read as the Number() of each |
| NodeVersion.ExitMeaning | scripts/check-node-version.js:15-20 | the script exits with status 1 exactly when, at the first of the three required positions where the running version is comparable and different, it is smaller |
| Normalization.KeepChars | src/utils/normalization.util.ts:6 | `replace(/[^\w\s-]/g, '')`: the result is no longer than the input and every character left is in the kept class |
| Normalization.DropRun | src/utils/normalization.util.ts:7-9 | the leading run of a class is a prefix removed from the input; what follows starts outside the class |
| Normalization.CollapseKeeps | src/utils/normalization.util.ts:7-9 | a collapsed string holds only the replacement character and characters outside the collapsed class |
| Normalization.CollapseSeparates | src/utils/normalization.util.ts:7-9 | after `replace(/X+/g, r)` with `r` in the class, no character of the class follows `r` |
| Normalization.CollapseAbsent | src/utils/normalization.util.ts:7-9 | collapsing a class absent from the text changes nothing |
| Normalization.CollapseUnderscoresIdle | src/utils/normalization.util.ts:9 | collapsing `_+` leaves a string without `__` unchanged |
| Normalization.NormalizeModNameShape | src/utils/normalization.util.ts:2-10 | a normalized mod name uses only `[a-z0-9_]` and never holds two underscores in a row |
| Normalization.NormalizeModNameIdempotent | src/utils/normalization.util.ts:2-10 | normalizing a normalized name returns it unchanged |
| Normalization.CanonicalIsStable | src/utils/normalization.util.ts:2-10 | any `[a-z0-9_]` text without `__` is a fixed point of normalizeModName |
| Normalization.SplitWords | src/utils/normalization.util.ts:14 | `split(/\s+/)` yields at least one word and no word contains whitespace |
| Normalization.FilterStopWords | src/utils/normalization.util.ts:15 | the kept words are words of the input and none is a stop word |
| Normalization.RemoveStopWordsWords | src/utils/normalization.util.ts:12-18 | read back on single spaces, the result is the non-stop words when at least three remain and every word otherwise |
| Normalization.MapDigits | src/utils/normalization.util.ts:33 | each segment keeps exactly its digits, position for position |
| Normalization.NonEmpty | src/utils/normalization.util.ts:33 | `filter(p => p)` keeps only non-empty segments of the input |
| Normalization.VersionSegments | src/utils/normalization.util.ts:26-33 | every segment of the cleaned version is a non-empty string of digits |
| Normalization.NormalizeVersion | src/utils/normalization.util.ts:20-40 | the method returns the normalized version text: the date fallback, or the first three segments padded with "0" |
| Normalization.PadWithZeros | src/utils/normalization.util.ts:35-37 | the padding loop keeps the segments as a prefix, yields at least three, and position k < 3 holds the segment or "0" |
| Normalization.DateFallback | src/utils/normalization.util.ts:21-24 | a null or empty version becomes `DD.MM.YYYY` whose digit groups read back as the day, month and year |
| Normalization.ThreeSegments | src/utils/normalization.util.ts:26-39 | a non-empty version becomes exactly three non-empty digit segments joined by dots |
| Normalization.NormalizeVersionIdempotent | src/utils/normalization.util.ts:20-40 | a normalized version normalizes to itself |
| Normalization.CanonicalVersionFixed | src/utils/normalization.util.ts:20-40 | `a.b.c` with non-empty digit segments is already normalized |
| Normalization.DigitsAndDots | src/utils/normalization.util.ts:26-31 | text of digits and dots survives the `^v`, `version`, `update` removal and trim unchanged |
| Normalization.VersionNumbers | src/utils/normalization.util.ts:43-48 | a version is read as exactly three numbers |
| Normalization.CompareFromMeaning | src/utils/normalization.util.ts:46-54 | the loop returns 0 exactly on equal triples, else the signed difference at the first differing position; swapping negates it |
| Normalization.CompareVersionsMeaning | src/utils/normalization.util.ts:42-55 | compareVersions is 0 exactly when the first three numbers agree, else their difference at the first mismatch; antisymmetric and reflexive |
| Normalization.LevenshteinDistance | src/utils/normalization.util.ts:69-95 | the matrix-filling method returns the edit distance of its two arguments |
| Normalization.FillRow | src/utils/normalization.util.ts:81-91 | the inner loop fills row i with the edit distances of the prefixes and leaves later rows alone |
| Normalization.FillCell | src/utils/normalization.util.ts:82-90 | one cell takes the diagonal on equal characters, else one more than the cheapest neighbour; no other cell changes |
| Normalization.DistSelf | src/utils/normalization.util.ts:69-95 | a string is at distance 0 from itself |
| Normalization.DistSymmetric | src/utils/normalization.util.ts:69-95 | the distance does not depend on which string indexes the rows |
| Normalization.DistAtLeast | src/utils/normalization.util.ts:69-95 | the distance is at least the difference of the prefix lengths |
| Normalization.DistAtMost | src/utils/normalization.util.ts:69-95 | the distance is at most the larger prefix length |
| Normalization.DistZero | src/utils/normalization.util.ts:69-95 | distance 0 only between equal prefixes |
| Normalization.LevenshteinProperties | src/utils/normalization.util.ts:69-95 | distance 0 to itself, the other length against "", bounded by length difference and larger length, symmetric |
| Normalization.SimilarityProperties | src/utils/normalization.util.ts:57-67 | calculateSimilarity lies in [0, 1], is 1 for identical strings and ignores argument order |
| Normalization.SimilarityInUnit | src/utils/normalization.util.ts:57-67 | the similarity ratio lies in [0, 1] |
| Normalization.SimilaritySelf | src/utils/normalization.util.ts:57-67 | a string is fully similar to itself, the empty pair included |
| Normalization.SimilaritySymmetric | src/utils/normalization.util.ts:57-67 | the similarity ignores argument order |
| Normalization.SimilarityOneIff | src/utils/normalization.util.ts:57-67 | the similarity is exactly 1.0 for equal strings and for no others |
| PatreonController.ManualIdPrecedence | src/patreon/patreon.controller.ts:196-210 | a manual campaign id takes precedence: whatever the Patreon lookup would answer, the outcome is the same, and with a channel the author is linked to that id |
| PatreonController.CreateAuthorMeaning | src/patreon/patreon.controller.ts:181-256 | the author is created under a fresh id with its name's slug and URL; a feed is created exactly when there is a campaign and a channel and no feed has that source id; the author is linked whenever there is a campaign and a channel, whether or not the feed was new; existing feeds never change |
| PatreonController.FeedFetchFailedMeaning | src/patreon/patreon.controller.ts:248-254 | the fetch-failed flag is raised exactly when a Patreon link was given and no feed got linked: no channel, or no manual id and a lookup that found nothing |
| PatreonController.DeleteAuthorMeaning | src/patreon/patreon.controller.ts:258-289 | an unknown author fails with nothing changed; otherwise the linked feed's posts and then the feed are deleted, every other post stays, and the author goes with exactly its mods, whose number is returned; a linked feed already gone fails after the posts were deleted, leaving the author |
| PatreonController.CreateModMeaning | src/patreon/patreon.controller.ts:311-331 | a created mod has a fresh id, the given author, name and link, and its name's slug as slug and normalized name; an unknown author fails it and changes nothing |
| PatreonController.ImportModAgreesWithCommand | src/patreon/patreon.controller.ts:333-372 | the import endpoint accepts exactly the imports the chat command accepts (a CurseForge link, no mod with the same link or slug) and leaves the same registry, touching no other table |
| PatreonController.UpdateModMeaning | src/patreon/patreon.controller.ts:374-387 | an update changes at most the two version fields of the named mod, each only when a non-empty value is given, and then to that value; an unknown mod fails with nothing changed |
| PatreonController.UpdateModIdempotent | src/patreon/patreon.controller.ts:380-386 | repeating an update changes nothing more |
| PatreonController.AddModAliasMeaning | src/patreon/patreon.controller.ts:389-406 | an alias is added under a fresh id exactly when the mod exists, with the given name and a normal form that is its own slug; otherwise nothing changes |
| PatreonController.ClearReviewMeaning | src/patreon/patreon.controller.ts:443-457 | confirming or ignoring clears only the appearance's review flag, keeping its verification and mod; it leaves the post's pending list; doing it twice is doing it once; an unknown one fails with nothing changed |
| PatreonController.RegisterMeaning | src/patreon/patreon.controller.ts:459-525 | a failed registration changes nothing; a successful one names a spreadsheet not yet registered and an existing author, adds its feed (spreadsheet, every 180 minutes, active, the author's name, the link, the channel), appends one snapshot of that feed, links the author and touches nothing else |
| PatreonController.RegisterThenCheck | src/patreon/patreon.controller.ts:473-510 | the range a registration reads is the one the scheduler reads back from the description, and its snapshot is the feed's baseline, so a check reading the same rows finds no change |
| PatreonController.ServeKeepsFit | src/patreon/patreon.controller.ts:181-525 | every endpoint keeps the ids in use below the next one, which never goes back |
| PatreonController.Handle | src/patreon/patreon.controller.ts:181-525 | handling a request leaves the store's tables and the reply as the endpoint specification says, with the history untouched |
| PatreonNotification.FormatPostType | src/patreon/patreon-notification.service.ts:84-93 | the generic "📄 Post" label comes out exactly for a type other than the five known ones |
| PatreonNotification.FirstClose | src/patreon/patreon-notification.service.ts:102 | the index of the first `>` of a text that has one |
| PatreonNotification.StripTags | src/patreon/patreon-notification.service.ts:102 | removing tags never lengthens the text |
| PatreonNotification.DropNewlines | src/patreon/patreon-notification.service.ts:103 | what follows a run of leading newlines is a suffix that does not start with a newline |
| PatreonNotification.CollapseNewlines | src/patreon/patreon-notification.service.ts:103 | turning newline runs into spaces never lengthens the text |
| PatreonNotification.StripTagsChars | src/patreon/patreon-notification.service.ts:102 | every character left after removing tags is one of the text's |
| PatreonNotification.CharsOfSuffix | src/patreon/patreon-notification.service.ts:102 | characters drawn from a suffix of a text are drawn from the text |
| PatreonNotification.StripTagsMeaning | src/patreon/patreon-notification.service.ts:102 | after removing tags no `<` is followed by a `>`, and text without `<` is left as it is |
| PatreonNotification.CollapseTail | src/patreon/patreon-notification.service.ts:103 | what remains after the first character or newline run is a strictly shorter suffix |
| PatreonNotification.CollapseStep | src/patreon/patreon-notification.service.ts:103 | collapsing emits the first character, or one space for a newline run, then collapses the rest |
| PatreonNotification.CollapseChars | src/patreon/patreon-notification.service.ts:103 | collapsing leaves no newline; its first character is a space or the text's first, and every later one a space or a character of the rest |
| PatreonNotification.CollapseNoTag | src/patreon/patreon-notification.service.ts:102-103 | collapsing newlines makes no tag out of text that has none |
| PatreonNotification.CollapseIdentity | src/patreon/patreon-notification.service.ts:103 | text without newlines is left as it is |
| PatreonNotification.SliceKeeps | src/patreon/patreon-notification.service.ts:104-106 | a slice of tag-free, newline-free text stays so |
| PatreonNotification.TrimKeeps | src/patreon/patreon-notification.service.ts:104 | trimming keeps text tag-free and newline-free |
| PatreonNotification.CleanMeaning | src/patreon/patreon-notification.service.ts:101-104 | the cleaned text has no tag and no newline |
| PatreonNotification.TruncateContentMeaning | src/patreon/patreon-notification.service.ts:100-108 | the preview is the cleaned text when it fits, otherwise its first `maxLength` characters followed by "...", so at most `maxLength + 3` long, with no tag and no newline |
| PatreonNotification.DollarAmountMeaning | src/patreon/patreon-notification.service.ts:46-51 | the tier reads back: `$`, the dollars, a point and two digits, whose digits together are the number of cents |
| PatreonNotification.ValueOfTwoMore | src/patreon/patreon-notification.service.ts:51 | two more digits multiply a decimal value by a hundred and add theirs |
| PatreonNotification.NotificationFieldsMeaning | src/patreon/patreon-notification.service.ts:30-66 | the embed starts with the type and the date; the tier field is there exactly when a non-zero minimum pledge is set, the preview exactly when there is content, last and at most 203 characters |
| PatreonNotification.SendNewPostNotificationMeaning | src/patreon/patreon-notification.service.ts:11-82 | nothing is sent exactly when the channel is not in the cache; otherwise the embed names the creator, bolds the title, links the post, has colour 0xff424d and starts with the type field |
| PatreonPosts.NewFeedDefaults | src/patreon/patreon.service.ts:50-65 | a new feed is active, never checked, on the given platform or Patreon, with the given interval when non-zero and 30 otherwise |
| PatreonPosts.CreateFeed | src/patreon/patreon.service.ts:50-65 | a taken source id fails with a unique violation and changes nothing; otherwise exactly the new feed is added |
| PatreonPosts.DeleteFeed | src/patreon/patreon.service.ts:77-87 | the feed's posts are deleted first; the feed goes when it exists, and otherwise the delete fails after the posts are gone |
| PatreonPosts.PostsOutsideMeaning | src/patreon/patreon.service.ts:78-80 | exactly the posts of other feeds are kept, unchanged |
| PatreonPosts.IngestKeys | src/patreon/patreon.service.ts:122-156 | every stored post is kept and the posts afterwards are the stored ones plus the upstream ones inside the window |
| PatreonPosts.IngestAdded | src/patreon/patreon.service.ts:122-156 | each returned post is an upstream post inside the window that was not stored, now stored unnotified; none twice; every new row is a returned post |
| PatreonPosts.IngestNothingNew | src/patreon/patreon.service.ts:122-156 | when every recent upstream post is already held, nothing is stored or returned |
| PatreonPosts.RecentIdsShrink | src/patreon/patreon.service.ts:119-130 | a later cutoff only narrows the window |
| PatreonPosts.RecheckInsertsNothing | src/patreon/patreon.service.ts:106-171 | checking the same upstream list again, later, inserts nothing |
| PatreonPosts.CheckForNewPosts | src/patreon/patreon.service.ts:106-171 | a missing or inactive feed or a failed fetch returns nothing and changes nothing; otherwise the new recent posts are stored and returned and the feed's last check is now |
| PatreonPosts.MarkPostAsNotified | src/patreon/patreon.service.ts:173-178 | only the post's notified flag is set; an unknown post fails and changes nothing |
| PatreonPosts.MarkedLeavesUnnotified | src/patreon/patreon.service.ts:173-186 | marking a post removes exactly it from the unnotified ones |
| PatreonPosts.GetUnnotifiedPosts | src/patreon/patreon.service.ts:180-186 | exactly the unnotified posts, each once, newest first |
| Payments.TokenCache.constructor | src/donate/donate.service.ts:11-12 | a new service has no cached token and no expiry |
| Payments.TokenCache.GetAccessToken | src/donate/donate.service.ts:22-65 | a set token whose expiry lies ahead is returned without a request; otherwise the endpoint's token is returned and cached with expiry now + lifetime − 60 s; a failed request is passed on and leaves the cache as it was |
| Payments.TokenReuseWindow | src/donate/donate.service.ts:25-55 | a token granted for `expiresIn` seconds is reused exactly before its lifetime minus one minute has passed, so one that lives a minute or less is never reused |
| Payments.MemberById | src/donate/donate.service.ts:245 | a member fetched by id is a member of the guild with that id |
| Payments.Grant | src/donate/donate.service.ts:290 | every member keeps its id and username; afterwards a member holds the role exactly when it held it before or has the id, and no other role is gained or lost |
| Payments.FindByUsernameMeaning | src/donate/donate.service.ts:199-207 | the username search answers the first member whose username equals the payer's ignoring case, and nothing exactly when no member's does |
| Payments.ResolutionOrder | src/donate/donate.service.ts:190-215 | the payer is resolved in order: a non-empty reference wins outright, then a case-insensitive username match, and otherwise nobody; an e-mail alone identifies nobody |
| Payments.TierThresholds | src/donate/donate.service.ts:247-274 | no role below 500 cents; diamond from 5000 cents, golden from 2000, supporter from 500 |
| Payments.TierMonotone | src/donate/donate.service.ts:264-274 | giving more never earns a lower tier |
| Payments.DonationGrantsTierRole | src/donate/donate.service.ts:158-301 | the guild changes only by a role grant, and a role is granted only for an approved or paid payment resource from an identified member not yet holding the existing role of the donation's tier |
| Payments.LivepixGrantsPatreonRole | src/livepix/livepix.service.ts:110-200 | the Livepix service grants only the configured Patreon role, only for a paid payment resource from an identified member who lacks it; a webhook without a resource fails |
| Payments.GrantKeepsNames | src/donate/donate.service.ts:199-207 | granting a role changes no id or username, so the payer resolves the same way afterwards |
| Payments.GrantGives | src/donate/donate.service.ts:290 | after a grant the member found under the id holds the role and nothing else in it changed |
| Payments.DonationRedeliveryIdempotent | src/donate/donate.service.ts:158-301 | a donation webhook delivered twice changes the guild no more than once |
| Payments.LivepixRedeliveryIdempotent | src/livepix/livepix.service.ts:110-200 | a Livepix webhook delivered twice changes the guild no more than once |
| Permissions.RoleOverwrites | src/utils/permissions.ts:33-42 | one entry per support role, in the order of the roles, each allowed the member permissions and denied nothing |
| Permissions.GetPermissionOverwrites | src/utils/permissions.ts:3-45 | the loop that pushes one entry per support role returns the three fixed entries followed by the role entries |
| Permissions.OverwritesShape | src/utils/permissions.ts:9-42 | the list has 3 + (number of roles) entries: the guild id is denied ViewChannel; the user gets ViewChannel, SendMessages and ReadMessageHistory; the bot gets ViewChannel, SendMessages, ManageChannels and ManageMessages; then the roles in input order |
| Permissions.ChannelIsPrivate | src/utils/permissions.ts:9-31 | only the first entry, the @everyone role, denies anything, and exactly ViewChannel; every other entry may view and send and is denied nothing |
| Permissions.RolesAdmitted | src/utils/permissions.ts:33-42 | every support role appears with the member permissions |
| Permissions.OnlyBotManages | src/utils/permissions.ts:22-30 | only the third entry, the bot, may manage the channel or its messages |
| Scheduler.ShouldCheckFeedMeaning | src/patreon/patreon-scheduler.service.ts:242-253 | a feed is due exactly when it was never checked or at least its interval, in whole milliseconds (minutes × 60000), has passed since the last check |
| Scheduler.RangeRoundTrip | src/patreon/patreon-scheduler.service.ts:177 | a description "Range: X" reads back as the range X, and a missing description gives the default range Sheet1!A1:Z1000 |
| Scheduler.LatestSnapshot | src/patreon/patreon-scheduler.service.ts:192-195 | a found snapshot is a stored snapshot of that feed; none is found only when the feed has no snapshot at all |
| Scheduler.LatestAfterStore | src/patreon/patreon-scheduler.service.ts:192-227 | the snapshot just stored is the newest one of its feed and becomes the baseline of the next diff |
| Scheduler.SheetCheckedMeaning | src/patreon/patreon-scheduler.service.ts:175-240 | a spreadsheet check changes at most its own feed's check time; a missing API key changes nothing; a sheet not modified since the last check only gets its check time refreshed; a snapshot, of this feed and from the second read, is added only when the first read differs from the newest snapshot, and then the check time moves too |
| Scheduler.RecheckStoresNothing | src/patreon/patreon-scheduler.service.ts:192-227 | after a check that stored a snapshot, a check whose first read returns the same rows finds no change and stores nothing, whatever the clock and modification time |
| Scheduler.CheckGoogleSheetFeed | src/patreon/patreon-scheduler.service.ts:175-240 | the feeds and snapshots the store holds afterwards are those of the spreadsheet-check specification, with the range read from the description; no other table changes |
| Scheduler.AnnouncementsAllOrNothing | src/patreon/patreon-scheduler.service.ts:96-100 | the announcements of a feed's new posts are one per post, in order, when the feed's channel is found, and none otherwise |
| Scheduler.AfterAnalysisMeaning | src/patreon/patreon-scheduler.service.ts:78-86 | the analysis of a stored new post leaves it analyzed with its title and feed, changes no other post, keeps every existing appearance, files every new appearance under that post, and leaves feeds and snapshots alone |
| Scheduler.AfterNotifyMeaning | src/patreon/patreon-scheduler.service.ts:88 | the review notification of a post changes only the message and thread ids of that post's own appearances; no post, feed, snapshot or other appearance changes, and no appearance is added or removed |
| Scheduler.PostDoneMeaning | src/patreon/patreon-scheduler.service.ts:76-105 | the work on one new post (analysis, review notification, mark) ends with that post analyzed and notified, its title and feed kept, every other post and every other post's appearances unchanged, new appearances belonging to it, and feeds and snapshots untouched |
| Scheduler.PostsDoneMeaning | src/patreon/patreon-scheduler.service.ts:76-105 | the work on a batch of distinct new posts ends with every one of them analyzed and notified, every post outside the batch and every appearance of such a post unchanged, and feeds and snapshots untouched |
| Scheduler.PostFeedDoneMeaning | src/patreon/patreon-scheduler.service.ts:67-106 | the check of a post feed keeps every stored post and every other feed as they were and leaves the snapshots alone; a missing, inactive or unanswered feed changes nothing and sends nothing; otherwise the feed gets the run's check time and the announcements sent are exactly those of the new posts of the ingest, in order, and every new post ends analyzed and notified |
| Scheduler.SheetFeedDoneMeaning | src/patreon/patreon-scheduler.service.ts:62-65 | the check of a spreadsheet feed keeps every other feed, sends nothing and touches no post or appearance |
| Scheduler.FeedDoneMeaning | src/patreon/patreon-scheduler.service.ts:60-106 | a feed check dispatches on the platform: a spreadsheet feed sends nothing and leaves posts and appearances alone, any other feed is the post-feed check with its outcomes above; either way other feeds and stored posts are kept |
| Scheduler.AllDoneMeaning | src/patreon/patreon-scheduler.service.ts:39-117 | a run changes only the rows of listed feeds that were due, keeps every stored post as it was, leaves every post it stores analyzed and notified, and keeps appearance ids below the next id |
| Scheduler.ProcessNewPost | src/patreon/patreon-scheduler.service.ts:76-105 | the store afterwards holds exactly the tables of the one-post specification (analysis, review notification, mark, whichever of them fails), the announcement is the one the post's attributes give, and authors, mods, aliases and history are untouched |
| Scheduler.ProcessNewPosts | src/patreon/patreon-scheduler.service.ts:76-105 | the loop over the new posts leaves the store holding the tables of the batch specification and returns exactly the announcements of the batch, in order |
| Scheduler.CheckPostFeed | src/patreon/patreon-scheduler.service.ts:67-106 | the stored tables and the announcements sent are those of the post-feed specification (with its outcomes proved in PostFeedDoneMeaning), and authors, mods, aliases and history are untouched |
| Scheduler.CheckFeed | src/patreon/patreon-scheduler.service.ts:60-106 | the stored tables and the announcements sent are those of the feed-check specification (outcomes in FeedDoneMeaning) |
| Scheduler.PatreonScheduler.constructor | src/patreon/patreon-scheduler.service.ts:13 | a new scheduler is not checking |
| Scheduler.PatreonScheduler.CheckAllFeeds | src/patreon/patreon-scheduler.service.ts:39-117 | a run ends with the checking flag cleared, and its stored tables and announcements are those of the run specification over the feeds in order, each checked when due by its row as read at the start (outcomes in AllDoneMeaning) |
| Scheduler.PatreonScheduler.HandleCron | src/patreon/patreon-scheduler.service.ts:29-37 | the tick runs exactly when no run is going; a skipped tick sends nothing and changes nothing; a run leaves the flag cleared and the store and announcements those of the run specification |
| Sessions.RefreshOutcome | src/auth/session.service.ts:135-167 | a session with more than five minutes left is returned unchanged; when due, a failed refresh or a vanished row gives "Session expired"; otherwise the same session with the new tokens and an expiry `expiresIn` seconds from now |
| Sessions.SessionStore.constructor | src/auth/session.service.ts:22-26 | a new store holds no sessions and no cached users |
| Sessions.SessionStore.CreateSession | src/auth/session.service.ts:32-62 | the row for the generated token is inserted and the token returned; a token already in the table writes nothing and fails |
| Sessions.SessionStore.UpdateSession | src/auth/session.service.ts:64-84 | the row's tokens, lifetime and refresh/use times are rewritten; an unknown token fails with nothing written |
| Sessions.SessionStore.GetSession | src/auth/session.service.ts:86-133 | an unknown token gives no session; otherwise lastUsedAt is written first, then a missing cached user fails with "User not found", else the session view of the row and its user |
| Sessions.SessionStore.RefreshSessionIfExpired | src/auth/session.service.ts:135-167 | the answer is the refresh outcome; the row is rewritten only when a due refresh succeeded and the row exists, and nothing else changes |
| Sessions.SessionStore.DeleteSession | src/auth/session.service.ts:174-179 | the row goes; deleting an unknown token fails with nothing changed |
| Sessions.SessionStore.CacheUserInfo | src/auth/session.service.ts:181-214 | the user's cached profile is inserted or overwritten and sessions are untouched |
| Sessions.CreatedSessionMeaning | src/auth/session.service.ts:32-62 | a new session keeps the scope as the words of the scope string, starts its four timestamps at now, has a thirty-day cookie, and is reported as expiring `expiresIn` seconds after now with the tokens given |
| Sessions.TouchInvisible | src/auth/session.service.ts:95-98 | writing lastUsedAt changes nothing getSession reports |
| Sessions.RefreshAgreesWithStore | src/auth/session.service.ts:108-163 | what getSession reports after a refresh is what the refresh returned, when both read the same clock |
| Sessions.RefreshSettles | src/auth/session.service.ts:135-167 | after a successful refresh to a token that lives longer than the buffer, a second call at the same instant returns the session untouched without asking Discord |
| Sessions.CacheRoundTrip | src/auth/session.service.ts:110-214 | caching a profile and reading it back gives the profile, with multi-factor reported off |
| Sheets.HeaderTexts | src/patreon/google-sheets.service.ts:192-194 | one normalised header text per header cell |
| Sheets.FindColumnIndex | src/patreon/google-sheets.service.ts:191-204 | the loop returns the column the specification ColumnIndex gives |
| Sheets.FirstContainingMeaning | src/patreon/google-sheets.service.ts:197 | `findIndex` gives -1 exactly when no header contains the name, and otherwise the first header that does |
| Sheets.ColumnIndexMeaning | src/patreon/google-sheets.service.ts:191-204 | -1 exactly when no header contains any synonym; otherwise the first header containing the first synonym that some header contains |
| Sheets.FetchSheetData | src/patreon/google-sheets.service.ts:62-116 | no API key fails with the configuration error, a failed request fails with its message, and otherwise the grid's rows are extracted |
| Sheets.ReadRows | src/patreon/google-sheets.service.ts:91-105 | the row loop builds exactly the specified rows, in order |
| Sheets.SheetRowsMembers | src/patreon/google-sheets.service.ts:91-105 | no more rows than the body, and exactly the body rows with a non-empty name cell, converted |
| Sheets.SheetRowsWithoutNames | src/patreon/google-sheets.service.ts:94-96 | without a name column no row is extracted |
| Sheets.SheetDataMeaning | src/patreon/google-sheets.service.ts:76-108 | the header row is skipped, no name column gives nothing, and the result is exactly the listed body rows |
| Sheets.RowOfTrimmed | src/patreon/google-sheets.service.ts:98-104 | every text of an extracted row is trimmed, and a missing URL or status column gives no value |
| Sheets.BuildDataMap | src/patreon/google-sheets.service.ts:206-214 | the loop builds the specified name → row map |
| Sheets.DataMapKeys | src/patreon/google-sheets.service.ts:206-214 | the keys are exactly the non-empty row names |
| Sheets.DataMapLastWins | src/patreon/google-sheets.service.ts:208-212 | a name maps to its last row, since `Map.set` overwrites |
| Sheets.DetectChanges | src/patreon/google-sheets.service.ts:118-152 | fails as fetchSheetData fails, and otherwise returns the changes of the fetched rows against the snapshot |
| Sheets.ChangesMembers | src/patreon/google-sheets.service.ts:126-149 | the changes are exactly the changes of the individual rows |
| Sheets.ChangesSound | src/patreon/google-sheets.service.ts:126-149 | every change is named and versioned, has an old version exactly when the name was in the snapshot, that old version differs, and comes from a changed row |
| Sheets.ChangesComplete | src/patreon/google-sheets.service.ts:126-149 | every changed row yields its change, and there are none exactly when no row changed |
| Sheets.SnapshotOfSameRowsHasNoChanges | src/patreon/google-sheets.service.ts:118-152 | comparing rows with the snapshot built from them finds no change |
| Sheets.CaptureMeaning | src/patreon/google-sheets.service.ts:154-162 | a regex match finds nothing exactly when no position matches, and otherwise captures the run after the first matching position |
| Sheets.ExtractedIds | src/patreon/google-sheets.service.ts:154-162 | an extracted spreadsheet id is a non-empty run of `[a-zA-Z0-9-_]`, and a gid a non-empty run of digits |
| Sheets.SpreadsheetIdRoundTrip | src/patreon/google-sheets.service.ts:154-157 | the id of a spreadsheet URL built from an id is that id |
| Sheets.GidRoundTrip | src/patreon/google-sheets.service.ts:159-162 | the gid of a spreadsheet URL built from an id and a gid is that gid |
| Sheets.FindSheetMeaning | src/patreon/google-sheets.service.ts:180 | finds nothing exactly when no tab has the gid, and otherwise the first tab that does |
| Sheets.GetSheetTitleMeaning | src/patreon/google-sheets.service.ts:164-189 | the title is never empty: the matching tab's title, and "Sheet1" when no tab matches or the gid is not a tab id |
| Sheets.GetLastModifiedTime | src/patreon/google-sheets.service.ts:39-60 | fails exactly without an API key, and gives a time exactly when the request answers with one |
| Slugs.SlugShape | src/bot/commands/mod-management.command.ts:85 | a slug uses only lowercase ASCII letters, digits, `_` and `-` |
| Slugs.SlugIdempotent | src/bot/commands/mod-management.command.ts:172 | deriving a slug from a slug gives it back unchanged |
| Slugs.SlugKeepsLeadingSpace | src/patreon/mod-interaction.handler.ts:402 | leading whitespace is not trimmed: it becomes a leading `_` |
| Slugs.SlugKeepsHyphen | src/bot/commands/mod-management.command.ts:316 | a hyphen in a name survives into its slug |
| Slugs.HyphenatedNeverExact | src/patreon/mod-detection.service.ts:150-152 | a mod registered under a hyphenated name never matches a detected name by slug or normalized name, because a canonical detected name has no hyphen |

## Left out

- Discord I/O (fetching channels, sending and editing messages, threads, replies, modals, permission queries) is not modelled. Rendered messages are plain data, and what delivery returns is a parameter.
- The HTTP clients are not modelled: the Patreon posts and campaigns APIs, Google Sheets and Drive, Groq chat completions, the Livepix API, and Discord's OAuth token exchange and user and guild lookups. Each answer is a parameter. The same goes for `fetchFeedPosts` in src/patreon/patreon.service.ts.
- The HTML scraping heuristics and file writes of src/patreon/helpers/fetch-feed-id.helper.ts:90-256 are left out. The scrape is one answer passed in, and only its page URL and its result are modelled.
- `JSON.parse` and `new URL` are left out. The parsed tree is the answer of a function passed in, and a URL arrives as its parts.
- The `@Cron` trigger, the `setTimeout` throttles, the retry sleep and races between interaction events are left out. Everything runs one step after another.
- `Promise.all` over a post's appearances in analyzePost is left out. If one write fails, the model writes no appearance; the source may leave some written.
- Floating point is not modelled. The similarity ratio and confidences are exact reals. `Math.round` percentages follow the real value. `toFixed` money strings and float amount arithmetic are left out, and amounts are integer cents.
- Local-time date formatting is not modelled: the date fallback of `normalizeVersion` takes the local calendar date as day, month and year, and `setDate`/`toLocaleString` are left out. The ten-day window is ten days of milliseconds.
- Case mapping is ASCII only. There is no Unicode case folding or normalisation.
- `Number()` on a version segment is modelled for an empty or all-digit segment; every other text is NaN. Signs, hexadecimal, exponents and the precision limit of very long digit strings are left out.
- Prisma query mechanics are not modelled (nested includes, `orderBy`/`take`, insensitive `contains`). Tables are maps with explicit filters. Foreign-key cascades are modelled only where the next line says so.
- PatreonController.DeleteAuthorMeaning: the schema is not part of this model, so the author's mods are assumed to be deleted with it by a cascade. patreon.controller.ts:281-283 issues only the author delete, and its reply counts those mods as deleted. The aliases and appearances that point at the removed mods, and the appearances of the removed posts, are left in their tables.
- Where Prisma leaves the order of rows unspecified, the model uses ascending generated id, which is creation order.
- Generated cuid ids are naturals from a counter.
- Unique constraints other than the feed's source id and the post's post id are not modelled.
- The schema file is not part of this model. Its defaults for a newly created mod (active, up to date) are assumed.
- The messages of thrown errors are approximated by an error datatype.
- `crypto.randomBytes` session tokens, cookies and redirects (src/auth/auth.controller.ts) are left out. The session token is a parameter.
- `cacheUserInfo` takes one clock reading for the created row's timestamps.
- The scheduler's manual triggers `checkSingleFeed`, `checkSingleCampaign` and `checkAllCampaigns` are left out. They do the same per-post work as `Scheduler.ProcessNewPosts` for a chosen feed. `onModuleInit` only schedules one run of `checkAllFeeds`, and is left out too.
- The patreon.controller.ts routes for feeds and campaigns (list, create, update, delete, check, check-all) are left out: each only forwards to the service or scheduler operations modelled here.
- The other patreon.controller.ts routes left out are `fetch-feed-id`, `fetch-campaign-id` and `link-author` (lines 109-167). Each forwards to `FeedId` or to a single feed update.
- The listing routes `getAllAuthors`, `getAllMods` and `getPendingReviewPosts`, the unnotified-posts route and the spreadsheet test route are left out: they only read and display.
- The display-only `!mod` sub-commands (`list`, `info`, `author list` and the help card) are parsed and routed; their rendered text is left out.
- `buildEmbed` and `sendEmbedToChannel` of the embed builder only fill a discord.js builder and send it, and are left out.
- The ticket subsystem is left out apart from the permission overwrites: channel creation, member search, transcripts and `clearChannel`. `hasStaff` (src/utils/permissions.ts:47-59) is left out because it reads `this` inside a free function and cannot work as written.
- Scheduler.PatreonScheduler.CheckAllFeeds: one clock reading `now` serves the whole run. The source reads `new Date()` again for each feed's due test, for its ten-day cutoff and for each check time it writes (patreon-scheduler.service.ts:186, 232 and 248, patreon.service.ts:119 and 160). The same holds for Scheduler.PatreonScheduler.HandleCron, Scheduler.CheckFeed, Scheduler.CheckPostFeed and Scheduler.CheckGoogleSheetFeed.
- PatreonPosts.CheckForNewPosts: one reading `now` gives both the ten-day cutoff and the feed's new check time. The source reads `new Date()` for each (patreon.service.ts:119 and 160), with the Patreon request between the two reads.
- ModNotification.Notify: the review message uses the corrected embed `MainEmbed` (listed under Findings), which shows the feed author. The code as written never shows it; `MainEmbedAsWritten` models that, and the two agree whenever the feed has no author.
- ModNotification.NotifyModsDetected: sends the message of ModNotification.Notify, so it carries the corrected embed too.
- Scheduler.PostDone: the review notification inside it is ModNotification.Notify, with the corrected embed. The appearances it writes do not depend on the embed (ModNotification.NotifyAppearances).
- ModDetection.AnalyzePost: every appearance it writes expires 15 minutes after the one reading `now`. The source evaluates `Date.now()` once per detected mod (mod-detection.service.ts:106), inside the asynchronous map, with awaited lookups between the reads, so its expiry times can differ slightly from row to row. The same holds for ModDetection.Rows, ModDetection.BuildRows and ModDetection.AppearanceFor.
- ModDetection.AnalyzePost: for a post the store does not hold, the writes are assumed to fail on the missing row (the update of the post, and the foreign key of each appearance). The extraction request is still made first, as in the source.
- String lengths are counted in characters. JavaScript counts UTF-16 code units, so a character outside the Basic Multilingual Plane (most emoji) counts once in the model and twice in the source. This affects the 2500-character content cut of Groq.BuildPrompt, the 80-character thread and option names of ModNotification, the 200-character preview of PatreonNotification, the 256/4096/1024/2048 limits of EmbedBuilder.ValidateEmbedData and the edit distance of Normalization.Levenshtein.
- The lookups of a name in a plain JavaScript object (the post types of `formatPostType`, the colour names of `parseColor`, the style names of `getButtonStyle`) also find inherited keys such as `constructor` or `toString`. The model looks up only the listed names, so PatreonNotification.FormatPostType, EmbedBuilder.ParseColorMeaning and EmbedBuilder.GetButtonStyle give the default for those keys, where the source would return a function object.
- Guilds.BuildButton: the custom id of every button in one request uses the same clock reading; the source reads `Date.now()` once per button.
- Groq.BuildPrompt: only the parts of the prompt that vary (post text and the known-mods clause) are modelled. The fixed wording and the quality of the extraction are left out.
- Bot dispatch, the embed wizard UI, the file-serving controllers, the Telegram client in src/server/index.ts, DTO validation (the `checkIntervalMins` floor is declarative and not enforced by the scheduler) and the incomplete src/utils/catchMemberNick.ts are glue and are left out.

## Findings

| source | as written | input that shows it | evidently intended | confidence | as-written member | corrected member |
|---|---|---|---|---|---|---|
| src/admin/embed/embed-builder.service.ts:98-100 | the colour table lookup tests the number for truthiness, so the entry `'preto': 0x000000` is skipped | color `"preto"` (any case) | black, 0x000000 | not executed | EmbedBuilder.PretoIsBlue | EmbedBuilder.ParseColorMeaning |
| src/patreon/mod-notification.service.ts:163-169 | the author field is guarded by `post.campaign?.author`, a relation posts do not have, so it is never added | any post whose feed has an author | the feed author's name shown between the publication time and the mods list | not executed | ModNotification.AuthorFieldNeverShown | ModNotification.MainEmbedMeaning |
| src/patreon/mod-interaction.handler.ts:102-107 | an action chosen in the select menu answers in a private reply, and the refresh after the action edits that reply; no appearance carries its id, so it is cleared as "all reviewed" and the review message keeps listing the handled mod | a review message with two pending mods: choose one in the menu and press Confirm | the review message stamped on the appearance is refreshed and lists the mod still pending | not executed | ModInteraction.PrivateReplyCleared | ModInteraction.RefreshedIntendedMeaning |
| src/patreon/mod-interaction.handler.ts:287 | the refresh writes the remaining list into field 0 of the embed, which is the post-link field; as written no handler refreshes a review message that still has pending appearances, so this shows only once the refresh above targets the review message | the intended refresh of a review message with two pending mods, after one is confirmed | the mods field gets the remaining list and the post link stays | not executed | ModInteraction.AfterActionOverwritesPostLink | ModInteraction.AfterActionMeaning |
| src/patreon/mod-interaction.handler.ts:41-57 | the bulk ids `mod_confirm_all` and `mod_ignore_all` are compared after the prefixes `mod_confirm_` and `mod_ignore_`, which they start with, so they reach the single-item handlers with the argument "all" | a press of the "confirm all" button of a review message with two pending mods | the confirm-all and ignore-all handlers | not executed | ModInteraction.BulkButtonsShadowed | ModInteraction.RouteButtonIntendedMeaning |
