/**
 * The `!mod` chat command: the operator's registry of mod authors, mods and aliases. A command
 * line arrives split into words; the first word picks the sub-command, case-insensitively, and
 * an unknown or missing one shows the help. The registry commands create authors, link them to
 * feeds, create or import mods, record translated versions and add aliases; `review` lists the
 * posts still awaiting review.
 */
module ModManagement {
  import opened Wrappers
  import opened Text
  import opened Normalization
  import opened Db
  import Slugs
  import ModDetection
  import ModInteraction

  // ---------------------------------------------------------------------------------------
  // Dispatch
  // ---------------------------------------------------------------------------------------

  /** A parsed command line; `rest` holds the words after the sub-command (and action). */
  datatype Command =
    | AuthorAdd(rest: seq<string>)
    | AuthorList
    | AuthorLink(rest: seq<string>)
    | AuthorUsage
    | AddMod(rest: seq<string>)
    | Import(rest: seq<string>)
    | Update(rest: seq<string>)
    | AliasAdd(rest: seq<string>)
    | AliasUsage
    | ListMods(filter: Option<string>)
    | Info(arg: Option<string>)
    | ShowReview
    | Help

  /** The sub-commands `!mod` knows, in lower case. */
  const SubCommands: set<string> := {"author", "add", "import", "update", "alias", "list", "info", "review"}

  /** The word at position `i`, if there is one. */
  function Word(args: seq<string>, i: nat): Option<string>
  {
    if i < |args| then Some(args[i]) else None
  }

  /** handleAuthorCommand: `add`, `list` or `link`, matched case-insensitively. */
  function ParseAuthor(rest: seq<string>): Command
  {
    if |rest| == 0 then AuthorUsage
    else
      var action := Lower(rest[0]);
      if action == "add" then AuthorAdd(rest[1..])
      else if action == "list" then AuthorList
      else if action == "link" then AuthorLink(rest[1..])
      else AuthorUsage
  }

  /** handleModCommand: the lower-cased first word picks the sub-command. */
  function Parse(args: seq<string>): Command
  {
    if |args| == 0 then Help
    else
      var sub := Lower(args[0]);
      var rest := args[1..];
      if sub == "author" then ParseAuthor(rest)
      else if sub == "add" then AddMod(rest)
      else if sub == "import" then Import(rest)
      else if sub == "update" then Update(rest)
      else if sub == "alias" then
        (if |rest| > 0 && Lower(rest[0]) == "add" then AliasAdd(rest[1..]) else AliasUsage)
      else if sub == "list" then ListMods(Word(args, 1))
      else if sub == "info" then Info(Word(args, 1))
      else if sub == "review" then ShowReview
      else Help
  }

  /** The help is shown exactly when the first word is missing or names no sub-command. */
  lemma ParseHelpDefault(args: seq<string>)
    ensures Parse(args) == Help <==> |args| == 0 || Lower(args[0]) !in SubCommands
  {
    if |args| > 0 && Lower(args[0]) == "author" {
      assert Parse(args) == ParseAuthor(args[1..]);
    }
  }

  /** Sub-commands are matched ignoring letter case: the line with its first word lowered parses the same. */
  lemma ParseCaseInsensitive(args: seq<string>)
    requires |args| > 0
    ensures Parse([Lower(args[0])] + args[1..]) == Parse(args)
  {
    var lowered := [Lower(args[0])] + args[1..];
    assert lowered[1..] == args[1..];
    assert Lower(Lower(args[0])) == Lower(args[0]);
  }

  // ---------------------------------------------------------------------------------------
  // The registry and its replies
  // ---------------------------------------------------------------------------------------

  /** The part of the store the registry commands read and write. */
  datatype Registry = Registry(
    feeds: map<string, Feed>,
    authors: map<Id, Author>,
    mods: map<Id, Mod>,
    aliases: map<Id, Alias>,
    nextId: Id)

  /** Every generated id in use is below the next one to hand out. */
  predicate Fits(r: Registry)
  {
    (forall k :: k in r.authors ==> k < r.nextId)
    && (forall k :: k in r.mods ==> k < r.nextId)
    && (forall k :: k in r.aliases ==> k < r.nextId)
  }

  /** What a command answers: a text, or one of the embeds. */
  datatype Reply =
    | Say(content: string)
    | Imported(name: string, id: Id, authorName: string, url: string)
    | ReviewList(count: nat, shown: seq<ModDetection.ReviewItem>)
    | AuthorTable
    | ModTable(filter: Option<string>)
    | ModCard(identifier: string)
    | HelpCard

  datatype Outcome = Outcome(state: Registry, reply: Reply)

  /** The author a typed id names, if any. */
  function AuthorNamed(r: Registry, text: string): Option<Id>
  {
    match ParseId(text)
    case Some(id) => if id in r.authors then Some(id) else None
    case None => None
  }

  function AuthorNotFound(text: string): string
  {
    "❌ Autor com ID `" + text + "` não encontrado."
  }

  // ---------------------------------------------------------------------------------------
  // author add
  // ---------------------------------------------------------------------------------------

  datatype AuthorArgs = AuthorArgs(name: string, patreonUrl: Option<string>)

  /** The last word is the Patreon link, and not part of the name, when it mentions patreon.com. */
  function ParseAuthorArgs(args: seq<string>): Option<AuthorArgs>
  {
    if |args| < 1 then None
    else
      var last := args[|args| - 1];
      var isUrl := Contains(last, "patreon.com");
      Some(AuthorArgs(Join(args[..|args| - (if isUrl then 1 else 0)], " "), if isUrl then Some(last) else None))
  }

  /** The link is taken exactly when the last word mentions patreon.com, and the name is the rest. */
  lemma AuthorArgsMeaning(args: seq<string>)
    ensures ParseAuthorArgs(args).None? <==> |args| == 0
    ensures |args| > 0 ==>
      var p := ParseAuthorArgs(args).value;
      var last := args[|args| - 1];
      (p.patreonUrl.Some? <==> Contains(last, "patreon.com"))
      && (p.patreonUrl.Some? ==> p.patreonUrl.value == last && p.name == Join(args[..|args| - 1], " "))
      && (p.patreonUrl.None? ==> p.name == Join(args, " "))
  {
    if |args| > 0 {
      assert args[..|args|] == args;
    }
  }

  /** author add: a new author under a fresh id, with the slug of its name and no feed yet. */
  function AddAuthor(r: Registry, args: seq<string>): Outcome
  {
    match ParseAuthorArgs(args)
    case None => Outcome(r, Say("❌ Use: `!mod author add <nome> [patreon_url]`"))
    case Some(p) =>
      var id := r.nextId;
      Outcome(r.(authors := r.authors[id := Author(p.name, Slugs.Slug(p.name), p.patreonUrl, None)], nextId := id + 1),
              Say("✅ Autor **" + p.name + "** criado!\nID: `" + IdText(id) + "`"))
  }

  /** A new author takes a fresh id, which the reply names; nothing else changes. */
  lemma AddAuthorMeaning(r: Registry, args: seq<string>)
    requires Fits(r)
    ensures var o := AddAuthor(r, args);
      (|args| == 0 ==> o.state == r)
      && (|args| > 0 ==>
            var p := ParseAuthorArgs(args).value;
            r.nextId !in r.authors && o.state.authors.Keys == r.authors.Keys + {r.nextId}
            && (forall k :: k in r.authors ==> o.state.authors[k] == r.authors[k])
            && o.state.authors[r.nextId] == Author(p.name, Slugs.Slug(p.name), p.patreonUrl, None)
            && o.state == r.(authors := o.state.authors, nextId := r.nextId + 1)
            && ParseId(IdText(r.nextId)) == Some(r.nextId))
  {
    if |args| > 0 {
      ParseIdMeaning(IdText(r.nextId), r.nextId);
    }
  }

  // ---------------------------------------------------------------------------------------
  // author link
  // ---------------------------------------------------------------------------------------

  /** author link: both the author and the feed must exist; the author then names the feed. */
  function LinkAuthor(r: Registry, args: seq<string>): Outcome
  {
    if |args| < 2 then Outcome(r, Say("❌ Use: `!mod author link <author_id> <feed_id>`"))
    else
      var feedId := args[1];
      match AuthorNamed(r, args[0])
      case None => Outcome(r, Say(AuthorNotFound(args[0])))
      case Some(a) =>
        if feedId !in r.feeds then
          Outcome(r, Say("❌ Feed com ID `" + feedId + "` não encontrado.\n💡 Crie o feed primeiro via API."))
        else
          Outcome(r.(authors := r.authors[a := r.authors[a].(feedSourceId := Some(feedId))]),
                  Say("✅ Autor **" + r.authors[a].name + "** vinculado ao feed **" + r.feeds[feedId].creatorName + "**!"))
  }

  /**
   * A link changes only the named author's feed, to a feed that exists; afterwards that feed's
   * author, as the pipeline looks it up, is the linked one unless an older author names it too.
   */
  lemma LinkAuthorMeaning(r: Registry, args: seq<string>)
    requires Fits(r)
    ensures var o := LinkAuthor(r, args);
      o.state == r
      || (|args| >= 2 && AuthorNamed(r, args[0]).Some? && args[1] in r.feeds
          && var a := AuthorNamed(r, args[0]).value;
          o.state == r.(authors := r.authors[a := r.authors[a].(feedSourceId := Some(args[1]))])
          && FeedAuthor(o.state.authors, args[1], r.nextId).Some?
          && FeedAuthor(o.state.authors, args[1], r.nextId).value <= a)
  {
    var o := LinkAuthor(r, args);
    if o.state != r {
      var a := AuthorNamed(r, args[0]).value;
      var keys := set k | k in o.state.authors && o.state.authors[k].feedSourceId == Some(args[1]);
      AscendingMeaning(keys, r.nextId);
      assert a in keys;
      var asc := Ascending(keys, r.nextId);
      var j :| 0 <= j < |asc| && asc[j] == a;
      assert j == 0 || asc[0] < asc[j];
    }
  }

  // ---------------------------------------------------------------------------------------
  // add
  // ---------------------------------------------------------------------------------------

  datatype ModArgs = ModArgs(authorText: string, name: string, curseForgeUrl: string)

  /** add: the first word is the author id, the last the CurseForge link, the words between the name. */
  function ParseModArgs(args: seq<string>): Option<ModArgs>
  {
    if |args| < 3 then None
    else Some(ModArgs(args[0], Join(args[1..|args| - 1], " "), args[|args| - 1]))
  }

  /** The three parts come back from a line written as author, name words, link. */
  lemma ModArgsRoundTrip(authorText: string, words: seq<string>, url: string)
    requires |words| >= 1
    ensures ParseModArgs([authorText] + words + [url]) == Some(ModArgs(authorText, Join(words, " "), url))
  {
    var args := [authorText] + words + [url];
    assert args[1..|args| - 1] == words;
  }

  /** add: creation fails unless the first word names an author. */
  function AddModCommand(r: Registry, args: seq<string>): Outcome
  {
    match ParseModArgs(args)
    case None => Outcome(r, Say("❌ Use: `!mod add <author_id> <nome> <curseforge_url>`"))
    case Some(p) =>
      match AuthorNamed(r, p.authorText)
      case None => Outcome(r, Say("❌ Erro ao criar mod. Verifique o ID do autor."))
      case Some(a) =>
        var id := r.nextId;
        var slug := Slugs.Slug(p.name);
        Outcome(r.(mods := r.mods[id := NewMod(a, p.name, slug, Some(p.curseForgeUrl))], nextId := id + 1),
                Say("✅ Mod **" + p.name + "** criado!\nID: `" + IdText(id) + "`"))
  }

  /**
   * A mod is added exactly when there are at least three words and the first names an author;
   * it then has a fresh id, the name's slug as slug and normalized name, and the link.
   */
  lemma AddModMeaning(r: Registry, args: seq<string>)
    requires Fits(r)
    ensures var o := AddModCommand(r, args);
      (o.state != r <==> |args| >= 3 && AuthorNamed(r, args[0]).Some?)
      && (o.state != r ==>
            var name := Join(args[1..|args| - 1], " ");
            var m := o.state.mods[r.nextId];
            r.nextId !in r.mods && o.state.mods.Keys == r.mods.Keys + {r.nextId}
            && o.state == r.(mods := o.state.mods, nextId := r.nextId + 1)
            && Some(m.authorId) == AuthorNamed(r, args[0]) && m.primaryName == name
            && m.slug == m.normalizedName == Slugs.Slug(name) && m.curseForgeUrl == Some(args[|args| - 1]))
  {
    var o := AddModCommand(r, args);
    if |args| >= 3 && AuthorNamed(r, args[0]).Some? {
      assert r.nextId !in r.mods;
      assert r.nextId in o.state.mods.Keys;
    }
  }

  // ---------------------------------------------------------------------------------------
  // import
  // ---------------------------------------------------------------------------------------

  /** The last path segment of a link, or the one before it when the link ends in `/`. */
  function SlugSegment(url: string): string
  {
    var parts := Split(url, '/');
    if parts[|parts| - 1] != "" then parts[|parts| - 1]
    else if |parts| >= 2 then parts[|parts| - 2]
    else ""
  }

  /** The segment after the last `/` is the one taken. */
  lemma SlugSegmentOfPath(prefix: string, segment: string)
    requires segment != "" && '/' !in segment
    ensures SlugSegment(prefix + "/" + segment) == segment
  {
    SplitConcat(prefix, segment, '/');
    SplitWord(segment, '/');
  }

  /** A trailing `/` does not change the segment taken. */
  lemma SlugSegmentOfTrailingSlash(prefix: string, segment: string)
    requires segment != "" && '/' !in segment
    ensures SlugSegment(prefix + "/" + segment + "/") == segment
  {
    SplitConcat(prefix + "/" + segment, "", '/');
    SplitConcat(prefix, segment, '/');
    SplitWord(segment, '/');
    assert prefix + "/" + segment + "/" == prefix + "/" + segment + [('/')] + "";
  }

  function ToUpperChar(c: char): char
  {
    if IsLower(c) then (c as int - 32) as char else c
  }

  /** `charAt(0).toUpperCase() + slice(1)`. */
  function Capitalize(w: string): string
  {
    if |w| == 0 then "" else [ToUpperChar(w[0])] + w[1..]
  }

  /** The display name of an imported mod: the segment's `-`-separated words, capitalised, joined by spaces. */
  function ImportedName(segment: string): string
  {
    var words := Split(segment, '-');
    Join(seq(|words|, i requires 0 <= i < |words| => Capitalize(words[i])), " ")
  }

  /** The slug of an imported mod: the segment lowercased, keeping only `[\w-]`. */
  predicate SlugChar(c: char) { IsWordChar(c) || c == '-' }

  function ImportedSlug(segment: string): string
  {
    KeepChars(Lower(segment), SlugChar)
  }

  /** Capitalising changes at most the first letter, to upper case, and adds no space. */
  lemma CapitalizeMeaning(w: string)
    ensures var c := Capitalize(w);
      |c| == |w| && Lower(c) == Lower(w) && (|w| > 0 ==> !IsLower(c[0]))
      && (forall j :: 1 <= j < |w| ==> c[j] == w[j])
      && (' ' !in w ==> ' ' !in c)
  {
    if |w| > 0 {
      var c := Capitalize(w);
      assert Lower(c)[0] == Lower(w)[0];
      assert forall j :: 1 <= j < |w| ==> c[j] == w[j];
    }
  }

  /**
   * The name's space-separated words are the segment's hyphen-separated words, each with its
   * first letter capitalised and otherwise unchanged.
   */
  lemma ImportedNameWords(segment: string)
    requires ' ' !in segment
    ensures var words := Split(segment, '-');
      var named := Split(ImportedName(segment), ' ');
      |named| == |words|
      && forall i :: 0 <= i < |words| ==> named[i] == Capitalize(words[i])
  {
    var words := Split(segment, '-');
    var caps := seq(|words|, i requires 0 <= i < |words| => Capitalize(words[i]));
    forall i | 0 <= i < |caps| ensures ' ' !in caps[i] {
      forall j | 0 <= j < |words[i]| ensures words[i][j] != ' ' {
        WordOfSplit(segment, '-', i, j);
      }
      CapitalizeMeaning(words[i]);
    }
    SplitJoin(caps, ' ');
  }

  /** Every character of a split word is a character of the string split. */
  lemma {:induction false} WordOfSplit(s: string, sep: char, i: nat, j: nat)
    requires i < |Split(s, sep)| && j < |Split(s, sep)[i]|
    ensures Split(s, sep)[i][j] in s
  {
    if s[0] == sep {
      WordOfSplit(s[1..], sep, i - 1, j);
    } else {
      var rest := Split(s[1..], sep);
      if i == 0 {
        if j > 0 {
          WordOfSplit(s[1..], sep, 0, j - 1);
        }
      } else {
        WordOfSplit(s[1..], sep, i, j);
      }
    }
  }

  /** An imported slug uses only lowercase letters, digits, `_` and `-`, and is its own slug. */
  lemma ImportedSlugShape(segment: string)
    ensures AllSatisfy(ImportedSlug(segment), SpacedSource)
    ensures ImportedSlug(ImportedSlug(segment)) == ImportedSlug(segment)
  {
    var lowered := Lower(segment);
    forall k | 0 <= k < |lowered| ensures NotUpper(lowered[k]) {
      LowerCharNotUpper(segment[k]);
    }
    KeptSatisfy(lowered, SlugChar, NotUpper);
    var s := ImportedSlug(segment);
    forall k | 0 <= k < |s| ensures SpacedSource(s[k]) && !IsUpper(s[k]) {
      assert SlugChar(s[k]) && NotUpper(s[k]);
    }
    LowerIdle(s);
    KeepAll(s, SlugChar);
  }

  /** Keeping some characters keeps a property every character has. */
  lemma {:induction false} KeptSatisfy(s: string, Q: char -> bool, P: char -> bool)
    requires AllSatisfy(s, P)
    ensures AllSatisfy(KeepChars(s, Q), P)
  {
    if |s| > 0 {
      KeptSatisfy(s[1..], Q, P);
    }
  }

  /** The mod a link or slug already belongs to, oldest first. */
  function Existing(mods: map<Id, Mod>, url: string, slug: string, n: nat): (r: Option<Id>)
    ensures r.Some? ==> r.value in mods && (mods[r.value].curseForgeUrl == Some(url) || mods[r.value].slug == slug)
  {
    Head(Ascending((set k | k in mods && (mods[k].curseForgeUrl == Some(url) || mods[k].slug == slug)), n))
  }

  /**
   * import: only CurseForge links, only for an existing author, and never a second mod with the
   * same link or slug.
   */
  function ImportCommand(r: Registry, args: seq<string>): Outcome
  {
    if |args| < 2 then Outcome(r, Say("❌ Use: `!mod import <author_id> <curseforge_url>`"))
    else
      var url := args[1];
      if !Contains(url, "curseforge.com") then Outcome(r, Say("❌ URL inválida. Use uma URL do CurseForge."))
      else match AuthorNamed(r, args[0])
        case None => Outcome(r, Say(AuthorNotFound(args[0])))
        case Some(a) =>
          var segment := SlugSegment(url);
          var name := ImportedName(segment);
          var slug := ImportedSlug(segment);
          match Existing(r.mods, url, slug, r.nextId)
          case Some(m) => Outcome(r, Say("⚠️ Mod **" + r.mods[m].primaryName + "** já existe!\nID: `" + IdText(m) + "`"))
          case None =>
            var id := r.nextId;
            Outcome(r.(mods := r.mods[id := NewMod(a, name, slug, Some(url))], nextId := id + 1),
                    Imported(name, id, r.authors[a].name, url))
  }

  /** No mod has the link or the slug exactly when the lookup finds none. */
  lemma ExistingNoneMeaning(mods: map<Id, Mod>, url: string, slug: string, n: nat)
    requires forall k :: k in mods ==> k < n
    ensures Existing(mods, url, slug, n).None? <==>
      forall k :: k in mods ==> mods[k].curseForgeUrl != Some(url) && mods[k].slug != slug
  {
    var keys := set k | k in mods && (mods[k].curseForgeUrl == Some(url) || mods[k].slug == slug);
    AscendingMeaning(keys, n);
    if Existing(mods, url, slug, n).None? {
      assert |Ascending(keys, n)| == 0;
      assert forall k :: k in mods && (mods[k].curseForgeUrl == Some(url) || mods[k].slug == slug) ==> k in keys;
    }
  }

  /** The import line is accepted: a CurseForge link, an existing author, and neither link nor slug taken. */
  predicate Importable(r: Registry, args: seq<string>)
  {
    |args| >= 2 && Contains(args[1], "curseforge.com") && AuthorNamed(r, args[0]).Some?
    && Existing(r.mods, args[1], ImportedSlug(SlugSegment(args[1])), r.nextId).None?
  }

  /**
   * An import creates a mod only for a CurseForge link and an existing author, when no mod has
   * that link or slug yet; the new mod carries the segment's name and slug. Otherwise nothing
   * changes.
   */
  lemma ImportMeaning(r: Registry, args: seq<string>)
    requires Fits(r)
    ensures !Importable(r, args) ==> ImportCommand(r, args).state == r
    ensures Importable(r, args) ==>
      var url := args[1];
      var slug := ImportedSlug(SlugSegment(url));
      (forall k :: k in r.mods ==> r.mods[k].curseForgeUrl != Some(url) && r.mods[k].slug != slug)
      && r.nextId !in r.mods
      && ImportCommand(r, args).state
           == r.(mods := r.mods[r.nextId := NewMod(AuthorNamed(r, args[0]).value, ImportedName(SlugSegment(url)), slug, Some(url))],
                 nextId := r.nextId + 1)
  {
    if Importable(r, args) {
      ExistingNoneMeaning(r.mods, args[1], ImportedSlug(SlugSegment(args[1])), r.nextId);
    }
  }

  /** Importing the same link twice creates one mod: the second import finds the first. */
  lemma ImportIdempotent(r: Registry, args: seq<string>)
    requires Fits(r)
    ensures var once := ImportCommand(r, args).state;
      ImportCommand(once, args).state == once
  {
    var once := ImportCommand(r, args).state;
    ImportMeaning(r, args);
    if Importable(r, args) {
      var url := args[1];
      var slug := ImportedSlug(SlugSegment(url));
      assert once.mods[r.nextId].slug == slug;
      ExistingNoneMeaning(once.mods, url, slug, once.nextId);
      assert !Importable(once, args);
      ImportMeaning(once, args);
    }
  }

  // ---------------------------------------------------------------------------------------
  // update
  // ---------------------------------------------------------------------------------------

  /** `replace(/^v/i, '')`: one leading `v` or `V` is dropped. */
  function StripVersionPrefix(version: string): string
  {
    if |version| > 0 && (version[0] == 'v' || version[0] == 'V') then version[1..] else version
  }

  /** Exactly one leading `v`/`V` goes, and a version without one is kept as typed. */
  lemma StripVersionPrefixMeaning(version: string)
    ensures StripVersionPrefix("v" + version) == version && StripVersionPrefix("V" + version) == version
    ensures (|version| == 0 || (version[0] != 'v' && version[0] != 'V')) ==> StripVersionPrefix(version) == version
    ensures |version| - 1 <= |StripVersionPrefix(version)| <= |version|
    ensures StripVersionPrefix(version) == version[|version| - |StripVersionPrefix(version)|..]
  {
    assert ("v" + version)[1..] == version;
    assert ("V" + version)[1..] == version;
  }

  /** update: the translated version of the first mod the identifier names, recorded as of `now`. */
  function UpdateCommand(r: Registry, args: seq<string>, now: int): Outcome
  {
    if |args| < 2 then Outcome(r, Say("❌ Use: `!mod update <mod_id> <versão>`"))
    else
      var identifier := args[0];
      match ModInteraction.FindMod(r.mods, identifier, r.nextId)
      case None => Outcome(r, Say("❌ Mod \"" + identifier + "\" não encontrado."))
      case Some(m) =>
        var v := StripVersionPrefix(args[1]);
        var mod := r.mods[m].(translatedVersion := Some(v), translatedVersionNormalized := Some(v),
                              translationDate := Some(now), isUpToDate := true);
        Outcome(r.(mods := r.mods[m := mod]), Say("✅ Mod **" + r.mods[m].primaryName + "** atualizado para v" + v + "!"))
  }

  /**
   * An update touches only the oldest mod the identifier names (by id, by name ignoring case,
   * or by slug): its translated version becomes the typed one without its `v`, dated `now`,
   * and it counts as up to date; every other field and every other mod stay as they were.
   */
  lemma UpdateMeaning(r: Registry, args: seq<string>, now: int)
    requires Fits(r)
    ensures var o := UpdateCommand(r, args, now);
      (|args| < 2 || ModInteraction.FindMod(r.mods, args[0], r.nextId).None?) ==> o.state == r
    ensures var o := UpdateCommand(r, args, now);
      |args| >= 2 && ModInteraction.FindMod(r.mods, args[0], r.nextId).Some? ==>
        var m := ModInteraction.FindMod(r.mods, args[0], r.nextId).value;
        var v := StripVersionPrefix(args[1]);
        m in r.mods
        && ModInteraction.Names(r.mods, m, args[0])
        && (forall k :: k in r.mods && k < m ==> !ModInteraction.Names(r.mods, k, args[0]))
        && o.state == r.(mods := o.state.mods) && o.state.mods.Keys == r.mods.Keys
        && (forall k :: k in r.mods && k != m ==> o.state.mods[k] == r.mods[k])
        && o.state.mods[m] == r.mods[m].(translatedVersion := Some(v), translatedVersionNormalized := Some(v),
                                         translationDate := Some(now), isUpToDate := true)
        && o.reply == Say("✅ Mod **" + r.mods[m].primaryName + "** atualizado para v" + v + "!")
  {
    if |args| >= 2 {
      ModInteraction.FindModMeaning(r.mods, args[0], r.nextId);
    }
  }

  // ---------------------------------------------------------------------------------------
  // alias add
  // ---------------------------------------------------------------------------------------

  /** alias add: the words after the mod id form the alias, normalised by the slug rule. */
  function AddAliasCommand(r: Registry, args: seq<string>): Outcome
  {
    if |args| < 2 then Outcome(r, Say("❌ Use: `!mod alias add <mod_id> <alias>`"))
    else
      var alias := Join(args[1..], " ");
      match ParseId(args[0])
      case None => Outcome(r, Say("❌ Erro ao adicionar alias. Verifique o ID do mod."))
      case Some(m) =>
        if m !in r.mods then Outcome(r, Say("❌ Erro ao adicionar alias. Verifique o ID do mod."))
        else
          var id := r.nextId;
          Outcome(r.(aliases := r.aliases[id := Alias(m, alias, Slugs.Slug(alias))], nextId := id + 1),
                  Say("✅ Alias \"" + alias + "\" adicionado!"))
  }

  /**
   * An alias is added exactly when the first word names a mod and a name follows; its normal
   * form uses only slug characters and normalising it again changes nothing.
   */
  lemma AddAliasMeaning(r: Registry, args: seq<string>)
    requires Fits(r)
    ensures var o := AddAliasCommand(r, args);
      (o.state != r <==> |args| >= 2 && ParseId(args[0]).Some? && ParseId(args[0]).value in r.mods)
      && (o.state != r ==>
            var alias := o.state.aliases[r.nextId];
            r.nextId !in r.aliases && o.state.aliases.Keys == r.aliases.Keys + {r.nextId}
            && o.state == r.(aliases := o.state.aliases, nextId := r.nextId + 1)
            && alias.modId == ParseId(args[0]).value && alias.name == Join(args[1..], " ")
            && AllSatisfy(alias.normalized, SpacedSource)
            && Slugs.Slug(alias.normalized) == alias.normalized)
  {
    var o := AddAliasCommand(r, args);
    if |args| >= 2 && ParseId(args[0]).Some? && ParseId(args[0]).value in r.mods {
      var alias := Join(args[1..], " ");
      assert r.nextId !in r.aliases;
      assert r.nextId in o.state.aliases.Keys;
      Slugs.SlugShape(alias);
      Slugs.SlugIdempotent(alias);
    }
  }

  // ---------------------------------------------------------------------------------------
  // Running a command
  // ---------------------------------------------------------------------------------------

  /** What every command other than `review` does to the registry and answers. */
  function Run(r: Registry, cmd: Command, now: int): Outcome
    requires !cmd.ShowReview?
  {
    match cmd
    case AuthorAdd(rest) => AddAuthor(r, rest)
    case AuthorList => Outcome(r, AuthorTable)
    case AuthorLink(rest) => LinkAuthor(r, rest)
    case AuthorUsage => Outcome(r, Say("❌ Use: `!mod author add/list/link`"))
    case AddMod(rest) => AddModCommand(r, rest)
    case Import(rest) => ImportCommand(r, rest)
    case Update(rest) => UpdateCommand(r, rest, now)
    case AliasAdd(rest) => AddAliasCommand(r, rest)
    case AliasUsage => Outcome(r, Say("❌ Use: `!mod alias add <mod_id> <alias>`"))
    case ListMods(filter) => Outcome(r, ModTable(filter))
    case Info(arg) =>
      if arg.None? || arg.value == "" then Outcome(r, Say("❌ Use: `!mod info <mod_id ou nome>`"))
      else Outcome(r, ModCard(arg.value))
    case Help => Outcome(r, HelpCard)
  }

  /** The registry a command leaves is still consistent, with the same feeds and no id given back. */
  predicate KeepsFit(r: Registry, s: Registry)
  {
    Fits(s) && s.feeds == r.feeds && s.nextId >= r.nextId
  }

  lemma AddAuthorKeepsFit(r: Registry, rest: seq<string>)
    requires Fits(r)
    ensures KeepsFit(r, AddAuthor(r, rest).state)
  {
    AddAuthorMeaning(r, rest);
  }

  lemma LinkAuthorKeepsFit(r: Registry, rest: seq<string>)
    requires Fits(r)
    ensures KeepsFit(r, LinkAuthor(r, rest).state)
  {
    LinkAuthorMeaning(r, rest);
  }

  lemma AddModKeepsFit(r: Registry, rest: seq<string>)
    requires Fits(r)
    ensures KeepsFit(r, AddModCommand(r, rest).state)
  {
    AddModMeaning(r, rest);
  }

  lemma ImportKeepsFit(r: Registry, rest: seq<string>)
    requires Fits(r)
    ensures KeepsFit(r, ImportCommand(r, rest).state)
  {
    ImportMeaning(r, rest);
  }

  lemma UpdateKeepsFit(r: Registry, rest: seq<string>, now: int)
    requires Fits(r)
    ensures KeepsFit(r, UpdateCommand(r, rest, now).state)
  {
    UpdateMeaning(r, rest, now);
  }

  lemma AddAliasKeepsFit(r: Registry, rest: seq<string>)
    requires Fits(r)
    ensures KeepsFit(r, AddAliasCommand(r, rest).state)
  {
    AddAliasMeaning(r, rest);
  }

  /**
   * No command touches the feeds, ids are never reused, and every id in use stays below the
   * next one.
   */
  lemma RunKeepsFit(r: Registry, cmd: Command, now: int)
    requires Fits(r) && !cmd.ShowReview?
    ensures KeepsFit(r, Run(r, cmd, now).state)
  {
    match cmd
    case AuthorAdd(rest) => AddAuthorKeepsFit(r, rest);
    case AuthorLink(rest) => LinkAuthorKeepsFit(r, rest);
    case AddMod(rest) => AddModKeepsFit(r, rest);
    case Import(rest) => ImportKeepsFit(r, rest);
    case Update(rest) => UpdateKeepsFit(r, rest, now);
    case AliasAdd(rest) => AddAliasKeepsFit(r, rest);
    case _ =>
  }

  /** The registry part of the store. */
  function RegistryOf(db: Store): Registry
    reads db
  {
    Registry(db.feeds, db.authors, db.mods, db.aliases, db.nextId)
  }

  /**
   * review: at most ten posts awaiting review are fetched and at most five are shown, the
   * newest ones; with none, a fixed text says so.
   */
  method ShowPending(db: Store) returns (reply: Reply)
    ensures reply == Say("✅ Nenhum post pendente de revisão!") <==> ModDetection.ReviewablePosts(db.posts) == {}
    ensures reply.ReviewList? ==>
      var shown := reply.shown;
      0 < reply.count <= 10 && |shown| == (if reply.count < 5 then reply.count else 5)
      && (forall i :: 0 <= i < |shown| ==>
            shown[i].postId in ModDetection.ReviewablePosts(db.posts) && shown[i].postId in db.posts
            && shown[i].pending == PendingOf(db.appearances, shown[i].postId))
      && (forall k :: k in ModDetection.ReviewablePosts(db.posts) && (forall i :: 0 <= i < |shown| ==> shown[i].postId != k) ==>
            |shown| == 5 && forall i :: 0 <= i < |shown| ==> db.posts[k].publishedAt <= db.posts[shown[i].postId].publishedAt)
  {
    var items := ModDetection.GetPostsNeedingReview(db, 10);
    reply := ReviewReply(items);
    ReviewReplyMeaning(db.posts, db.appearances, items);
  }

  /** The answer to `review` for the fetched items: a fixed text when there are none. */
  function ReviewReply(items: seq<ModDetection.ReviewItem>): Reply
  {
    if |items| == 0 then Say("✅ Nenhum post pendente de revisão!") else ReviewList(|items|, FirstFive(items))
  }

  /**
   * When a fetch of at most ten lists the newest pending posts, newest first, the answer says
   * there are none exactly when no post is pending, and otherwise shows the five newest.
   */
  lemma ReviewReplyMeaning(posts: map<string, Post>, appearances: map<Id, Appearance>, items: seq<ModDetection.ReviewItem>)
    requires |items| <= 10
    requires forall i :: 0 <= i < |items| ==>
      items[i].postId in ModDetection.ReviewablePosts(posts) && items[i].postId in posts
      && items[i].pending == PendingOf(appearances, items[i].postId)
    requires forall i, j :: 0 <= i < j < |items| ==>
      items[i].postId != items[j].postId
      && posts[items[i].postId].publishedAt >= posts[items[j].postId].publishedAt
    requires forall k :: k in ModDetection.ReviewablePosts(posts) && (forall i :: 0 <= i < |items| ==> items[i].postId != k) ==>
      |items| == 10 && forall i :: 0 <= i < |items| ==> posts[k].publishedAt <= posts[items[i].postId].publishedAt
    ensures var reply := ReviewReply(items);
      reply == Say("✅ Nenhum post pendente de revisão!") <==> ModDetection.ReviewablePosts(posts) == {}
    ensures var reply := ReviewReply(items);
      reply.ReviewList? ==>
      var shown := reply.shown;
      0 < reply.count <= 10 && |shown| == (if reply.count < 5 then reply.count else 5)
      && (forall i :: 0 <= i < |shown| ==>
            shown[i].postId in ModDetection.ReviewablePosts(posts) && shown[i].postId in posts
            && shown[i].pending == PendingOf(appearances, shown[i].postId))
      && (forall k :: k in ModDetection.ReviewablePosts(posts) && (forall i :: 0 <= i < |shown| ==> shown[i].postId != k) ==>
            |shown| == 5 && forall i :: 0 <= i < |shown| ==> posts[k].publishedAt <= posts[shown[i].postId].publishedAt)
  {
    NoneFetchedIffNonePending(posts, items);
    if |items| > 0 {
      var shown := FirstFive(items);
      assert ReviewReply(items) == ReviewList(|items|, shown);
      FirstFiveListed(posts, appearances, items);
      FirstFiveNewest(posts, items);
    }
  }

  /** A fetch that lists every pending post or ten of them comes back empty exactly when none is pending. */
  lemma NoneFetchedIffNonePending(posts: map<string, Post>, items: seq<ModDetection.ReviewItem>)
    requires forall i :: 0 <= i < |items| ==> items[i].postId in ModDetection.ReviewablePosts(posts)
    requires forall k :: k in ModDetection.ReviewablePosts(posts) && (forall i :: 0 <= i < |items| ==> items[i].postId != k) ==>
      |items| == 10
    ensures |items| == 0 <==> ModDetection.ReviewablePosts(posts) == {}
  {
    var pending := ModDetection.ReviewablePosts(posts);
    if |items| == 0 {
      assert forall k :: k !in pending;
    } else {
      assert items[0].postId in pending;
    }
  }

  /** The shown items are fetched ones: pending posts, each with its pending appearances. */
  lemma FirstFiveListed(posts: map<string, Post>, appearances: map<Id, Appearance>, items: seq<ModDetection.ReviewItem>)
    requires forall i :: 0 <= i < |items| ==>
      items[i].postId in ModDetection.ReviewablePosts(posts) && items[i].postId in posts
      && items[i].pending == PendingOf(appearances, items[i].postId)
    ensures var shown := FirstFive(items);
      forall i :: 0 <= i < |shown| ==>
        shown[i].postId in ModDetection.ReviewablePosts(posts) && shown[i].postId in posts
        && shown[i].pending == PendingOf(appearances, shown[i].postId)
  {
    var shown := FirstFive(items);
    forall i | 0 <= i < |shown|
      ensures shown[i].postId in ModDetection.ReviewablePosts(posts) && shown[i].postId in posts
        && shown[i].pending == PendingOf(appearances, shown[i].postId)
    {
      assert shown[i] == items[i];
    }
  }

  /** The items the review list shows: the first five. */
  function FirstFive(items: seq<ModDetection.ReviewItem>): (r: seq<ModDetection.ReviewItem>)
    ensures |r| == if |items| < 5 then |items| else 5
    ensures forall i :: 0 <= i < |r| ==> r[i] == items[i]
  {
    if |items| < 5 then items else items[..5]
  }

  /**
   * When a fetch of ten lists the newest pending posts, newest first, the first five of them are
   * the five newest: a pending post not shown is no newer than any shown one, and there are
   * five shown.
   */
  lemma FirstFiveNewest(posts: map<string, Post>, items: seq<ModDetection.ReviewItem>)
    requires forall i :: 0 <= i < |items| ==> items[i].postId in posts
    requires forall i, j :: 0 <= i < j < |items| ==>
      posts[items[i].postId].publishedAt >= posts[items[j].postId].publishedAt
    requires forall k :: k in ModDetection.ReviewablePosts(posts) && (forall i :: 0 <= i < |items| ==> items[i].postId != k) ==>
      |items| == 10 && forall i :: 0 <= i < |items| ==> posts[k].publishedAt <= posts[items[i].postId].publishedAt
    ensures var shown := FirstFive(items);
      forall k :: k in ModDetection.ReviewablePosts(posts) && (forall i :: 0 <= i < |shown| ==> shown[i].postId != k) ==>
        |shown| == 5 && forall i :: 0 <= i < |shown| ==> posts[k].publishedAt <= posts[shown[i].postId].publishedAt
  {
    var shown := FirstFive(items);
    forall k | k in ModDetection.ReviewablePosts(posts) && (forall i :: 0 <= i < |shown| ==> shown[i].postId != k)
      ensures |shown| == 5 && forall i :: 0 <= i < |shown| ==> posts[k].publishedAt <= posts[shown[i].postId].publishedAt
    {
      if j :| 0 <= j < |items| && items[j].postId == k {
        assert j >= |shown|;
      }
    }
  }

  /**
   * handleModCommand: `review` reads the posts; every other command updates the registry part
   * of the store as `Run` says and leaves the rest of the store alone.
   */
  method HandleModCommand(db: Store, args: seq<string>, now: int) returns (reply: Reply)
    requires db.Valid()
    modifies db
    ensures db.Valid()
    ensures Parse(args) == ShowReview ==> unchanged(db)
    ensures Parse(args) != ShowReview ==>
      var o := Run(old(RegistryOf(db)), Parse(args), now);
      RegistryOf(db) == o.state && reply == o.reply
      && db.posts == old(db.posts) && db.appearances == old(db.appearances)
      && db.history == old(db.history) && db.snapshots == old(db.snapshots)
  {
    var cmd := Parse(args);
    if cmd == ShowReview {
      reply := ShowPending(db);
    } else {
      var o := Run(RegistryOf(db), cmd, now);
      RunKeepsFit(RegistryOf(db), cmd, now);
      Apply(db, o.state);
      reply := o.reply;
    }
  }

  /** Writes a registry that keeps the store's feeds and ids back into the store. */
  method Apply(db: Store, s: Registry)
    requires db.Valid() && KeepsFit(RegistryOf(db), s)
    modifies db
    ensures db.Valid() && RegistryOf(db) == s
    ensures db.posts == old(db.posts) && db.appearances == old(db.appearances)
    ensures db.history == old(db.history) && db.snapshots == old(db.snapshots)
  {
    db.authors, db.mods, db.aliases, db.nextId := s.authors, s.mods, s.aliases, s.nextId;
  }
}
