/**
 * Mod detection for a stored post: a keyword gate, an extraction request, and for every mod the
 * extraction names, a match against the feed author's active mods (exact, then alias, then a
 * fuzzy suggestion) and an appearance row whose review flags follow from the match.
 */
module ModDetection {
  import opened Wrappers
  import opened Text
  import opened Normalization
  import opened Db
  import Groq

  /** The words whose presence in the lowercased "title content" sends a post to extraction. */
  const Keywords: seq<string> := ["update", "mod", "download", ".package", "new version", "fixed", "released"]

  const FuzzyThreshold: real := 0.80
  const ExactConfidence: real := 1.0
  const AliasConfidence: real := 0.95

  /** The confidence from which an appearance is stored as verified. */
  const VerifiedFrom: real := 0.95

  /** Appearances expire fifteen minutes after they are written. */
  const ExpiryWindow: int := 15 * 60 * 1000

  // ---------------------------------------------------------------------------------------
  // checkKeywords
  // ---------------------------------------------------------------------------------------

  /** checkKeywords: some keyword occurs in the lowercased `title + " " + content`. */
  predicate CheckKeywords(title: string, content: string)
  {
    exists i :: 0 <= i < |Keywords| && Contains(Lower(title + " " + content), Keywords[i])
  }

  /**
   * The gate opens exactly when one of the seven keywords occurs somewhere in the lowercased
   * text, so capitalisation in the title or content does not matter.
   */
  lemma CheckKeywordsMeaning(title: string, content: string)
    ensures CheckKeywords(title, content) <==>
      exists i, k :: 0 <= i < |Keywords| && OccursAt(Lower(title + " " + content), Keywords[i], k)
    ensures CheckKeywords(title, content) == CheckKeywords(Lower(title), Lower(content))
  {
    var t := Lower(title + " " + content);
    forall i | 0 <= i < |Keywords|
      ensures Contains(t, Keywords[i]) <==> exists k :: OccursAt(t, Keywords[i], k)
    {
      ContainsIff(t, Keywords[i]);
    }
    LowerConcatIdle(title, content);
  }

  /** Lowercasing the parts first gives the same lowercased text. */
  lemma LowerConcatIdle(title: string, content: string)
    ensures Lower(Lower(title) + " " + Lower(content)) == Lower(title + " " + content)
  {
    var a := Lower(Lower(title) + " " + Lower(content));
    var b := Lower(title + " " + content);
    assert |a| == |b|;
    forall i | 0 <= i < |a|
      ensures a[i] == b[i]
    {
      if i < |title| {
        assert (Lower(title) + " " + Lower(content))[i] == Lower(title)[i];
        assert (title + " " + content)[i] == title[i];
      } else if i == |title| {
        assert (Lower(title) + " " + Lower(content))[i] == ' ';
        assert (title + " " + content)[i] == ' ';
      } else {
        assert (Lower(title) + " " + Lower(content))[i] == Lower(content)[i - |title| - 1];
        assert (title + " " + content)[i] == content[i - |title| - 1];
      }
    }
  }

  // ---------------------------------------------------------------------------------------
  // findModMatch
  // ---------------------------------------------------------------------------------------

  /** A mod the detection may match: an active mod of the feed's author, with its aliases' normal forms. */
  datatype Candidate = Candidate(id: Id, primaryName: string, slug: string, normalizedName: string, aliases: set<string>)

  /** A match: a linked mod, or none with an optional suggestion; and the confidence. */
  datatype Match = Match(modId: Option<Id>, confidence: real, suggestion: Option<Id>)

  /** `find`: the position of the first element satisfying `p`. */
  function FirstWhere<T>(s: seq<T>, p: T -> bool): (r: Option<nat>)
    ensures r.Some? ==> r.value < |s| && p(s[r.value])
  {
    if |s| == 0 then None
    else if p(s[0]) then Some(0)
    else
      var rest := FirstWhere(s[1..], p);
      if rest.Some? then Some(rest.value + 1) else None
  }

  /** `find` gives none exactly when nothing satisfies `p`, and otherwise the first that does. */
  lemma {:induction false} FirstWhereMeaning<T>(s: seq<T>, p: T -> bool)
    ensures FirstWhere(s, p).None? <==> forall i :: 0 <= i < |s| ==> !p(s[i])
    ensures FirstWhere(s, p).Some? ==> forall i :: 0 <= i < FirstWhere(s, p).value ==> !p(s[i])
  {
    if |s| > 0 && !p(s[0]) {
      FirstWhereMeaning(s[1..], p);
      assert forall i :: 1 <= i < |s| ==> s[i] == s[1..][i - 1];
    }
  }

  predicate ExactlyNamed(c: Candidate, name: string)
  {
    c.slug == name || c.normalizedName == name
  }

  predicate AliasNamed(c: Candidate, name: string)
  {
    name in c.aliases
  }

  /** The similarity of the name to each candidate's normalized name, in list order. */
  function Scores(name: string, cands: seq<Candidate>): (r: seq<real>)
    ensures |r| == |cands|
  {
    seq(|cands|, i requires 0 <= i < |cands| => Similarity(name, cands[i].normalizedName))
  }

  /**
   * The position the fuzzy loop settles on: a later score replaces the best one only when it is
   * strictly greater and reaches the threshold; the initial best is 0.
   */
  function Best(scores: seq<real>): (r: Option<nat>)
    ensures r.Some? ==> r.value < |scores|
  {
    if |scores| == 0 then None
    else
      var before := Best(scores[..|scores| - 1]);
      var current := if before.Some? then scores[before.value] else 0.0;
      var last := scores[|scores| - 1];
      if last > current && last >= FuzzyThreshold then Some(|scores| - 1) else before
  }

  /**
   * There is no suggestion exactly when every score is below the threshold; a suggestion reaches
   * the threshold, no score exceeds it, and every earlier score is strictly smaller, so it is
   * the earliest maximum.
   */
  lemma {:induction false} BestMeaning(scores: seq<real>)
    ensures Best(scores).None? <==> forall j :: 0 <= j < |scores| ==> scores[j] < FuzzyThreshold
    ensures Best(scores).Some? ==>
      var i := Best(scores).value;
      scores[i] >= FuzzyThreshold
      && (forall j :: 0 <= j < |scores| ==> scores[j] <= scores[i])
      && (forall j :: 0 <= j < i ==> scores[j] < scores[i])
  {
    if |scores| > 0 {
      var front := scores[..|scores| - 1];
      BestMeaning(front);
      assert forall j :: 0 <= j < |front| ==> front[j] == scores[j];
    }
  }

  /** findModMatch, as the result it computes. */
  function MatchOf(name: string, cands: seq<Candidate>): Match
  {
    var exact := FirstWhere(cands, c => ExactlyNamed(c, name));
    var alias := FirstWhere(cands, c => AliasNamed(c, name));
    if exact.Some? then Match(Some(cands[exact.value].id), ExactConfidence, None)
    else if alias.Some? then Match(Some(cands[alias.value].id), AliasConfidence, None)
    else
      var best := Best(Scores(name, cands));
      if best.Some? then Match(None, Scores(name, cands)[best.value], Some(cands[best.value].id))
      else Match(None, 0.0, None)
  }

  /**
   * The resolution order: the first candidate whose slug or normalized name equals the name
   * links with confidence 1.0; failing that, the first with an alias of that normal form links
   * with 0.95; failing that, nothing is linked, and the confidence is 0 without a suggestion or
   * the earliest highest similarity, at least 0.80, with the suggested candidate.
   */
  lemma MatchOfMeaning(name: string, cands: seq<Candidate>)
    ensures var m := MatchOf(name, cands);
      ((exists i :: 0 <= i < |cands| && ExactlyNamed(cands[i], name)) ==>
         m.confidence == ExactConfidence && m.suggestion.None?
         && (exists i :: 0 <= i < |cands| && ExactlyNamed(cands[i], name) && m.modId == Some(cands[i].id)
              && forall j :: 0 <= j < i ==> !ExactlyNamed(cands[j], name)))
      && ((forall i :: 0 <= i < |cands| ==> !ExactlyNamed(cands[i], name))
          && (exists i :: 0 <= i < |cands| && AliasNamed(cands[i], name)) ==>
         m.confidence == AliasConfidence && m.suggestion.None?
         && (exists i :: 0 <= i < |cands| && AliasNamed(cands[i], name) && m.modId == Some(cands[i].id)
              && forall j :: 0 <= j < i ==> !AliasNamed(cands[j], name)))
      && ((forall i :: 0 <= i < |cands| ==> !ExactlyNamed(cands[i], name) && !AliasNamed(cands[i], name)) ==>
         m.modId.None?
         && (m.suggestion.None? <==> forall j :: 0 <= j < |cands| ==> Similarity(name, cands[j].normalizedName) < FuzzyThreshold)
         && (m.suggestion.None? ==> m.confidence == 0.0)
         && (m.suggestion.Some? ==>
               exists i :: 0 <= i < |cands| && m.suggestion == Some(cands[i].id)
                 && m.confidence == Similarity(name, cands[i].normalizedName) >= FuzzyThreshold
                 && (forall j :: 0 <= j < |cands| ==> Similarity(name, cands[j].normalizedName) <= m.confidence)
                 && (forall j :: 0 <= j < i ==> Similarity(name, cands[j].normalizedName) < m.confidence)))
  {
    FirstWhereMeaning(cands, c => ExactlyNamed(c, name));
    FirstWhereMeaning(cands, c => AliasNamed(c, name));
    BestMeaning(Scores(name, cands));
    assert forall j :: 0 <= j < |cands| ==> Scores(name, cands)[j] == Similarity(name, cands[j].normalizedName);
  }

  /** The fuzzy loop of findModMatch: `bestMatch` is replaced by a strictly better score at or above 0.80. */
  method FuzzyMatch(name: string, cands: seq<Candidate>) returns (best: Match)
    ensures var b := Best(Scores(name, cands));
      best == if b.Some? then Match(None, Scores(name, cands)[b.value], Some(cands[b.value].id)) else Match(None, 0.0, None)
  {
    best := Match(None, 0.0, None);
    ghost var scores := Scores(name, cands);
    var i := 0;
    while i < |cands|
      invariant 0 <= i <= |cands|
      invariant var b := Best(scores[..i]);
        best == if b.Some? then Match(None, scores[b.value], Some(cands[b.value].id)) else Match(None, 0.0, None)
    {
      var similarity := Similarity(name, cands[i].normalizedName);
      assert scores[..i + 1][..i] == scores[..i];
      assert scores[..i + 1][i] == similarity;
      if similarity > best.confidence && similarity >= FuzzyThreshold {
        best := Match(None, similarity, Some(cands[i].id));
      }
      i := i + 1;
    }
    assert scores[..i] == scores;
  }

  /** findModMatch: an exact match, else an alias match, else the fuzzy loop's suggestion. */
  method FindModMatch(name: string, cands: seq<Candidate>) returns (m: Match)
    ensures m == MatchOf(name, cands)
  {
    var exact := FirstWhere(cands, c => ExactlyNamed(c, name));
    if exact.Some? {
      return Match(Some(cands[exact.value].id), ExactConfidence, None);
    }
    var alias := FirstWhere(cands, c => AliasNamed(c, name));
    if alias.Some? {
      return Match(Some(cands[alias.value].id), AliasConfidence, None);
    }
    m := FuzzyMatch(name, cands);
  }

  // ---------------------------------------------------------------------------------------
  // checkIfNeedsUpdate
  // ---------------------------------------------------------------------------------------

  /** The version a mod's translation is compared with: its normalized form, else the raw one. */
  function TranslatedBase(m: Mod): string
    requires Truthy(m.translatedVersion)
  {
    if Truthy(m.translatedVersionNormalized) then m.translatedVersionNormalized.value else m.translatedVersion.value
  }

  /** checkIfNeedsUpdate for the mod row the lookup found, if any. */
  function CheckIfNeedsUpdate(m: Option<Mod>, newVersion: string, publishedAt: int): bool
  {
    if m.None? then false
    else if !Truthy(m.value.translatedVersion) then true
    else
      var comparison := CompareVersions(newVersion, TranslatedBase(m.value));
      if comparison > 0 then true
      else if comparison == 0 && m.value.translationDate.Some? then publishedAt > m.value.translationDate.value
      else false
  }

  /**
   * A missing mod never needs an update and an untranslated one always does; otherwise a newer
   * version does, an older one does not, and the same version does exactly when the post is
   * later than a recorded translation date.
   */
  lemma CheckIfNeedsUpdateMeaning(m: Option<Mod>, newVersion: string, publishedAt: int)
    ensures m.None? ==> !CheckIfNeedsUpdate(m, newVersion, publishedAt)
    ensures m.Some? && !Truthy(m.value.translatedVersion) ==> CheckIfNeedsUpdate(m, newVersion, publishedAt)
    ensures m.Some? && Truthy(m.value.translatedVersion) ==>
      var base := TranslatedBase(m.value);
      (CompareVersions(base, newVersion) < 0 ==> CheckIfNeedsUpdate(m, newVersion, publishedAt))
      && (CompareVersions(base, newVersion) > 0 ==> !CheckIfNeedsUpdate(m, newVersion, publishedAt))
      && (VersionNumbers(base) == VersionNumbers(newVersion) ==>
            (CheckIfNeedsUpdate(m, newVersion, publishedAt) <==>
               m.value.translationDate.Some? && publishedAt > m.value.translationDate.value))
  {
    if m.Some? && Truthy(m.value.translatedVersion) {
      CompareVersionsMeaning(newVersion, TranslatedBase(m.value));
    }
  }

  // ---------------------------------------------------------------------------------------
  // analyzePost
  // ---------------------------------------------------------------------------------------

  /** The normal forms of a mod's aliases. */
  function AliasForms(aliases: map<Id, Alias>, modId: Id): set<string>
  {
    set k | k in aliases && aliases[k].modId == modId :: aliases[k].normalized
  }

  /** The active mods of an author, oldest first. */
  function ActiveModIds(mods: map<Id, Mod>, authorId: Id, n: nat): (r: seq<Id>)
    ensures forall i :: 0 <= i < |r| ==> r[i] in mods
  {
    Ascending((set k | k in mods && mods[k].authorId == authorId && mods[k].isActive), n)
  }

  /** The mods the detection may match for a feed: none without the feed or its author. */
  function Candidates(feeds: map<string, Feed>, authors: map<Id, Author>, mods: map<Id, Mod>,
                      aliases: map<Id, Alias>, n: nat, sourceId: string): seq<Candidate>
  {
    var author := FeedAuthor(authors, sourceId, n);
    if sourceId !in feeds || author.None? then []
    else
      var ids := ActiveModIds(mods, author.value, n);
      seq(|ids|, i requires 0 <= i < |ids| =>
        var m := mods[ids[i]];
        Candidate(ids[i], m.primaryName, m.slug, m.normalizedName, AliasForms(aliases, ids[i])))
  }

  /** The names given to the extraction as known mods. */
  function KnownNames(cands: seq<Candidate>): (r: seq<string>)
    ensures |r| == |cands|
  {
    seq(|cands|, i requires 0 <= i < |cands| => cands[i].primaryName)
  }

  /** The appearance row written for one detected mod. */
  function AppearanceFor(postId: string, d: Groq.DetectedMod, cands: seq<Candidate>, published: CalendarDate, now: int): Appearance
  {
    var normalizedName := NormalizeModName(d.name);
    var m := MatchOf(normalizedName, cands);
    Appearance(postId, m.modId, d.name, normalizedName, d.version, NormalizedVersion(d.version, published),
               d.isUpdate, d.isNewMod, d.downloadUrl,
               m.confidence >= VerifiedFrom, m.confidence < VerifiedFrom || m.modId.None?,
               m.confidence, now + ExpiryWindow, None, None)
  }

  /**
   * The review flags of an appearance: a linked mod (exact or alias) is stored verified and not
   * pending and is one of the candidates; a suggestion scoring 0.95 or more is stored verified
   * and still pending; anything weaker is stored unverified and pending; the confidence is 0,
   * or at least 0.80.
   */
  lemma AppearanceFlags(postId: string, d: Groq.DetectedMod, cands: seq<Candidate>, published: CalendarDate, now: int)
    ensures var a := AppearanceFor(postId, d, cands, published, now);
      (a.verified <==> a.confidence >= VerifiedFrom)
      && (a.needsReview <==> a.confidence < VerifiedFrom || a.modId.None?)
      && (a.modId.Some? ==> a.verified && !a.needsReview && exists i :: 0 <= i < |cands| && cands[i].id == a.modId.value)
      && (a.modId.None? ==> a.needsReview)
      && (a.modId.None? && a.confidence >= VerifiedFrom ==> a.verified && a.needsReview)
      && (a.confidence == 0.0 || a.confidence >= FuzzyThreshold)
      && a.expiresAt == now + ExpiryWindow
  {
    MatchOfMeaning(NormalizeModName(d.name), cands);
  }

  /** `analysis.mods.some(m => !m.isUpdate && m.isNewMod)`. */
  predicate AnyNewMod(mods: seq<Groq.DetectedMod>)
  {
    exists i :: 0 <= i < |mods| && !mods[i].isUpdate && mods[i].isNewMod
  }

  /** The appearance rows of one analysis, in the order of the detected mods. */
  function Rows(postId: string, mods: seq<Groq.DetectedMod>, cands: seq<Candidate>, published: CalendarDate, now: int): (r: seq<Appearance>)
    ensures |r| == |mods|
  {
    seq(|mods|, j requires 0 <= j < |mods| => AppearanceFor(postId, mods[j], cands, published, now))
  }

  /** The appearances after `rows` are added under consecutive ids from `start`. */
  function AddRows(apps: map<Id, Appearance>, start: Id, rows: seq<Appearance>): map<Id, Appearance>
    decreases |rows|
  {
    if |rows| == 0 then apps
    else AddRows(apps, start, rows[..|rows| - 1])[start + |rows| - 1 := rows[|rows| - 1]]
  }

  /**
   * The added rows: the id `start + j` holds the j-th row, every other row is kept as it was,
   * and no other id appears.
   */
  lemma {:induction false} AddRowsMeaning(apps: map<Id, Appearance>, start: Id, rows: seq<Appearance>)
    ensures var r := AddRows(apps, start, rows);
      (forall k :: start <= k < start + |rows| ==> k in r && r[k] == rows[k - start])
      && (forall k :: k in apps && !(start <= k < start + |rows|) ==> k in r && r[k] == apps[k])
      && (forall k :: k in r ==> k in apps || start <= k < start + |rows|)
    decreases |rows|
  {
    if |rows| > 0 {
      var front := rows[..|rows| - 1];
      AddRowsMeaning(apps, start, front);
      assert forall j :: 0 <= j < |front| ==> front[j] == rows[j];
      var p := AddRows(apps, start, front);
      var last := start + |rows| - 1;
      var r := AddRows(apps, start, rows);
      assert r == p[last := rows[|rows| - 1]];
      forall k | start <= k < start + |rows|
        ensures k in r && r[k] == rows[k - start]
      {
        if k < last {
          assert k in p && p[k] == front[k - start];
          assert r[k] == p[k];
        }
      }
    }
  }

  /** The post row and the appearance rows an analysis of a stored post writes. */
  datatype Analyzed = Analyzed(post: Post, rows: seq<Appearance>)

  /**
   * What analyzePost writes for a stored post, given the extraction's analysis and a database
   * error raised while the appearances are written, if any.
   */
  function AnalysisResult(postId: string, post: Post, title: string, content: string, cands: seq<Candidate>,
                          analysis: Groq.Analysis, writeError: Option<string>, published: CalendarDate, now: int): Analyzed
  {
    if !CheckKeywords(title, content) then
      Analyzed(post.(analyzed := true, needsReview := false), [])
    else if |analysis.mods| == 0 then
      Analyzed(post.(analyzed := true, needsReview := false, rawAiResponse := Some(analysis)), [])
    else if writeError.Some? then
      Analyzed(post.(analyzed := true, needsReview := true, processingError := writeError), [])
    else
      Analyzed(post.(analyzed := true, needsReview := AnyNewMod(analysis.mods), rawAiResponse := Some(analysis)),
               Rows(postId, analysis.mods, cands, published, now))
  }

  /**
   * The post-level outcome: the post always ends analyzed and keeps its own data and announcement
   * state. It is pending exactly when the gate opened, something was detected, and either the
   * appearances could not be written or some detected mod is new rather than an update.
   * Appearances are written, one per detected mod and all for this post, exactly in that last
   * case; the error message is recorded exactly when the write failed; the response is recorded
   * whenever the gate opened and no write failed.
   */
  lemma AnalysisResultMeaning(postId: string, post: Post, title: string, content: string, cands: seq<Candidate>,
                              analysis: Groq.Analysis, writeError: Option<string>, published: CalendarDate, now: int)
    ensures var r := AnalysisResult(postId, post, title, content, cands, analysis, writeError, published, now);
      var detected := CheckKeywords(title, content) && |analysis.mods| > 0;
      r.post.analyzed
      && r.post.title == post.title && r.post.publishedAt == post.publishedAt
      && r.post.feedSourceId == post.feedSourceId && r.post.isNotified == post.isNotified
      && (r.post.needsReview <==> detected && (writeError.Some? || AnyNewMod(analysis.mods)))
      && (|r.rows| > 0 <==> detected && writeError.None?)
      && (|r.rows| > 0 ==> |r.rows| == |analysis.mods| && forall j :: 0 <= j < |r.rows| ==> r.rows[j].postId == postId)
      && (r.post.processingError != post.processingError ==> detected && r.post.processingError == writeError)
      && (detected && writeError.Some? ==> r.post.processingError == writeError && r.post.rawAiResponse == post.rawAiResponse)
      && (CheckKeywords(title, content) && !(detected && writeError.Some?) ==> r.post.rawAiResponse == Some(analysis))
  {
  }

  /**
   * analyzePost. The extraction answers and a database error raised while the appearances are
   * written are parameters; `published` is the post's local calendar date. The extraction is
   * requested exactly when the keyword gate opens, whether or not the store holds the post. For a
   * post the store does not hold every write then fails (the appearance rows name no post) and
   * nothing changes; otherwise the post and appearance rows become those of AnalysisResult, the
   * appearances under fresh consecutive ids.
   */
  method AnalyzePost(db: Store, postId: string, title: string, content: string, publishedAt: int,
                     published: CalendarDate, feedSourceId: string, now: int,
                     llm: (Groq.Prompt, nat) -> Groq.Reply, parse: string -> Option<Groq.Json>,
                     writeError: Option<string>)
    returns (r: Result<()>, extracted: bool)
    requires db.Valid()
    modifies db
    ensures db.Valid()
    ensures extracted == CheckKeywords(title, content)
    ensures postId !in old(db.posts) ==>
      r == Err(RecordNotFound) && db.posts == old(db.posts) && db.appearances == old(db.appearances)
      && db.nextId == old(db.nextId)
    ensures postId in old(db.posts) ==>
      var cands := Candidates(old(db.feeds), old(db.authors), old(db.mods), old(db.aliases), old(db.nextId), feedSourceId);
      var result := AnalysisResult(postId, old(db.posts)[postId], title, content, cands,
                                   Groq.Extracted(title, content, KnownNames(cands), llm, parse), writeError, published, now);
      r == Ok(())
      && db.posts == old(db.posts)[postId := result.post]
      && db.appearances == AddRows(old(db.appearances), old(db.nextId), result.rows)
      && db.nextId == old(db.nextId) + |result.rows|
    ensures unchanged(db`feeds, db`authors, db`mods, db`aliases, db`history, db`snapshots)
  {
    if !CheckKeywords(title, content) {
      if postId !in db.posts {
        return Err(RecordNotFound), false;
      }
      db.posts := db.posts[postId := db.posts[postId].(analyzed := true, needsReview := false)];
      return Ok(()), false;
    }
    extracted := true;
    var cands := Candidates(db.feeds, db.authors, db.mods, db.aliases, db.nextId, feedSourceId);
    var analysis, _, _ := Groq.AnalyzePatreonPost(title, content, KnownNames(cands), llm, parse);
    if postId !in db.posts {
      return Err(RecordNotFound), true;
    }
    var post := db.posts[postId];
    if |analysis.mods| == 0 {
      db.posts := db.posts[postId := post.(analyzed := true, needsReview := false, rawAiResponse := Some(analysis))];
      return Ok(()), true;
    }
    if writeError.Some? {
      db.posts := db.posts[postId := post.(analyzed := true, needsReview := true, processingError := writeError)];
      return Ok(()), true;
    }
    var rows := BuildRows(postId, analysis.mods, cands, published, now);
    InsertRows(db, rows);
    db.posts := db.posts[postId := post.(analyzed := true, needsReview := AnyNewMod(analysis.mods), rawAiResponse := Some(analysis))];
    r := Ok(());
  }

  /** The row analyzePost creates for one detected mod, from the normalized name and version and the match. */
  method BuildAppearance(postId: string, d: Groq.DetectedMod, cands: seq<Candidate>, published: CalendarDate, now: int)
    returns (row: Appearance)
    ensures row == AppearanceFor(postId, d, cands, published, now)
  {
    var normalizedName := NormalizeModName(d.name);
    var normalizedVersion := NormalizeVersion(d.version, published);
    var m := FindModMatch(normalizedName, cands);
    row := Appearance(postId, m.modId, d.name, normalizedName, d.version, normalizedVersion,
                      d.isUpdate, d.isNewMod, d.downloadUrl,
                      m.confidence >= VerifiedFrom, m.confidence < VerifiedFrom || m.modId.None?,
                      m.confidence, now + ExpiryWindow, None, None);
  }

  /** The rows of analyzePost's `map` over the detected mods, in their order. */
  method BuildRows(postId: string, mods: seq<Groq.DetectedMod>, cands: seq<Candidate>, published: CalendarDate, now: int)
    returns (rows: seq<Appearance>)
    ensures rows == Rows(postId, mods, cands, published, now)
  {
    ghost var want := Rows(postId, mods, cands, published, now);
    rows := [];
    var k := 0;
    while k < |mods|
      invariant 0 <= k <= |mods| && |rows| == k
      invariant rows == want[..k]
    {
      var row := BuildAppearance(postId, mods[k], cands, published, now);
      assert want[..k + 1] == want[..k] + [row];
      rows := rows + [row];
      k := k + 1;
    }
    assert want[..k] == want;
  }

  /** Writes the rows under fresh consecutive ids, one `create` each. */
  method InsertRows(db: Store, rows: seq<Appearance>)
    requires db.Valid()
    modifies db
    ensures db.Valid() && db.nextId == old(db.nextId) + |rows|
    ensures db.appearances == AddRows(old(db.appearances), old(db.nextId), rows)
    ensures unchanged(db`feeds, db`posts, db`authors, db`mods, db`aliases, db`history, db`snapshots)
  {
    var start := db.nextId;
    var k := 0;
    while k < |rows|
      invariant 0 <= k <= |rows|
      invariant db.Valid() && db.nextId == start + k
      invariant db.appearances == AddRows(old(db.appearances), start, rows[..k])
      invariant unchanged(db`feeds, db`posts, db`authors, db`mods, db`aliases, db`history, db`snapshots)
    {
      var id := db.NewId();
      assert rows[..k + 1][..k] == rows[..k];
      assert AddRows(old(db.appearances), start, rows[..k + 1]) == AddRows(old(db.appearances), start, rows[..k])[start + k := rows[k]];
      db.appearances := db.appearances[id := rows[k]];
      k := k + 1;
    }
    assert rows[..k] == rows;
  }

  // ---------------------------------------------------------------------------------------
  // getPostsNeedingReview
  // ---------------------------------------------------------------------------------------

  /** A post awaiting review, with its pending appearances. */
  datatype ReviewItem = ReviewItem(postId: string, pending: set<Id>)

  /** The posts awaiting review: analyzed and marked pending. */
  function ReviewablePosts(posts: map<string, Post>): set<string>
  {
    set k | k in posts && posts[k].needsReview && posts[k].analyzed
  }

  /**
   * getPostsNeedingReview: at most `limit` of the analyzed pending posts, newest first, each once,
   * each with its pending appearances; a pending post left out is no newer than any listed one,
   * and one is left out only when the limit is reached.
   */
  method GetPostsNeedingReview(db: Store, limit: nat) returns (items: seq<ReviewItem>)
    ensures |items| <= limit
    ensures forall i :: 0 <= i < |items| ==>
      items[i].postId in ReviewablePosts(db.posts) && items[i].postId in db.posts && items[i].pending == PendingOf(db.appearances, items[i].postId)
    ensures forall i, j :: 0 <= i < j < |items| ==>
      items[i].postId != items[j].postId
      && db.posts[items[i].postId].publishedAt >= db.posts[items[j].postId].publishedAt
    ensures forall k :: k in ReviewablePosts(db.posts) && (forall i :: 0 <= i < |items| ==> items[i].postId != k) ==>
      |items| == limit && forall i :: 0 <= i < |items| ==> db.posts[k].publishedAt <= db.posts[items[i].postId].publishedAt
  {
    var all := NewestFirst(db.posts, ReviewablePosts(db.posts));
    var n := if limit < |all| then limit else |all|;
    var ids := all[..n];
    var appearances := db.appearances;
    items := seq(n, i requires 0 <= i < n => ReviewItem(ids[i], PendingOf(appearances, ids[i])));
    assert forall i :: 0 <= i < n ==> items[i].postId == all[i];
    forall k | k in ReviewablePosts(db.posts) && (forall i :: 0 <= i < |items| ==> items[i].postId != k)
      ensures |items| == limit && forall i :: 0 <= i < |items| ==> db.posts[k].publishedAt <= db.posts[items[i].postId].publishedAt
    {
      var j :| 0 <= j < |all| && all[j] == k;
      assert j >= n;
    }
  }
}
