/**
 * The Discord notification for a new Patreon post: the label of the post type, the cleaned and
 * truncated preview of its content, and which embed fields the notification carries.
 */
module PatreonNotification {
  import opened Wrappers
  import opened Text

  // ---------------------------------------------------------------------------------------
  // formatPostType
  // ---------------------------------------------------------------------------------------

  const DefaultPostLabel: string := "📄 Post"

  /** The label of a post type; the five known types have their own, anything else is a post. */
  function FormatPostType(postType: string): (r: string)
    ensures r == DefaultPostLabel <==> postType !in {"image_file", "video_file", "audio_file", "text_only", "link"}
  {
    if postType == "image_file" then "🖼️ Imagem"
    else if postType == "video_file" then "🎬 Vídeo"
    else if postType == "audio_file" then "🎵 Áudio"
    else if postType == "text_only" then "📝 Texto"
    else if postType == "link" then "🔗 Link"
    else DefaultPostLabel
  }

  // ---------------------------------------------------------------------------------------
  // truncateContent
  // ---------------------------------------------------------------------------------------

  /** No `<` is followed, anywhere later, by a `>`: nothing left that looks like a tag. */
  predicate NoTag(s: string)
  {
    forall i, j :: 0 <= i < j < |s| ==> !(s[i] == '<' && s[j] == '>')
  }

  /** The index of the first `>`. */
  function FirstClose(s: string): (k: nat)
    requires '>' in s
    ensures k < |s| && s[k] == '>' && forall j :: 0 <= j < k ==> s[j] != '>'
  {
    if s[0] == '>' then 0 else FirstClose(s[1..]) + 1
  }

  /**
   * `replace(/<[^>]*>/g, '')`: scanning from the left, a `<` starts a match that ends at the
   * first `>` after it; a `<` with no `>` after it stays.
   */
  function StripTags(s: string): (r: string)
    ensures |r| <= |s|
    decreases |s|
  {
    if |s| == 0 then ""
    else if s[0] == '<' && '>' in s then StripTags(s[FirstClose(s) + 1..])
    else [s[0]] + StripTags(s[1..])
  }

  /** The text after a run of leading newlines. */
  function DropNewlines(s: string): (r: string)
    ensures |r| <= |s| && r == s[|s| - |r|..]
    ensures |r| > 0 ==> r[0] != '\n'
  {
    if |s| > 0 && s[0] == '\n' then DropNewlines(s[1..]) else s
  }

  /** `replace(/\n+/g, ' ')`: each run of newlines becomes one space. */
  function CollapseNewlines(s: string): (r: string)
    ensures |r| <= |s|
    decreases |s|
  {
    if |s| == 0 then ""
    else if s[0] == '\n' then " " + CollapseNewlines(DropNewlines(s[1..]))
    else [s[0]] + CollapseNewlines(s[1..])
  }

  /** The cleaned text: tags removed, newline runs turned into spaces, then trimmed. */
  function Clean(content: string): string
  {
    Trim(CollapseNewlines(StripTags(content)))
  }

  /** truncateContent: the cleaned text, cut to `maxLength` characters plus "..." when longer. */
  function TruncateContent(content: string, maxLength: nat): string
  {
    var stripped := Clean(content);
    if |stripped| > maxLength then stripped[..maxLength] + "..." else stripped
  }

  /** Every character that stripping leaves is one of the text's. */
  lemma {:induction false} StripTagsChars(s: string)
    ensures forall k :: 0 <= k < |StripTags(s)| ==> StripTags(s)[k] in s
    decreases |s|
  {
    if |s| > 0 {
      var r := StripTags(s);
      if s[0] == '<' && '>' in s {
        var a := FirstClose(s) + 1;
        StripTagsChars(s[a..]);
        assert r == StripTags(s[a..]);
        CharsOfSuffix(s, a, r);
      } else {
        var rest := StripTags(s[1..]);
        StripTagsChars(s[1..]);
        assert r == [s[0]] + rest;
        CharsOfSuffix(s, 1, rest);
        forall k | 0 <= k < |r|
          ensures r[k] in s
        {
          if k > 0 {
            assert r[k] == rest[k - 1];
          }
        }
      }
    }
  }

  /** A text whose characters all occur in a suffix of `s` has its characters in `s`. */
  lemma CharsOfSuffix(s: string, a: nat, r: string)
    requires a <= |s| && forall k :: 0 <= k < |r| ==> r[k] in s[a..]
    ensures forall k :: 0 <= k < |r| ==> r[k] in s
  {
    forall k | 0 <= k < |r|
      ensures r[k] in s
    {
      var t := s[a..];
      assert r[k] in t;
      var m :| 0 <= m < |t| && t[m] == r[k];
      assert s[a + m] == r[k];
    }
  }

  /** After stripping, no `<` is followed by a `>`; text without `<` is left as it is. */
  lemma {:induction false} StripTagsMeaning(s: string)
    ensures NoTag(StripTags(s))
    ensures '<' !in s ==> StripTags(s) == s
    decreases |s|
  {
    if |s| > 0 {
      if s[0] == '<' && '>' in s {
        StripTagsMeaning(s[FirstClose(s) + 1..]);
      } else {
        var rest := StripTags(s[1..]);
        StripTagsMeaning(s[1..]);
        StripTagsChars(s[1..]);
        var r := [s[0]] + rest;
        forall i, j | 0 <= i < j < |r|
          ensures !(r[i] == '<' && r[j] == '>')
        {
          if i == 0 && s[0] == '<' {
            assert r[j] == rest[j - 1];
            assert r[j] in s[1..];
          } else if i > 0 {
            assert r[i] == rest[i - 1] && r[j] == rest[j - 1];
          }
        }
        if '<' !in s {
          assert s == [s[0]] + s[1..];
        }
      }
    }
  }

  /** What remains after the first character, or after the first run of newlines. */
  function CollapseTail(s: string): (t: string)
    requires |s| > 0
    ensures |t| < |s| && t == s[|s| - |t|..]
  {
    if s[0] == '\n' then DropNewlines(s[1..]) else s[1..]
  }

  /** One step of collapsing: the first character, or a space for a newline run, then the rest. */
  lemma CollapseStep(s: string)
    requires |s| > 0
    ensures CollapseNewlines(s) == [if s[0] == '\n' then ' ' else s[0]] + CollapseNewlines(CollapseTail(s))
  {
  }

  /** A character of what follows the first step comes from the text after its first character. */
  lemma TailCharsFromRest(s: string, c: char)
    requires |s| > 0 && c in CollapseTail(s)
    ensures c in s[1..]
  {
    var t := CollapseTail(s);
    var m :| 0 <= m < |t| && t[m] == c;
    assert s[1..][|s| - |t| + m - 1] == c;
  }

  /** Where the characters of a text built as `[h] + rest` come from, given where those of `rest` do. */
  lemma ConsChars(s: string, t: string, h: char, rest: string)
    requires |s| > 0 && h != '\n' && (h == ' ' || h == s[0])
    requires |t| > 0 ==> t == CollapseTail(s)
    requires |t| == 0 ==> |rest| == 0
    requires '\n' !in rest
    requires |rest| > 0 ==> rest[0] == ' ' || rest[0] == t[0]
    requires forall k :: 0 < k < |rest| ==> rest[k] == ' ' || rest[k] in t[1..]
    ensures '\n' !in [h] + rest
    ensures forall k :: 0 < k < |[h] + rest| ==> ([h] + rest)[k] == ' ' || ([h] + rest)[k] in s[1..]
  {
    var r := [h] + rest;
    forall k | 0 < k < |r|
      ensures r[k] == ' ' || r[k] in s[1..]
    {
      assert r[k] == rest[k - 1];
      if r[k] != ' ' {
        if k == 1 {
          assert r[k] == t[0];
        } else {
          assert r[k] in t[1..];
        }
        assert r[k] in t;
        TailCharsFromRest(s, r[k]);
      }
    }
  }

  /**
   * Collapsing leaves no newline; its first character is a space or the text's first, and every
   * later one is a space or comes from the rest of the text.
   */
  lemma {:induction false} CollapseChars(s: string)
    ensures '\n' !in CollapseNewlines(s)
    ensures |CollapseNewlines(s)| > 0 ==> CollapseNewlines(s)[0] == ' ' || CollapseNewlines(s)[0] == s[0]
    ensures forall k :: 0 < k < |CollapseNewlines(s)| ==> CollapseNewlines(s)[k] == ' ' || CollapseNewlines(s)[k] in s[1..]
    decreases |s|
  {
    if |s| > 0 {
      var t := CollapseTail(s);
      CollapseStep(s);
      CollapseChars(t);
      ConsChars(s, t, if s[0] == '\n' then ' ' else s[0], CollapseNewlines(t));
    }
  }

  /** `[h] + rest` has no tag when `rest` has none and `h` is no `<` before a `>` of `rest`. */
  lemma ConsNoTag(s: string, h: char, rest: string)
    requires |s| > 0 && NoTag(s) && (h == ' ' || h == s[0]) && NoTag(rest)
    requires forall k :: 0 <= k < |rest| ==> rest[k] == ' ' || rest[k] in s[1..]
    ensures NoTag([h] + rest)
  {
    var r := [h] + rest;
    forall i, j | 0 <= i < j < |r|
      ensures !(r[i] == '<' && r[j] == '>')
    {
      if i == 0 {
        assert r[j] == rest[j - 1];
      } else {
        assert r[i] == rest[i - 1] && r[j] == rest[j - 1];
      }
    }
  }

  /** Collapsing makes no tag out of text that has none. */
  lemma {:induction false} CollapseNoTag(s: string)
    requires NoTag(s)
    ensures NoTag(CollapseNewlines(s))
    decreases |s|
  {
    if |s| > 0 {
      var t := CollapseTail(s);
      CollapseStep(s);
      SliceKeeps(s, |s| - |t|, |s|);
      CollapseNoTag(t);
      CollapseChars(s);
      var rest := CollapseNewlines(t);
      assert forall k :: 0 <= k < |rest| ==> rest[k] == CollapseNewlines(s)[k + 1];
      ConsNoTag(s, if s[0] == '\n' then ' ' else s[0], rest);
    }
  }

  /** Text without newlines is left as it is. */
  lemma {:induction false} CollapseIdentity(s: string)
    requires '\n' !in s
    ensures CollapseNewlines(s) == s
    decreases |s|
  {
    if |s| > 0 {
      CollapseStep(s);
      assert s[1..] == CollapseTail(s);
      CollapseIdentity(s[1..]);
      assert s == [s[0]] + s[1..];
    }
  }

  /** A slice keeps the two properties. */
  lemma SliceKeeps(s: string, a: nat, b: nat)
    requires a <= b <= |s|
    ensures NoTag(s) ==> NoTag(s[a..b])
    ensures '\n' !in s ==> '\n' !in s[a..b]
  {
    if NoTag(s) {
      forall i, j | 0 <= i < j < b - a
        ensures !(s[a..b][i] == '<' && s[a..b][j] == '>')
      {
        assert s[a..b][i] == s[a + i] && s[a..b][j] == s[a + j];
      }
    }
  }

  /** Trimming is a slice, so it keeps the two properties. */
  lemma TrimKeeps(s: string)
    ensures NoTag(s) ==> NoTag(Trim(s))
    ensures '\n' !in s ==> '\n' !in Trim(s)
  {
    var t := TrimStart(s);
    TrimStartMeaning(s);
    SliceKeeps(s, |s| - |t|, |s|);
    TrimEndMeaning(t);
    SliceKeeps(t, 0, |TrimEnd(t)|);
  }

  /** The cleaned text has no tag and no newline. */
  lemma CleanMeaning(content: string)
    ensures NoTag(Clean(content)) && '\n' !in Clean(content)
  {
    StripTagsMeaning(content);
    CollapseChars(StripTags(content));
    CollapseNoTag(StripTags(content));
    TrimKeeps(CollapseNewlines(StripTags(content)));
  }

  /**
   * The preview is the cleaned text when it fits and otherwise its first `maxLength`
   * characters followed by "...", so it is at most `maxLength + 3` long; it holds no tag and no
   * newline either way.
   */
  lemma TruncateContentMeaning(content: string, maxLength: nat)
    ensures var r, c := TruncateContent(content, maxLength), Clean(content);
      |r| <= maxLength + 3
      && (|c| <= maxLength ==> r == c)
      && (|c| > maxLength ==> |r| == maxLength + 3 && r[..maxLength] == c[..maxLength] && r[maxLength..] == "...")
      && NoTag(r) && '\n' !in r
  {
    var c := Clean(content);
    CleanMeaning(content);
    if |c| > maxLength {
      var r := c[..maxLength] + "...";
      SliceKeeps(c, 0, maxLength);
      forall i, j | 0 <= i < j < |r|
        ensures !(r[i] == '<' && r[j] == '>')
      {
        if j >= maxLength {
          assert r[j] == '.';
        }
      }
      assert r[..maxLength] == c[..maxLength];
    }
  }

  // ---------------------------------------------------------------------------------------
  // sendNewPostNotification
  // ---------------------------------------------------------------------------------------

  datatype PostAttributes = PostAttributes(
    title: string, content: Option<string>, url: string, postType: string,
    minCentsPledgedToView: Option<nat>)

  datatype EmbedField = EmbedField(name: string, value: string, inline: bool)

  /** The message sent to the channel. */
  datatype Notification = Notification(content: string, title: string, description: string, url: string, footer: string, color: nat, fields: seq<EmbedField>)

  const PreviewLength: nat := 200
  const NotificationColor: nat := 0xff424d

  /** A value below 100 written with two digits. */
  function TwoDigits(n: nat): string
    requires n < 100
  {
    [DigitChar(n / 10), DigitChar(n % 10)]
  }

  /** `$` and the pledge in dollars with two decimals, from whole cents. */
  function DollarAmount(cents: nat): string
  {
    "$" + NatToString(cents / 100) + "." + TwoDigits(cents % 100)
  }

  /**
   * The pledge reads back: a dollar sign, then the dollars, a point and two digits of cents, and
   * the digits around the point together are the number of cents.
   */
  lemma DollarAmountMeaning(cents: nat)
    ensures var s := DollarAmount(cents);
      |s| >= 5 && s[0] == '$' && s[|s| - 3] == '.'
      && AllDigits(s[1..|s| - 3]) && AllDigits(s[|s| - 2..])
      && DigitsValue(s[1..|s| - 3] + s[|s| - 2..]) == cents
  {
    var d := NatToString(cents / 100);
    var t := TwoDigits(cents % 100);
    var s := DollarAmount(cents);
    assert s == "$" + d + "." + t;
    assert s[1..|s| - 3] == d && s[|s| - 2..] == t;
    ValueOfNatToString(cents / 100);
    ValueOfTwoMore(d, cents % 100);
  }

  /** Two more digits multiply the value by a hundred and add theirs. */
  lemma ValueOfTwoMore(d: string, n: nat)
    requires AllDigits(d) && n < 100
    ensures AllDigits(d + TwoDigits(n)) && DigitsValue(d + TwoDigits(n)) == DigitsValue(d) * 100 + n
  {
    var t := TwoDigits(n);
    var u := d + t;
    assert u[..|u| - 1] == d + [t[0]] && (d + [t[0]])[..|d|] == d;
    assert DigitsValue(d + [t[0]]) == DigitsValue(d) * 10 + n / 10;
  }

  /** Discord's relative timestamp of a publication time in whole seconds. */
  function RelativeTime(seconds: nat): string
  {
    "<t:" + NatToString(seconds) + ":R>"
  }

  /** The fields of the embed: type and date, then the tier when there is one, then the preview. */
  function NotificationFields(post: PostAttributes, publishedSeconds: nat): seq<EmbedField>
  {
    [EmbedField("📝 Tipo", FormatPostType(post.postType), true),
     EmbedField("📅 Publicado", RelativeTime(publishedSeconds), true)]
    + (if post.minCentsPledgedToView.Some? && post.minCentsPledgedToView.value != 0
       then [EmbedField("💎 Tier Mínimo", DollarAmount(post.minCentsPledgedToView.value), true)] else [])
    + (if post.content.Some? && post.content.value != ""
       then [EmbedField("📄 Prévia", TruncateContent(post.content.value, PreviewLength), false)] else [])
  }

  /**
   * sendNewPostNotification: nothing is sent when the channel is not in the cache; a failure to
   * send is only logged, so the caller never sees an error.
   */
  function SendNewPostNotification(channelFound: bool, post: PostAttributes, creatorName: string, publishedSeconds: nat): Option<Notification>
  {
    if !channelFound then None
    else Some(Notification(
      "🔔 **Nova atualização detectada!**",
      "🎨 Novo Post no Patreon - " + creatorName,
      "**" + post.title + "**",
      post.url,
      "Clique no título para ver o post completo",
      NotificationColor,
      NotificationFields(post, publishedSeconds)))
  }

  /**
   * The embed always starts with the type and the date; the tier field is there exactly when a
   * non-zero minimum pledge is set, the preview exactly when there is content, and the preview
   * is the last field and at most 203 characters long.
   */
  lemma NotificationFieldsMeaning(post: PostAttributes, publishedSeconds: nat)
    ensures var fs := NotificationFields(post, publishedSeconds);
      var hasTier := post.minCentsPledgedToView.Some? && post.minCentsPledgedToView.value != 0;
      var hasPreview := post.content.Some? && post.content.value != "";
      |fs| == 2 + (if hasTier then 1 else 0) + (if hasPreview then 1 else 0)
      && fs[0] == EmbedField("📝 Tipo", FormatPostType(post.postType), true)
      && fs[1].name == "📅 Publicado"
      && (hasTier ==> fs[2].name == "💎 Tier Mínimo")
      && (hasPreview ==> fs[|fs| - 1] == EmbedField("📄 Prévia", TruncateContent(post.content.value, 200), false)
                         && |fs[|fs| - 1].value| <= 203)
  {
    if post.content.Some? && post.content.value != "" {
      TruncateContentMeaning(post.content.value, PreviewLength);
    }
  }

  /**
   * Nothing is sent without the channel; with it, the embed names the creator, bolds the title,
   * links the post and carries the fields above, whatever the post holds.
   */
  lemma SendNewPostNotificationMeaning(channelFound: bool, post: PostAttributes, creatorName: string, publishedSeconds: nat)
    ensures var r := SendNewPostNotification(channelFound, post, creatorName, publishedSeconds);
      (r.None? <==> !channelFound)
      && (r.Some? ==>
            EndsWith(r.value.title, creatorName) && r.value.url == post.url
            && r.value.description == "**" + post.title + "**"
            && r.value.color == 0xff424d
            && r.value.fields[0].value == FormatPostType(post.postType)
            && |r.value.fields| >= 2)
  {
    NotificationFieldsMeaning(post, publishedSeconds);
  }
}
