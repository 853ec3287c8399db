/**
 * The guild endpoints of the dashboard: the list of a guild's text channels, sorted by
 * position, and the message a user composes, whose button labels and URLs may carry the
 * placeholders `{user_id}` and `{user.id}`.
 */
module Guilds {
  import opened Wrappers
  import opened Text

  // ---------------------------------------------------------------------------------------
  // getGuildChannels
  // ---------------------------------------------------------------------------------------

  /** A channel as the endpoint reports it; `channelType` 0 is a guild text channel. */
  datatype GuildChannel = GuildChannel(id: string, name: string, channelType: int, position: int, parentId: Option<string>)

  /** `.filter(channel => channel?.type === 0)`: the fetched collection may hold empty slots. */
  function TextOnly(channels: seq<Option<GuildChannel>>): (r: seq<GuildChannel>)
    ensures forall c :: c in r <==> Some(c) in channels && c.channelType == 0
  {
    if |channels| == 0 then []
    else
      var init := channels[..|channels| - 1];
      var last := channels[|channels| - 1];
      assert channels == init + [last];
      TextOnly(init) + (if last.Some? && last.value.channelType == 0 then [last.value] else [])
  }

  /** Ascending by position. */
  predicate SortedByPosition(cs: seq<GuildChannel>)
  {
    forall i, j :: 0 <= i < j < |cs| ==> cs[i].position <= cs[j].position
  }

  /** Puts `c` after every channel whose position is not greater than its own. */
  function InsertByPosition(sorted: seq<GuildChannel>, c: GuildChannel): (r: seq<GuildChannel>)
    ensures multiset(r) == multiset(sorted) + multiset{c}
  {
    if |sorted| == 0 then [c]
    else
      var last := sorted[|sorted| - 1];
      var init := sorted[..|sorted| - 1];
      assert sorted == init + [last];
      if last.position <= c.position then sorted + [c]
      else InsertByPosition(init, c) + [last]
  }

  /** `.sort((a, b) => a.position - b.position)`, which is stable. */
  function SortByPosition(cs: seq<GuildChannel>): (r: seq<GuildChannel>)
    ensures multiset(r) == multiset(cs)
  {
    if |cs| == 0 then []
    else
      assert cs == cs[..|cs| - 1] + [cs[|cs| - 1]];
      InsertByPosition(SortByPosition(cs[..|cs| - 1]), cs[|cs| - 1])
  }

  /** getGuildChannels: the text channels, sorted by position. */
  function GetGuildChannels(channels: seq<Option<GuildChannel>>): seq<GuildChannel>
  {
    SortByPosition(TextOnly(channels))
  }

  /** The channels at one position, in list order: what a stable sort must keep. */
  function AtPosition(cs: seq<GuildChannel>, p: int): seq<GuildChannel>
  {
    if |cs| == 0 then []
    else AtPosition(cs[..|cs| - 1], p) + (if cs[|cs| - 1].position == p then [cs[|cs| - 1]] else [])
  }

  lemma {:induction false} AtPositionConcat(a: seq<GuildChannel>, b: seq<GuildChannel>, p: int)
    ensures AtPosition(a + b, p) == AtPosition(a, p) + AtPosition(b, p)
    decreases |b|
  {
    if |b| == 0 {
      assert a + b == a;
    } else {
      var b' := b[..|b| - 1];
      assert (a + b)[..|a + b| - 1] == a + b';
      AtPositionConcat(a, b', p);
    }
  }

  lemma {:induction false} InsertSorted(sorted: seq<GuildChannel>, c: GuildChannel)
    requires SortedByPosition(sorted)
    ensures SortedByPosition(InsertByPosition(sorted, c))
    decreases |sorted|
  {
    if |sorted| > 0 {
      var last := sorted[|sorted| - 1];
      var init := sorted[..|sorted| - 1];
      if last.position > c.position {
        InsertSorted(init, c);
        var r' := InsertByPosition(init, c);
        forall k | 0 <= k < |r'|
          ensures r'[k].position <= last.position
        {
          assert r'[k] in multiset(init) + multiset{c};
          if r'[k] in init {
            var m :| 0 <= m < |init| && init[m] == r'[k];
            assert sorted[m] == init[m];
          }
        }
        AppendSorted(r', last);
      } else {
        forall k | 0 <= k < |sorted|
          ensures sorted[k].position <= c.position
        {
        }
        AppendSorted(sorted, c);
      }
    }
  }

  lemma AppendSorted(cs: seq<GuildChannel>, c: GuildChannel)
    requires SortedByPosition(cs)
    requires forall k :: 0 <= k < |cs| ==> cs[k].position <= c.position
    ensures SortedByPosition(cs + [c])
  {
  }

  lemma AtPositionSingle(c: GuildChannel, p: int)
    ensures AtPosition([c], p) == if c.position == p then [c] else []
  {
    assert [c][..0] == [];
  }

  lemma {:induction false} InsertStable(sorted: seq<GuildChannel>, c: GuildChannel, p: int)
    ensures AtPosition(InsertByPosition(sorted, c), p) == AtPosition(sorted, p) + (if c.position == p then [c] else [])
    decreases |sorted|
  {
    AtPositionSingle(c, p);
    if |sorted| == 0 {
      assert AtPosition(sorted, p) == [];
    } else {
      var last := sorted[|sorted| - 1];
      var init := sorted[..|sorted| - 1];
      if last.position <= c.position {
        assert InsertByPosition(sorted, c) == sorted + [c];
        AtPositionConcat(sorted, [c], p);
      } else {
        var ins := InsertByPosition(init, c);
        var cPart := if c.position == p then [c] else [];
        var lastPart := if last.position == p then [last] else [];
        calc {
          AtPosition(InsertByPosition(sorted, c), p);
          { assert InsertByPosition(sorted, c) == ins + [last]; }
          AtPosition(ins + [last], p);
          { AtPositionConcat(ins, [last], p); AtPositionSingle(last, p); }
          AtPosition(ins, p) + lastPart;
          { InsertStable(init, c, p); }
          AtPosition(init, p) + cPart + lastPart;
          { assert cPart == [] || lastPart == []; }
          AtPosition(init, p) + lastPart + cPart;
          { assert AtPosition(sorted, p) == AtPosition(init, p) + lastPart; }
          AtPosition(sorted, p) + cPart;
        }
      }
    }
  }

  lemma {:induction false} SortSortedStable(cs: seq<GuildChannel>)
    ensures SortedByPosition(SortByPosition(cs))
    ensures forall p :: AtPosition(SortByPosition(cs), p) == AtPosition(cs, p)
  {
    if |cs| > 0 {
      var init := cs[..|cs| - 1];
      var last := cs[|cs| - 1];
      SortSortedStable(init);
      InsertSorted(SortByPosition(init), last);
      forall p
        ensures AtPosition(SortByPosition(cs), p) == AtPosition(cs, p)
      {
        InsertStable(SortByPosition(init), last, p);
      }
    }
  }

  /**
   * The endpoint lists exactly the text channels of the guild, in ascending position, and
   * channels sharing a position keep the order in which they were fetched.
   */
  lemma GetGuildChannelsMeaning(channels: seq<Option<GuildChannel>>)
    ensures var r := GetGuildChannels(channels);
      (forall c :: c in r <==> Some(c) in channels && c.channelType == 0)
      && SortedByPosition(r)
      && multiset(r) == multiset(TextOnly(channels))
      && (forall p :: AtPosition(r, p) == AtPosition(TextOnly(channels), p))
  {
    var t := TextOnly(channels);
    SortSortedStable(t);
    var r := GetGuildChannels(channels);
    forall c
      ensures c in r <==> c in t
    {
      assert c in r <==> c in multiset(r);
      assert c in t <==> c in multiset(t);
    }
  }

  // ---------------------------------------------------------------------------------------
  // sendMessage
  // ---------------------------------------------------------------------------------------

  const UserIdPlaceholder: string := "{user_id}"
  const UserDotIdPlaceholder: string := "{user.id}"
  const DefaultLabel: string := "Botão"
  const SecondaryStyle: int := 2
  const LinkStyle: int := 5

  /** A button as the dashboard sends it (`caption` is its label); an absent label or URL is "", an absent style 0. */
  datatype ButtonInput = ButtonInput(caption: string, url: string, style: int)

  /** The buttons of one action row of the request. */
  datatype ActionRowInput = ActionRowInput(components: seq<ButtonInput>)

  /** The request body; `embeds` are passed through untouched. */
  datatype SendMessageDto<E> = SendMessageDto(content: string, embeds: seq<E>, components: Option<seq<ActionRowInput>>)

  /** A built button: a link button has a URL (when one was given), any other a custom id. */
  datatype Button = Button(caption: string, style: int, url: Option<string>, customId: Option<string>)

  /** The message handed to the channel. */
  datatype OutgoingMessage<E> = OutgoingMessage(content: Option<string>, embeds: seq<E>, components: Option<seq<seq<Button>>>)

  /** `replacePlaceholders`: both spellings of the user-id placeholder become the user id. */
  function ReplacePlaceholders(text: string, userId: string): string
  {
    ReplaceAll(ReplaceAll(text, UserIdPlaceholder, userId), UserDotIdPlaceholder, userId)
  }

  /** `button_<row>_<index>_<timestamp>`. */
  function CustomId(rowIndex: nat, btnIndex: nat, now: nat): string
  {
    "button" + "_" + NatToString(rowIndex) + "_" + NatToString(btnIndex) + "_" + NatToString(now)
  }

  /** One button of the `forEach`. */
  function BuildButton(button: ButtonInput, rowIndex: nat, btnIndex: nat, userId: string, now: nat): (r: Button)
    ensures r.style == if button.style == 0 then SecondaryStyle else button.style
    ensures r.customId.Some? <==> button.style != LinkStyle
    ensures r.url.Some? <==> button.style == LinkStyle && button.url != ""
  {
    var caption := ReplacePlaceholders(if button.caption == "" then DefaultLabel else button.caption, userId);
    var style := if button.style == 0 then SecondaryStyle else button.style;
    if button.style == LinkStyle then
      Button(caption, style, if button.url != "" then Some(ReplacePlaceholders(button.url, userId)) else None, None)
    else
      Button(caption, style, None, Some(CustomId(rowIndex, btnIndex, now)))
  }

  /** The row built for one action row of the request. */
  function RowButtons(actionRow: ActionRowInput, rowIndex: nat, userId: string, now: nat): (r: seq<Button>)
    ensures |r| == |actionRow.components|
  {
    seq(|actionRow.components|, i requires 0 <= i < |actionRow.components| =>
      BuildButton(actionRow.components[i], rowIndex, i, userId, now))
  }

  /** The `forEach` that adds one built button per requested button to the row. */
  method BuildRow(actionRow: ActionRowInput, rowIndex: nat, userId: string, now: nat) returns (row: seq<Button>)
    ensures row == RowButtons(actionRow, rowIndex, userId, now)
  {
    row := [];
    for btnIndex := 0 to |actionRow.components|
      invariant |row| == btnIndex
      invariant forall i :: 0 <= i < btnIndex ==> row[i] == BuildButton(actionRow.components[i], rowIndex, i, userId, now)
    {
      row := row + [BuildButton(actionRow.components[btnIndex], rowIndex, btnIndex, userId, now)];
    }
  }

  /** `messageDto.components?.map(…)`. */
  function Components(rows: Option<seq<ActionRowInput>>, userId: string, now: nat): Option<seq<seq<Button>>>
  {
    match rows
    case None => None
    case Some(rs) => Some(seq(|rs|, i requires 0 <= i < |rs| => RowButtons(rs[i], i, userId, now)))
  }

  /**
   * sendMessage, given whether the guild and a text channel with the requested id were found;
   * `now` is the clock reading used in the custom ids.
   */
  function SendMessage<E>(guildFound: bool, textChannelFound: bool, dto: SendMessageDto<E>, userId: string, now: nat)
    : (r: Result<OutgoingMessage<E>>)
    ensures !guildFound ==> r == Err("Guild not found")
    ensures guildFound && !textChannelFound ==> r == Err("Channel not found or not a text channel")
    ensures r.Ok? ==> (r.value.content == None <==> dto.content == "") && r.value.embeds == dto.embeds
  {
    if !guildFound then Err("Guild not found")
    else if !textChannelFound then Err("Channel not found or not a text channel")
    else Ok(OutgoingMessage(if dto.content == "" then None else Some(dto.content), dto.embeds,
                            Components(dto.components, userId, now)))
  }

  // ---------------------------------------------------------------------------------------
  // Placeholders and custom ids
  // ---------------------------------------------------------------------------------------

  predicate NoBrace(s: string)
  {
    forall j :: 0 <= j < |s| ==> s[j] != '{'
  }

  lemma NoBraceInert(s: string, pat: string)
    requires NoBrace(s) && |pat| > 0 && pat[0] == '{'
    ensures Inert(s, pat)
  {
  }

  lemma PlaceholderFacts()
    ensures |UserIdPlaceholder| == 9 && UserIdPlaceholder[0] == '{'
    ensures |UserDotIdPlaceholder| == 9 && UserDotIdPlaceholder[0] == '{'
    ensures UserIdPlaceholder != UserDotIdPlaceholder
    ensures Inert(UserDotIdPlaceholder, UserIdPlaceholder)
  {
    assert UserIdPlaceholder[5] != UserDotIdPlaceholder[5];
    assert UserDotIdPlaceholder[..9] == UserDotIdPlaceholder;
  }

  /**
   * A label or URL written as text pieces without `{` around any mix of the two placeholders
   * comes out with the user id in every placeholder and the pieces unchanged, provided the
   * user id itself has no `{` (a Discord id is a string of digits).
   */
  lemma PlaceholdersFilled(pieces: seq<string>, holes: seq<string>, userId: string)
    requires |pieces| == |holes| + 1
    requires forall i :: 0 <= i < |pieces| ==> NoBrace(pieces[i])
    requires forall i :: 0 <= i < |holes| ==> holes[i] == UserIdPlaceholder || holes[i] == UserDotIdPlaceholder
    requires NoBrace(userId)
    ensures ReplacePlaceholders(Interleave(pieces, holes), userId)
         == Interleave(pieces, seq(|holes|, _ => userId))
  {
    PlaceholderFacts();
    forall i | 0 <= i < |pieces|
      ensures Inert(pieces[i], UserIdPlaceholder) && Inert(pieces[i], UserDotIdPlaceholder)
    {
      NoBraceInert(pieces[i], UserIdPlaceholder);
      NoBraceInert(pieces[i], UserDotIdPlaceholder);
    }
    ReplaceAllInterleave(pieces, holes, UserIdPlaceholder, userId);
    var holes1 := ReplaceHoles(holes, UserIdPlaceholder, userId);
    forall i | 0 <= i < |holes1|
      ensures holes1[i] == UserDotIdPlaceholder || Inert(holes1[i], UserDotIdPlaceholder)
    {
      if holes[i] == UserIdPlaceholder {
        NoBraceInert(userId, UserDotIdPlaceholder);
      }
    }
    ReplaceAllInterleave(pieces, holes1, UserDotIdPlaceholder, userId);
    assert ReplaceHoles(holes1, UserDotIdPlaceholder, userId) == seq(|holes|, _ => userId);
  }

  /** The custom id reads back as its four `_`-separated parts. */
  lemma CustomIdParts(rowIndex: nat, btnIndex: nat, now: nat)
    ensures Split(CustomId(rowIndex, btnIndex, now), '_')
         == ["button", NatToString(rowIndex), NatToString(btnIndex), NatToString(now)]
  {
    var a, b, c := NatToString(rowIndex), NatToString(btnIndex), NatToString(now);
    Join4("button", a, b, c, "_");
    DigitsWordsSplit(a, b, c);
  }

  lemma DigitsWordsSplit(a: string, b: string, c: string)
    requires AllDigits(a) && AllDigits(b) && AllDigits(c)
    ensures Split(Join(["button", a, b, c], "_"), '_') == ["button", a, b, c]
  {
    var ws := ["button", a, b, c];
    assert NoUnderscore(ws) by {
      assert forall j :: 0 <= j < |"button"| ==> "button"[j] != '_';
      DigitsNoUnderscore(a);
      DigitsNoUnderscore(b);
      DigitsNoUnderscore(c);
    }
    SplitJoin(ws, '_');
  }

  predicate NoUnderscore(ws: seq<string>)
  {
    forall i, j :: 0 <= i < |ws| && 0 <= j < |ws[i]| ==> ws[i][j] != '_'
  }

  lemma DigitsNoUnderscore(s: string)
    requires AllDigits(s)
    ensures forall j :: 0 <= j < |s| ==> s[j] != '_'
  {
  }

  lemma Join4(w: string, a: string, b: string, c: string, sep: string)
    ensures Join([w, a, b, c], sep) == w + sep + a + sep + b + sep + c
  {
    JoinCons(w, [a, b, c], sep);
    assert [w, a, b, c] == [w] + [a, b, c];
    Join3(a, b, c, sep);
  }

  /**
   * No two interactive buttons of a message share a custom id: the id determines the row, the
   * index within the row and the clock reading.
   */
  lemma CustomIdsDistinct(r1: nat, i1: nat, t1: nat, r2: nat, i2: nat, t2: nat)
    requires CustomId(r1, i1, t1) == CustomId(r2, i2, t2)
    ensures r1 == r2 && i1 == i2 && t1 == t2
  {
    CustomIdParts(r1, i1, t1);
    CustomIdParts(r2, i2, t2);
    var p1 := Split(CustomId(r1, i1, t1), '_');
    assert p1[1] == NatToString(r1) && p1[1] == NatToString(r2);
    assert p1[2] == NatToString(i1) && p1[2] == NatToString(i2);
    assert p1[3] == NatToString(t1) && p1[3] == NatToString(t2);
    ValueOfNatToString(r1);
    ValueOfNatToString(r2);
    ValueOfNatToString(i1);
    ValueOfNatToString(i2);
    ValueOfNatToString(t1);
    ValueOfNatToString(t2);
  }

  /**
   * Every interactive button built for one request carries a custom id of its own, and link
   * buttons carry none.
   */
  lemma ComponentIdsUnique(rows: seq<ActionRowInput>, userId: string, now: nat)
    ensures var built := Components(Some(rows), userId, now).value;
      forall r1: int, i1: int, r2: int, i2: int ::
        0 <= r1 < |built| && 0 <= i1 < |built[r1]| && 0 <= r2 < |built| && 0 <= i2 < |built[r2]|
        && built[r1][i1].customId.Some? && built[r2][i2].customId.Some?
        && built[r1][i1].customId == built[r2][i2].customId
        ==> r1 == r2 && i1 == i2
  {
    var built: seq<seq<Button>> := Components(Some(rows), userId, now).value;
    forall r1: int, i1: int, r2: int, i2: int |
      0 <= r1 < |built| && 0 <= i1 < |built[r1]| && 0 <= r2 < |built| && 0 <= i2 < |built[r2]|
      && built[r1][i1].customId.Some? && built[r2][i2].customId.Some?
      && built[r1][i1].customId == built[r2][i2].customId
      ensures r1 == r2 && i1 == i2
    {
      assert built[r1][i1] == BuildButton(rows[r1].components[i1], r1, i1, userId, now);
      assert built[r2][i2] == BuildButton(rows[r2].components[i2], r2, i2, userId, now);
      CustomIdsDistinct(r1, i1, now, r2, i2, now);
    }
  }
}
