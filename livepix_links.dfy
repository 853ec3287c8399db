/**
 * The links between Discord members and Livepix payers: each Discord id is linked to one Livepix
 * username or one Livepix e-mail address, kept in memory in a map that remembers insertion order.
 */
module LivepixLinks {
  import opened Wrappers
  import opened Text

  /** One link; exactly one of the username and the e-mail is set, in lower case. */
  datatype UserLink = UserLink(discordId: string, livepixUsername: Option<string>, livepixEmail: Option<string>, linkedAt: int)

  /** The link `linkUser` builds at time `now`: an identifier with `@` is an e-mail address. */
  function NewLink(discordId: string, identifier: string, now: int): UserLink
  {
    if '@' in identifier then UserLink(discordId, None, Some(Lower(identifier)), now)
    else UserLink(discordId, Some(Lower(identifier)), None, now)
  }

  /** The username or the e-mail of a link, whichever a lookup compares. */
  function KeyOf(link: UserLink, byEmail: bool): Option<string>
  {
    if byEmail then link.livepixEmail else link.livepixUsername
  }

  // ---------------------------------------------------------------------------------------
  // The map, as its entries in iteration order
  // ---------------------------------------------------------------------------------------

  /** No Discord id appears twice among the entries. */
  predicate IdsDistinct(links: seq<UserLink>)
  {
    forall i, j :: 0 <= i < j < |links| ==> links[i].discordId != links[j].discordId
  }

  predicate HasId(links: seq<UserLink>, id: string)
  {
    exists i :: 0 <= i < |links| && links[i].discordId == id
  }

  /** `Map.get`: the entry stored under `id`. */
  function Lookup(links: seq<UserLink>, id: string): (r: Option<UserLink>)
    ensures r.Some? <==> HasId(links, id)
    ensures r.Some? ==> r.value in links && r.value.discordId == id
  {
    if |links| == 0 then None
    else if links[0].discordId == id then Some(links[0])
    else
      var r := Lookup(links[1..], id);
      assert HasId(links, id) ==> HasId(links[1..], id) by {
        if HasId(links, id) {
          var i :| 0 <= i < |links| && links[i].discordId == id;
          assert links[1..][i - 1] == links[i];
        }
      }
      r
  }

  /**
   * `Map.set`: an id already present keeps its place in the iteration order and gets the new
   * entry; a new id is appended.
   */
  function Store(links: seq<UserLink>, link: UserLink): seq<UserLink>
  {
    if |links| == 0 then [link]
    else if links[0].discordId == link.discordId then [link] + links[1..]
    else [links[0]] + Store(links[1..], link)
  }

  /** `Map.delete`. */
  function Remove(links: seq<UserLink>, id: string): seq<UserLink>
  {
    if |links| == 0 then []
    else if links[0].discordId == id then Remove(links[1..], id)
    else [links[0]] + Remove(links[1..], id)
  }

  /** The id of the first entry, in iteration order, whose compared key is `key`. */
  function FirstMatch(links: seq<UserLink>, key: string, byEmail: bool): Option<string>
  {
    if |links| == 0 then None
    else if KeyOf(links[0], byEmail) == Some(key) then Some(links[0].discordId)
    else FirstMatch(links[1..], key, byEmail)
  }

  // ---------------------------------------------------------------------------------------
  // The service
  // ---------------------------------------------------------------------------------------

  class LinkRegistry {
    /** The entries of `userLinks`, in iteration order. */
    var links: seq<UserLink>

    /** A map holds each key once. */
    ghost predicate Valid()
      reads this
    {
      IdsDistinct(links)
    }

    constructor()
      ensures Valid() && links == []
    {
      links := [];
    }

    /** linkUser at time `now`: the new link replaces any earlier one of the same member. */
    method LinkUser(discordId: string, identifier: string, now: int)
      requires Valid()
      modifies this
      ensures Valid() && links == Store(old(links), NewLink(discordId, identifier, now))
    {
      StoreMeaning(links, NewLink(discordId, identifier, now));
      links := Store(links, NewLink(discordId, identifier, now));
    }

    /** unlinkUser: whether a link existed; afterwards there is none. */
    method UnlinkUser(discordId: string) returns (removed: bool)
      requires Valid()
      modifies this
      ensures Valid() && removed == HasId(old(links), discordId)
      ensures links == Remove(old(links), discordId)
    {
      RemoveMeaning(links, discordId);
      removed := Lookup(links, discordId).Some?;
      links := Remove(links, discordId);
    }

    /** findDiscordIdByLivepixUsername: the first member linked to the username, ignoring case. */
    method FindDiscordIdByLivepixUsername(username: string) returns (r: Option<string>)
      ensures r == FirstMatch(links, Lower(username), false)
    {
      r := FindFirst(Lower(username), false);
    }

    /** findDiscordIdByLivepixEmail: the first member linked to the address, ignoring case. */
    method FindDiscordIdByLivepixEmail(email: string) returns (r: Option<string>)
      ensures r == FirstMatch(links, Lower(email), true)
    {
      r := FindFirst(Lower(email), true);
    }

    /** The loop both finders run over the entries, returning at the first match. */
    method FindFirst(key: string, byEmail: bool) returns (r: Option<string>)
      ensures r == FirstMatch(links, key, byEmail)
    {
      for i := 0 to |links|
        invariant FirstMatch(links, key, byEmail) == FirstMatch(links[i..], key, byEmail)
      {
        assert links[i..][1..] == links[i + 1..];
        if KeyOf(links[i], byEmail) == Some(key) {
          return Some(links[i].discordId);
        }
      }
      return None;
    }

    /** getUserLink. */
    function GetUserLink(discordId: string): (r: Option<UserLink>)
      reads this
      ensures r.Some? <==> HasId(links, discordId)
      ensures r.Some? ==> r.value in links && r.value.discordId == discordId
    {
      Lookup(links, discordId)
    }

    /** getAllLinks: the stored links in iteration order. */
    function GetAllLinks(): (r: seq<UserLink>)
      requires Valid()
      reads this
      ensures IdsDistinct(r)
      ensures forall l :: l in r <==> GetUserLink(l.discordId) == Some(l)
    {
      LookupOfMember(links);
      links
    }
  }

  // ---------------------------------------------------------------------------------------
  // Properties
  // ---------------------------------------------------------------------------------------

  /**
   * A link holds the identifier in lower case, as the e-mail when it contains `@` and as the
   * username otherwise; never both.
   */
  lemma NewLinkMeaning(discordId: string, identifier: string, now: int)
    ensures var l := NewLink(discordId, identifier, now);
      l.discordId == discordId
      && (l.livepixEmail.Some? <==> '@' in identifier)
      && (l.livepixUsername.Some? <==> '@' !in identifier)
      && (l.livepixEmail.Some? ==> l.livepixEmail.value == Lower(identifier))
      && (l.livepixUsername.Some? ==> l.livepixUsername.value == Lower(identifier))
  {
  }

  /** The entry found for an id in a map without duplicates. */
  lemma {:induction false} LookupIndex(links: seq<UserLink>, i: nat)
    requires IdsDistinct(links) && i < |links|
    ensures Lookup(links, links[i].discordId) == Some(links[i])
  {
    if i > 0 {
      assert links[0].discordId != links[i].discordId;
      assert links[1..][i - 1] == links[i];
      LookupIndex(links[1..], i - 1);
    }
  }

  /** Every entry of a map without duplicates is what a lookup of its id gives. */
  lemma LookupOfMember(links: seq<UserLink>)
    ensures IdsDistinct(links) ==> forall l :: l in links ==> Lookup(links, l.discordId) == Some(l)
  {
    if IdsDistinct(links) {
      forall l | l in links
        ensures Lookup(links, l.discordId) == Some(l)
      {
        var i :| 0 <= i < |links| && links[i] == l;
        LookupIndex(links, i);
      }
    }
  }

  /**
   * Storing a link: its id now maps to it, every other id keeps its entry, no id appears twice,
   * the number of entries grows only for a new id, and an existing id keeps its position.
   */
  lemma StoreMeaning(links: seq<UserLink>, link: UserLink)
    requires IdsDistinct(links)
    ensures var r := Store(links, link);
      IdsDistinct(r)
      && Lookup(r, link.discordId) == Some(link)
      && (forall id :: id != link.discordId ==> Lookup(r, id) == Lookup(links, id))
      && |r| == (if HasId(links, link.discordId) then |links| else |links| + 1)
      && (forall i :: 0 <= i < |links| && links[i].discordId == link.discordId ==> r[i] == link)
  {
    StoreDistinct(links, link);
    forall id
      ensures Lookup(Store(links, link), id) == if id == link.discordId then Some(link) else Lookup(links, id)
    {
      StoreLookup(links, link, id);
    }
    StorePlace(links, link);
  }

  /** A lookup after storing sees the new link under its id and the old entries elsewhere. */
  lemma {:induction false} StoreLookup(links: seq<UserLink>, link: UserLink, id: string)
    ensures Lookup(Store(links, link), id) == if id == link.discordId then Some(link) else Lookup(links, id)
  {
    if |links| > 0 && links[0].discordId != link.discordId {
      StoreLookup(links[1..], link, id);
    }
  }

  /** Storing keeps the ids distinct. */
  lemma {:induction false} StoreDistinct(links: seq<UserLink>, link: UserLink)
    requires IdsDistinct(links)
    ensures IdsDistinct(Store(links, link))
  {
    if |links| > 0 && links[0].discordId != link.discordId {
      var r := Store(links, link);
      var rest := Store(links[1..], link);
      StoreDistinct(links[1..], link);
      assert r == [links[0]] + rest;
      forall j | 0 < j < |r|
        ensures r[0].discordId != r[j].discordId
      {
        assert r[j] == rest[j - 1];
        StoreIds(links[1..], link, r[j]);
        if r[j] != link {
          var k :| 0 <= k < |links[1..]| && links[1..][k] == r[j];
          assert links[k + 1] == r[j];
        }
      }
    }
  }

  /** An existing id keeps its position; only a new id lengthens the list. */
  lemma {:induction false} StorePlace(links: seq<UserLink>, link: UserLink)
    ensures |Store(links, link)| == (if HasId(links, link.discordId) then |links| else |links| + 1)
    ensures forall i ::
      (0 <= i < |links| && links[i].discordId == link.discordId && forall j :: 0 <= j < i ==> links[j].discordId != link.discordId)
      ==> Store(links, link)[i] == link
  {
    if |links| > 0 && links[0].discordId != link.discordId {
      StorePlace(links[1..], link);
      assert HasId(links, link.discordId) <==> HasId(links[1..], link.discordId) by {
        if HasId(links, link.discordId) {
          var i :| 0 <= i < |links| && links[i].discordId == link.discordId;
          assert links[1..][i - 1] == links[i];
        }
      }
      forall i | 0 <= i < |links| && links[i].discordId == link.discordId && (forall j :: 0 <= j < i ==> links[j].discordId != link.discordId)
        ensures Store(links, link)[i] == link
      {
        assert links[1..][i - 1] == links[i];
        forall j | 0 <= j < i - 1
          ensures links[1..][j].discordId != link.discordId
        {
          assert links[1..][j] == links[j + 1];
        }
      }
    } else if |links| > 0 {
      assert HasId(links, link.discordId) by {
        assert links[0].discordId == link.discordId;
      }
    }
  }

  /** An entry of a stored map is the new link or an entry that was there before. */
  lemma {:induction false} StoreIds(links: seq<UserLink>, link: UserLink, l: UserLink)
    requires l in Store(links, link)
    ensures l == link || l in links
  {
    if |links| > 0 && links[0].discordId != link.discordId && l != links[0] {
      StoreIds(links[1..], link, l);
    }
  }

  /** Removing an id: it is gone, every other id keeps its entry, and no id appears twice. */
  lemma {:induction false} RemoveMeaning(links: seq<UserLink>, id: string)
    requires IdsDistinct(links)
    ensures var r := Remove(links, id);
      IdsDistinct(r) && !HasId(r, id)
      && (forall other :: other != id ==> Lookup(r, other) == Lookup(links, other))
      && (forall l :: l in r <==> l in links && l.discordId != id)
  {
    if |links| > 0 {
      RemoveMeaning(links[1..], id);
      var r := Remove(links, id);
      var rest := Remove(links[1..], id);
      assert IdsDistinct(links[1..]);
      if links[0].discordId != id {
        assert r == [links[0]] + rest;
        forall i, j | 0 <= i < j < |r|
          ensures r[i].discordId != r[j].discordId
        {
          if i == 0 {
            assert r[j] in rest;
            var k :| 0 <= k < |links[1..]| && links[1..][k] == r[j];
            assert links[k + 1] == r[j];
          }
        }
      }
    }
  }

  /**
   * A finder answers the id of the first entry whose key matches, or nothing when no entry
   * matches.
   */
  lemma {:induction false} FirstMatchMeaning(links: seq<UserLink>, key: string, byEmail: bool)
    ensures var r := FirstMatch(links, key, byEmail);
      (r.None? <==> forall i :: 0 <= i < |links| ==> KeyOf(links[i], byEmail) != Some(key))
      && (r.Some? ==> exists i :: 0 <= i < |links| && links[i].discordId == r.value && KeyOf(links[i], byEmail) == Some(key)
                        && forall j :: 0 <= j < i ==> KeyOf(links[j], byEmail) != Some(key))
  {
    if |links| > 0 {
      FirstMatchMeaning(links[1..], key, byEmail);
      var r := FirstMatch(links, key, byEmail);
      if KeyOf(links[0], byEmail) != Some(key) {
        forall i | 1 <= i < |links|
          ensures links[i] == links[1..][i - 1]
        {
        }
        if r.Some? {
          var i :| 0 <= i < |links[1..]| && links[1..][i].discordId == r.value && KeyOf(links[1..][i], byEmail) == Some(key)
                   && forall j :: 0 <= j < i ==> KeyOf(links[1..][j], byEmail) != Some(key);
          assert links[i + 1] == links[1..][i];
          forall j | 0 <= j < i + 1
            ensures KeyOf(links[j], byEmail) != Some(key)
          {
            if j > 0 {
              assert links[j] == links[1..][j - 1];
            }
          }
        }
      } else {
        assert links[0].discordId == r.value;
      }
    }
  }

  /**
   * After a member links a username (any case), a username lookup in any case finds a member,
   * and finds that member when nobody earlier in the map holds the same username; an e-mail
   * lookup never finds the member through that link.
   */
  lemma LinkedUsernameFound(links: seq<UserLink>, discordId: string, identifier: string, now: int, query: string)
    requires IdsDistinct(links) && '@' !in identifier && Lower(query) == Lower(identifier)
    requires forall i :: 0 <= i < |links| && links[i].discordId != discordId ==> links[i].livepixUsername != Some(Lower(identifier))
    ensures var r := Store(links, NewLink(discordId, identifier, now));
      FirstMatch(r, Lower(query), false) == Some(discordId)
      && forall e :: FirstMatch(r, e, true) != Some(discordId)
  {
    var link := NewLink(discordId, identifier, now);
    var r := Store(links, link);
    StoreMeaning(links, link);
    FirstMatchMeaning(r, Lower(query), false);
    assert link in r by {
      assert Lookup(r, discordId) == Some(link);
    }
    forall i | 0 <= i < |r| && r[i].discordId != discordId
      ensures r[i].livepixUsername != Some(Lower(identifier))
    {
      assert Lookup(r, r[i].discordId) == Some(r[i]) by {
        LookupIndex(r, i);
      }
      var k :| 0 <= k < |links| && links[k] == r[i] by {
        assert Lookup(links, r[i].discordId) == Some(r[i]);
      }
    }
    forall e
      ensures FirstMatch(r, e, true) != Some(discordId)
    {
      FirstMatchMeaning(r, e, true);
      if FirstMatch(r, e, true) == Some(discordId) {
        var i :| 0 <= i < |r| && r[i].discordId == discordId && KeyOf(r[i], true) == Some(e);
        LookupIndex(r, i);
      }
    }
  }

  /** After an unlink, looking the member up gives nothing and nobody else's link changed. */
  lemma UnlinkedGone(links: seq<UserLink>, id: string)
    requires IdsDistinct(links)
    ensures Lookup(Remove(links, id), id) == None
    ensures forall other :: other != id ==> Lookup(Remove(links, id), other) == Lookup(links, other)
  {
    RemoveMeaning(links, id);
  }
}
