/**
 * The permission overwrites of a ticket channel: everybody is denied the channel, while the
 * ticket's user, the bot and every support role are let in.
 */
module Permissions {
  /** The Discord permission flags the overwrites use. */
  datatype Permission = ViewChannel | SendMessages | ReadMessageHistory | ManageChannels | ManageMessages

  /** One permission overwrite: the id of a role or member, what it allows and what it denies. */
  datatype Overwrite = Overwrite(id: string, allow: seq<Permission>, deny: seq<Permission>)

  /** What the ticket's user and each support role may do. */
  const MemberAllow: seq<Permission> := [ViewChannel, SendMessages, ReadMessageHistory]

  /** What the bot may do. */
  const BotAllow: seq<Permission> := [ViewChannel, SendMessages, ManageChannels, ManageMessages]

  /** The three fixed entries: the guild id (the @everyone role), the user and the bot. */
  function BaseOverwrites(guildId: string, userId: string, clientId: string): seq<Overwrite>
  {
    [Overwrite(guildId, [], [ViewChannel]), Overwrite(userId, MemberAllow, []), Overwrite(clientId, BotAllow, [])]
  }

  /** The entries pushed for the support roles, one per role, in the order of the roles. */
  function RoleOverwrites(roleIds: seq<string>): (r: seq<Overwrite>)
    ensures |r| == |roleIds|
    ensures forall i :: 0 <= i < |roleIds| ==> r[i] == Overwrite(roleIds[i], MemberAllow, [])
  {
    if |roleIds| == 0 then []
    else RoleOverwrites(roleIds[..|roleIds| - 1]) + [Overwrite(roleIds[|roleIds| - 1], MemberAllow, [])]
  }

  /** The list `getPermissionOverwrites` returns. */
  function Overwrites(guildId: string, userId: string, clientId: string, roleIds: seq<string>): seq<Overwrite>
  {
    BaseOverwrites(guildId, userId, clientId) + RoleOverwrites(roleIds)
  }

  /** getPermissionOverwrites: the base list, extended by one push per support role. */
  method GetPermissionOverwrites(guildId: string, userId: string, clientId: string, supportRoleIds: seq<string>)
    returns (overwrites: seq<Overwrite>)
    ensures overwrites == Overwrites(guildId, userId, clientId, supportRoleIds)
  {
    overwrites := BaseOverwrites(guildId, userId, clientId);
    for i := 0 to |supportRoleIds|
      invariant overwrites == BaseOverwrites(guildId, userId, clientId) + RoleOverwrites(supportRoleIds[..i])
    {
      assert supportRoleIds[..i + 1][..i] == supportRoleIds[..i];
      overwrites := overwrites + [Overwrite(supportRoleIds[i], MemberAllow, [])];
    }
    assert supportRoleIds[..|supportRoleIds|] == supportRoleIds;
  }

  /**
   * The shape of the list: three fixed entries and then one per support role in input order;
   * the guild id is denied ViewChannel, the user and each role get the member permissions, the
   * bot gets the management permissions.
   */
  lemma OverwritesShape(guildId: string, userId: string, clientId: string, roleIds: seq<string>)
    ensures var r := Overwrites(guildId, userId, clientId, roleIds);
      |r| == 3 + |roleIds|
      && r[0] == Overwrite(guildId, [], [ViewChannel])
      && r[1] == Overwrite(userId, [ViewChannel, SendMessages, ReadMessageHistory], [])
      && r[2] == Overwrite(clientId, [ViewChannel, SendMessages, ManageChannels, ManageMessages], [])
      && (forall i :: 0 <= i < |roleIds| ==> r[3 + i] == Overwrite(roleIds[i], MemberAllow, []))
  {
  }

  /**
   * The channel is private: only the first entry denies anything, and it denies exactly
   * ViewChannel; every other entry allows ViewChannel and SendMessages and denies nothing.
   */
  lemma {:induction false} ChannelIsPrivate(guildId: string, userId: string, clientId: string, roleIds: seq<string>)
    ensures var r := Overwrites(guildId, userId, clientId, roleIds);
      r[0].id == guildId && r[0].allow == [] && r[0].deny == [ViewChannel]
      && (forall i :: 1 <= i < |r| ==> r[i].deny == [] && ViewChannel in r[i].allow && SendMessages in r[i].allow)
  {
    var r := Overwrites(guildId, userId, clientId, roleIds);
    forall i | 1 <= i < |r|
      ensures r[i].deny == [] && ViewChannel in r[i].allow && SendMessages in r[i].allow
    {
      if i >= 3 {
        assert r[i] == RoleOverwrites(roleIds)[i - 3];
      }
    }
  }

  /** Every support role is admitted with the member permissions. */
  lemma {:induction false} RolesAdmitted(guildId: string, userId: string, clientId: string, roleIds: seq<string>)
    ensures var r := Overwrites(guildId, userId, clientId, roleIds);
      forall role :: role in roleIds ==> Overwrite(role, MemberAllow, []) in r
  {
    var r := Overwrites(guildId, userId, clientId, roleIds);
    forall role | role in roleIds
      ensures Overwrite(role, MemberAllow, []) in r
    {
      var k :| 0 <= k < |roleIds| && roleIds[k] == role;
      assert r[3 + k] == RoleOverwrites(roleIds)[k];
    }
  }

  /** Only the bot, the third entry, may manage the channel or its messages. */
  lemma {:induction false} OnlyBotManages(guildId: string, userId: string, clientId: string, roleIds: seq<string>)
    ensures var r := Overwrites(guildId, userId, clientId, roleIds);
      forall i :: 0 <= i < |r| && (ManageChannels in r[i].allow || ManageMessages in r[i].allow) ==> i == 2
  {
    var r := Overwrites(guildId, userId, clientId, roleIds);
    assert ManageChannels !in MemberAllow && ManageMessages !in MemberAllow;
    forall i | 3 <= i < |r|
      ensures r[i].allow == MemberAllow
    {
      assert r[i] == RoleOverwrites(roleIds)[i - 3];
    }
  }
}
