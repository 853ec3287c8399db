/**
 * The Livepix donations: the cached OAuth token of the Livepix API, the filtering of payment
 * webhooks, the resolution of the paying Discord member and the supporter role a payment earns.
 * Two services share this logic: the donation service grants one of three tiers by amount, the
 * Livepix service always grants the one Patreon role.
 *
 * Amounts are integer cents. Answers of the Livepix API (the token grant, the payment details)
 * are parameters; the guild is a value and the role a payment adds is applied by `Effect`.
 */
module Payments {
  import opened Wrappers
  import opened Text

  /** A token is dropped one minute (in ms) before Livepix says it expires. */
  const ExpiryMargin: nat := 60000

  /** The smallest donation, in cents, that earns a role. */
  const MinimumCents: nat := 500
  const GoldenCents: nat := 2000
  const DiamondCents: nat := 5000

  // ---------------------------------------------------------------------------------------
  // The token cache
  // ---------------------------------------------------------------------------------------

  /** The fields of the token answer that the cache keeps. */
  datatype TokenGrant = TokenGrant(accessToken: string, expiresIn: int)

  /** The cached token is used when it is set and its expiry lies after `now`. */
  predicate CacheHit(accessToken: Option<string>, tokenExpiresAt: Option<int>, now: int)
  {
    Truthy(accessToken) && tokenExpiresAt.Some? && tokenExpiresAt.value > now
  }

  /** The expiry stored for a token granted at `now`. */
  function FreshExpiry(now: int, expiresIn: int): int
  {
    now + expiresIn * 1000 - ExpiryMargin
  }

  /** The `accessToken`/`tokenExpiresAt` pair of either service; both start undefined. */
  class TokenCache {
    var accessToken: Option<string>
    var tokenExpiresAt: Option<int>

    constructor()
      ensures accessToken == None && tokenExpiresAt == None
    {
      accessToken := None;
      tokenExpiresAt := None;
    }

    /**
     * getAccessToken at time `now`; `grant` is the answer of the token endpoint, asked only when
     * the cache misses. A failed request is passed on and leaves the cache as it was.
     */
    method GetAccessToken(now: int, grant: Result<TokenGrant>) returns (r: Result<string>)
      modifies this
      ensures CacheHit(old(accessToken), old(tokenExpiresAt), now) ==>
        r == Ok(old(accessToken).value) && accessToken == old(accessToken) && tokenExpiresAt == old(tokenExpiresAt)
      ensures !CacheHit(old(accessToken), old(tokenExpiresAt), now) && grant.Err? ==>
        r == Err(grant.error) && accessToken == old(accessToken) && tokenExpiresAt == old(tokenExpiresAt)
      ensures !CacheHit(old(accessToken), old(tokenExpiresAt), now) && grant.Ok? ==>
        r == Ok(grant.value.accessToken) && accessToken == Some(grant.value.accessToken)
        && tokenExpiresAt == Some(FreshExpiry(now, grant.value.expiresIn))
    {
      if CacheHit(accessToken, tokenExpiresAt, now) {
        return Ok(accessToken.value);
      }
      if grant.Err? {
        return Err(grant.error);
      }
      accessToken := Some(grant.value.accessToken);
      tokenExpiresAt := Some(FreshExpiry(now, grant.value.expiresIn));
      r := Ok(grant.value.accessToken);
    }
  }

  /**
   * A non-empty token granted at `granted` for `expiresIn` seconds is reused at exactly the
   * instants before its lifetime minus one minute has passed; so a token that lives longer than a
   * minute is reused right after it is fetched, and one that lives a minute or less never is.
   */
  lemma TokenReuseWindow(token: string, granted: int, expiresIn: int, now: int)
    requires token != ""
    ensures CacheHit(Some(token), Some(FreshExpiry(granted, expiresIn)), now)
      <==> now - granted < expiresIn * 1000 - ExpiryMargin
    ensures expiresIn * 1000 <= ExpiryMargin && now >= granted ==> !CacheHit(Some(token), Some(FreshExpiry(granted, expiresIn)), now)
  {
  }

  // ---------------------------------------------------------------------------------------
  // Webhooks, payments and the guild
  // ---------------------------------------------------------------------------------------

  /** The `resource` of a webhook: what happened and to which id. */
  datatype Resource = Resource(id: string, reference: string, resourceType: string)

  /** A webhook body; `resource` is absent in the confirmation Livepix sends first. */
  datatype Webhook = Webhook(resource: Option<Resource>)

  datatype Payer = Payer(name: Option<string>, email: Option<string>, username: Option<string>)

  /** The details of a payment, as the Livepix API reports them. */
  datatype PaymentDetails = PaymentDetails(id: string, status: string, value: int, payer: Payer, reference: Option<string>)

  datatype Member = Member(id: string, username: string, roles: set<string>)

  /** The guild as the services see it: the roles that exist and the members in fetch order. */
  datatype Guild = Guild(roles: set<string>, members: seq<Member>)

  /** Only approved or paid payments earn a role. */
  predicate IsPaid(details: PaymentDetails)
  {
    details.status == "approved" || details.status == "paid"
  }

  /** The first member, in fetch order, whose username matches ignoring case. */
  function FindByUsername(members: seq<Member>, username: string): Option<string>
  {
    if |members| == 0 then None
    else if Lower(members[0].username) == Lower(username) then Some(members[0].id)
    else FindByUsername(members[1..], username)
  }

  /** The first member with the id, as `members.fetch(id)` gives it. */
  function MemberById(members: seq<Member>, id: string): (r: Option<Member>)
    ensures r.Some? ==> r.value in members && r.value.id == id
  {
    if |members| == 0 then None
    else if members[0].id == id then Some(members[0])
    else MemberById(members[1..], id)
  }

  /**
   * findDiscordUserId: the payment's reference when there is one, else the member whose
   * username is the payer's, else nobody. An e-mail alone identifies nobody.
   */
  function FindDiscordUserId(payment: PaymentDetails, members: seq<Member>): Option<string>
  {
    if Truthy(payment.reference) then payment.reference
    else if Truthy(payment.payer.username) then FindByUsername(members, payment.payer.username.value)
    else None
  }

  /** The result of a webhook; only `RoleAdded` changes the guild. */
  datatype Outcome =
    | Ignored
    | Unidentified
    | BelowMinimum(memberId: string)
    | RoleMissing(memberId: string, roleId: string)
    | AlreadyHeld(memberId: string, roleId: string)
    | RoleAdded(memberId: string, roleId: string)

  /**
   * The members with the role added to every entry of the member `id`: every entry keeps its id
   * and username, holds the role afterwards exactly when it held it before or is that member,
   * and no other role is gained or lost.
   */
  function Grant(members: seq<Member>, id: string, roleId: string): (r: seq<Member>)
    ensures |r| == |members|
    ensures forall i :: 0 <= i < |r| ==> r[i].id == members[i].id && r[i].username == members[i].username
    ensures forall i :: 0 <= i < |r| ==> (roleId in r[i].roles <==> roleId in members[i].roles || members[i].id == id)
    ensures forall i, x :: 0 <= i < |r| && x != roleId ==> (x in r[i].roles <==> x in members[i].roles)
  {
    seq(|members|, i requires 0 <= i < |members| =>
      if members[i].id == id then members[i].(roles := members[i].roles + {roleId}) else members[i])
  }

  /** What a webhook's outcome does to the guild. */
  function Effect(guild: Guild, outcome: Outcome): Guild
  {
    if outcome.RoleAdded? then guild.(members := Grant(guild.members, outcome.memberId, outcome.roleId))
    else guild
  }

  /**
   * The common end of both `addPatreonRole`s once the member id is known: the member must
   * exist (fetching an unknown id fails), the role must exist, and a member who holds it
   * already is left alone.
   */
  function AddRole(guild: Guild, memberId: string, roleId: string): Result<Outcome>
  {
    var member := MemberById(guild.members, memberId);
    if member.None? then Err("Unknown Member")
    else if roleId !in guild.roles then Ok(RoleMissing(memberId, roleId))
    else if roleId in member.value.roles then Ok(AlreadyHeld(memberId, roleId))
    else Ok(RoleAdded(memberId, roleId))
  }

  // ---------------------------------------------------------------------------------------
  // The donation service: three tiers
  // ---------------------------------------------------------------------------------------

  datatype Tier = Supporter | Golden | Diamond

  /** The configured ids of the three supporter roles. */
  datatype TierRoles = TierRoles(supporter: string, golden: string, diamond: string)

  /** The tier a donation of `value` cents earns; below five reais it earns none. */
  function TierFor(value: int): Option<Tier>
  {
    if value < MinimumCents then None
    else if value >= DiamondCents then Some(Diamond)
    else if value >= GoldenCents then Some(Golden)
    else Some(Supporter)
  }

  function RoleOf(tier: Tier, roles: TierRoles): string
  {
    match tier
    case Supporter => roles.supporter
    case Golden => roles.golden
    case Diamond => roles.diamond
  }

  function Rank(tier: Option<Tier>): nat
  {
    match tier
    case None => 0
    case Some(Supporter) => 1
    case Some(Golden) => 2
    case Some(Diamond) => 3
  }

  /** addPatreonRole of the donation service. */
  function DonateAddRole(payment: PaymentDetails, guild: Guild, roles: TierRoles): Result<Outcome>
  {
    var id := FindDiscordUserId(payment, guild.members);
    if id.None? then Ok(Unidentified)
    else if MemberById(guild.members, id.value).None? then Err("Unknown Member")
    else match TierFor(payment.value)
      case None => Ok(BelowMinimum(id.value))
      case Some(tier) => AddRole(guild, id.value, RoleOf(tier, roles))
  }

  /**
   * handlePaymentReceived of the donation service: `details` is what fetching the payment
   * answered (asked only for a payment resource; an error is passed on).
   */
  function DonateHandle(webhook: Option<Webhook>, details: Result<PaymentDetails>, guild: Guild, roles: TierRoles): Result<Outcome>
  {
    if webhook.None? || webhook.value.resource.None? then Ok(Ignored)
    else if webhook.value.resource.value.resourceType != "payment" then Ok(Ignored)
    else if details.Err? then Err(details.error)
    else if !IsPaid(details.value) then Ok(Ignored)
    else DonateAddRole(details.value, guild, roles)
  }

  // ---------------------------------------------------------------------------------------
  // The Livepix service: one role
  // ---------------------------------------------------------------------------------------

  /** addPatreonRole of the Livepix service: always the configured Patreon role. */
  function LivepixAddRole(payment: PaymentDetails, guild: Guild, patreonRoleId: string): Result<Outcome>
  {
    var id := FindDiscordUserId(payment, guild.members);
    if id.None? then Ok(Unidentified)
    else AddRole(guild, id.value, patreonRoleId)
  }

  /**
   * handlePaymentReceived of the Livepix service; it reads `webhook.resource.type` unguarded,
   * so a webhook without a resource fails instead of being ignored.
   */
  function LivepixHandle(webhook: Option<Webhook>, details: Result<PaymentDetails>, guild: Guild, patreonRoleId: string): Result<Outcome>
  {
    if webhook.None? || webhook.value.resource.None? then Err("TypeError: cannot read properties of undefined")
    else if webhook.value.resource.value.resourceType != "payment" then Ok(Ignored)
    else if details.Err? then Err(details.error)
    else if !IsPaid(details.value) then Ok(Ignored)
    else LivepixAddRole(details.value, guild, patreonRoleId)
  }

  // ---------------------------------------------------------------------------------------
  // Properties
  // ---------------------------------------------------------------------------------------

  /**
   * The username search answers the first member whose username equals the payer's ignoring
   * case, and nothing exactly when no member's does.
   */
  lemma {:induction false} FindByUsernameMeaning(members: seq<Member>, username: string)
    ensures var r := FindByUsername(members, username);
      (r.None? <==> forall i :: 0 <= i < |members| ==> Lower(members[i].username) != Lower(username))
      && (r.Some? ==> exists i :: 0 <= i < |members| && members[i].id == r.value && Lower(members[i].username) == Lower(username)
                        && forall j :: 0 <= j < i ==> Lower(members[j].username) != Lower(username))
  {
    if |members| > 0 {
      FindByUsernameMeaning(members[1..], username);
      var r := FindByUsername(members, username);
      if Lower(members[0].username) != Lower(username) {
        forall i | 1 <= i < |members|
          ensures members[i] == members[1..][i - 1]
        {
        }
        if r.Some? {
          var i :| 0 <= i < |members[1..]| && members[1..][i].id == r.value && Lower(members[1..][i].username) == Lower(username)
                   && forall j :: 0 <= j < i ==> Lower(members[1..][j].username) != Lower(username);
          assert members[i + 1] == members[1..][i];
          forall j | 0 <= j < i + 1
            ensures Lower(members[j].username) != Lower(username)
          {
            if j > 0 {
              assert members[j] == members[1..][j - 1];
            }
          }
        }
      }
    }
  }

  /**
   * The payer is resolved in order: a reference wins outright, then a case-insensitive
   * username match, and otherwise nobody; the answer is never an empty id taken from the
   * reference.
   */
  lemma ResolutionOrder(payment: PaymentDetails, members: seq<Member>)
    ensures var r := FindDiscordUserId(payment, members);
      (Truthy(payment.reference) ==> r == payment.reference)
      && (!Truthy(payment.reference) && !Truthy(payment.payer.username) ==> r.None?)
      && (!Truthy(payment.reference) && Truthy(payment.payer.username) ==>
            (r.None? <==> forall i :: 0 <= i < |members| ==> Lower(members[i].username) != Lower(payment.payer.username.value)))
      && (!Truthy(payment.reference) && r.Some? ==> exists m :: m in members && m.id == r.value)
  {
    if !Truthy(payment.reference) && Truthy(payment.payer.username) {
      FindByUsernameMeaning(members, payment.payer.username.value);
    }
  }

  /** The tier thresholds: none below 500 cents, diamond from 5000, golden from 2000, else supporter. */
  lemma TierThresholds(value: int)
    ensures TierFor(value).None? <==> value < 500
    ensures TierFor(value) == Some(Diamond) <==> value >= 5000
    ensures TierFor(value) == Some(Golden) <==> 2000 <= value < 5000
    ensures TierFor(value) == Some(Supporter) <==> 500 <= value < 2000
  {
  }

  /** Giving more never earns a lower tier. */
  lemma TierMonotone(v1: int, v2: int)
    requires v1 <= v2
    ensures Rank(TierFor(v1)) <= Rank(TierFor(v2))
  {
  }

  /**
   * A donation adds a role only for a paid payment resource from an identified member, and the
   * role is the one of the donation's tier; anything else leaves the guild as it was.
   */
  lemma DonationGrantsTierRole(webhook: Option<Webhook>, details: Result<PaymentDetails>, guild: Guild, roles: TierRoles)
    ensures var r := DonateHandle(webhook, details, guild, roles);
      (r.Ok? && Effect(guild, r.value) != guild ==> r.value.RoleAdded?)
      && (r.Ok? && r.value.RoleAdded? ==>
            webhook.Some? && webhook.value.resource.Some? && webhook.value.resource.value.resourceType == "payment"
            && details.Ok? && IsPaid(details.value)
            && Some(r.value.memberId) == FindDiscordUserId(details.value, guild.members)
            && TierFor(details.value.value).Some?
            && r.value.roleId == RoleOf(TierFor(details.value.value).value, roles)
            && r.value.roleId in guild.roles
            && MemberById(guild.members, r.value.memberId).Some?
            && r.value.roleId !in MemberById(guild.members, r.value.memberId).value.roles)
  {
  }

  /**
   * The Livepix service adds only the configured Patreon role, and only for a paid payment
   * resource from an identified member who does not hold it yet.
   */
  lemma LivepixGrantsPatreonRole(webhook: Option<Webhook>, details: Result<PaymentDetails>, guild: Guild, patreonRoleId: string)
    ensures var r := LivepixHandle(webhook, details, guild, patreonRoleId);
      (r.Ok? && r.value.RoleAdded? ==>
            r.value.roleId == patreonRoleId && patreonRoleId in guild.roles
            && details.Ok? && IsPaid(details.value)
            && Some(r.value.memberId) == FindDiscordUserId(details.value, guild.members)
            && MemberById(guild.members, r.value.memberId).Some?
            && patreonRoleId !in MemberById(guild.members, r.value.memberId).value.roles)
      && (webhook.None? || webhook.value.resource.None? ==> r.Err?)
  {
  }

  /** Granting a role changes no id and no username, so the payer resolves the same way. */
  lemma {:induction false} GrantKeepsNames(members: seq<Member>, id: string, roleId: string, username: string)
    ensures FindByUsername(Grant(members, id, roleId), username) == FindByUsername(members, username)
  {
    if |members| > 0 {
      var g := Grant(members, id, roleId);
      assert g[1..] == Grant(members[1..], id, roleId);
      GrantKeepsNames(members[1..], id, roleId, username);
    }
  }

  /** After a grant, the member found under the id holds the role and nothing else changed in it. */
  lemma {:induction false} GrantGives(members: seq<Member>, id: string, roleId: string)
    ensures var before, after := MemberById(members, id), MemberById(Grant(members, id, roleId), id);
      before.Some? == after.Some?
      && (after.Some? ==> after.value == before.value.(roles := before.value.roles + {roleId}))
  {
    if |members| > 0 {
      var g := Grant(members, id, roleId);
      assert g[1..] == Grant(members[1..], id, roleId);
      GrantGives(members[1..], id, roleId);
    }
  }

  /**
   * A webhook delivered twice changes the guild no more than once: handling it again on the
   * guild the first delivery left gives an outcome that changes nothing.
   */
  lemma DonationRedeliveryIdempotent(webhook: Option<Webhook>, details: Result<PaymentDetails>, guild: Guild, roles: TierRoles)
    requires DonateHandle(webhook, details, guild, roles).Ok?
    ensures var g1 := Effect(guild, DonateHandle(webhook, details, guild, roles).value);
      var again := DonateHandle(webhook, details, g1, roles);
      again.Ok? && Effect(g1, again.value) == g1
  {
    var o := DonateHandle(webhook, details, guild, roles).value;
    if o.RoleAdded? {
      var g1 := Effect(guild, o);
      var p := details.value;
      if !Truthy(p.reference) && Truthy(p.payer.username) {
        GrantKeepsNames(guild.members, o.memberId, o.roleId, p.payer.username.value);
      }
      GrantGives(guild.members, o.memberId, o.roleId);
      assert DonateHandle(webhook, details, g1, roles) == Ok(AlreadyHeld(o.memberId, o.roleId));
    }
  }

  /** The same for the Livepix service. */
  lemma LivepixRedeliveryIdempotent(webhook: Option<Webhook>, details: Result<PaymentDetails>, guild: Guild, patreonRoleId: string)
    requires LivepixHandle(webhook, details, guild, patreonRoleId).Ok?
    ensures var g1 := Effect(guild, LivepixHandle(webhook, details, guild, patreonRoleId).value);
      var again := LivepixHandle(webhook, details, g1, patreonRoleId);
      again.Ok? && Effect(g1, again.value) == g1
  {
    var o := LivepixHandle(webhook, details, guild, patreonRoleId).value;
    if o.RoleAdded? {
      var g1 := Effect(guild, o);
      var p := details.value;
      if !Truthy(p.reference) && Truthy(p.payer.username) {
        GrantKeepsNames(guild.members, o.memberId, o.roleId, p.payer.username.value);
      }
      GrantGives(guild.members, o.memberId, o.roleId);
      assert LivepixHandle(webhook, details, g1, patreonRoleId) == Ok(AlreadyHeld(o.memberId, o.roleId));
    }
  }
}
