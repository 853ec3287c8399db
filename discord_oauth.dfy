/**
 * The MANAGE_GUILD test of the Discord login: a guild from the user's guild list can be managed
 * when the user owns it or when bit 0x20 is set in its permission string.
 */
module DiscordOAuth {
  import opened Wrappers
  import opened Text

  /** The fields of a guild of `/users/@me/guilds` that the test reads. */
  datatype DiscordGuild = DiscordGuild(id: string, name: string, owner: bool, permissions: string)

  const ManageGuild: nat := 0x20
  const Two32: nat := 0x1_0000_0000

  // ---------------------------------------------------------------------------------------
  // parseInt(text) without a radix
  // ---------------------------------------------------------------------------------------

  predicate IsRadixDigit(c: char, hex: bool)
  {
    if hex then IsHexDigit(c) else IsDigit(c)
  }

  /** The longest prefix made of digits of the radix. */
  function DigitRun(s: string, hex: bool): (r: string)
    ensures |r| <= |s| && r == s[..|r|]
    ensures forall i :: 0 <= i < |r| ==> IsRadixDigit(r[i], hex)
    ensures |r| < |s| ==> !IsRadixDigit(s[|r|], hex)
  {
    if |s| > 0 && IsRadixDigit(s[0], hex) then [s[0]] + DigitRun(s[1..], hex) else []
  }

  /** The value of a run of digits in base 16 or 10. */
  function RadixValue(s: string, hex: bool): nat
    requires forall i :: 0 <= i < |s| ==> IsRadixDigit(s[i], hex)
  {
    if |s| == 0 then 0
    else
      var last := s[|s| - 1];
      assert IsRadixDigit(last, hex);
      RadixValue(s[..|s| - 1], hex) * (if hex then 16 else 10) + HexDigitValue(last)
  }

  /** Whether the text (after the sign) starts with the `0x`/`0X` prefix. */
  predicate HasHexPrefix(u: string)
  {
    |u| >= 2 && u[0] == '0' && (u[1] == 'x' || u[1] == 'X')
  }

  /**
   * `parseInt(text)`: leading white space is skipped, then one sign, then a `0x`/`0X` prefix
   * selects base 16; the value is that of the longest run of digits that follows, and an
   * empty run is NaN (`None`).
   */
  function ParseInt(s: string): Option<int>
  {
    var t := TrimStart(s);
    var negative := |t| > 0 && t[0] == '-';
    var u := if |t| > 0 && (t[0] == '-' || t[0] == '+') then t[1..] else t;
    var hex := HasHexPrefix(u);
    var run := DigitRun(if hex then u[2..] else u, hex);
    if |run| == 0 then None
    else
      var magnitude: int := RadixValue(run, hex);
      Some(if negative then -magnitude else magnitude)
  }

  // ---------------------------------------------------------------------------------------
  // `permissions & MANAGE_GUILD` on 32-bit integers
  // ---------------------------------------------------------------------------------------

  /** The 32-bit pattern `&` works on (ToInt32 and ToUint32 share it); NaN becomes 0. */
  function Int32Bits(n: Option<int>): (r: nat)
    ensures r < Two32
  {
    match n
    case None => 0
    case Some(v) => v % Two32
  }

  /** Bitwise AND of two non-negative numbers, bit by bit from the lowest. */
  function AndBits(a: nat, b: nat): nat
  {
    if a == 0 || b == 0 then 0
    else 2 * AndBits(a / 2, b / 2) + (if a % 2 == 1 && b % 2 == 1 then 1 else 0)
  }

  /** canManageGuild. */
  predicate CanManageGuild(guild: DiscordGuild)
  {
    guild.owner || AndBits(Int32Bits(ParseInt(guild.permissions)), ManageGuild) != 0
  }

  // ---------------------------------------------------------------------------------------
  // The bit, stated independently of `&`
  // ---------------------------------------------------------------------------------------

  function Pow2(k: nat): (r: nat)
    ensures r >= 1
  {
    if k == 0 then 1 else 2 * Pow2(k - 1)
  }

  /** Bit `k` of the two's-complement representation of `n`. */
  predicate BitSet(n: int, k: nat)
    decreases k
  {
    if k == 0 then n % 2 == 1 else BitSet(n / 2, k - 1)
  }

  /** Masking with a single bit keeps exactly that bit. */
  lemma {:induction false} AndPow2(a: nat, k: nat)
    ensures AndBits(a, Pow2(k)) == if BitSet(a, k) then Pow2(k) else 0
  {
    if k == 0 {
      assert AndBits(a / 2, 0) == 0;
    } else if a == 0 {
      NoBitOfZero(k);
    } else {
      assert Pow2(k) / 2 == Pow2(k - 1) && Pow2(k) % 2 == 0;
      AndPow2(a / 2, k - 1);
    }
  }

  lemma {:induction false} NoBitOfZero(k: nat)
    ensures !BitSet(0, k)
  {
    if k > 0 {
      NoBitOfZero(k - 1);
    }
  }

  /** Adding a multiple of a higher power of two leaves bit `k` alone. */
  lemma {:induction false} HighIrrelevant(n: int, x: int, k: nat)
    ensures BitSet(n + Pow2(k + 1) * x, k) == BitSet(n, k)
    decreases k
  {
    var y := Pow2(k) * x;
    assert Pow2(k + 1) * x == 2 * y;
    if k > 0 {
      assert (n + 2 * y) / 2 == n / 2 + y;
      HighIrrelevant(n / 2, x, k - 1);
    }
  }

  /** Bit 5 survives the reduction to 32 bits. */
  lemma Int32Bit5(n: int)
    ensures BitSet(Int32Bits(Some(n)), 5) == BitSet(n, 5)
  {
    var q := n / Two32;
    assert Pow2(6) == 64;
    assert n == Int32Bits(Some(n)) + 64 * (0x400_0000 * q);
    HighIrrelevant(Int32Bits(Some(n)), 0x400_0000 * q, 5);
  }

  // ---------------------------------------------------------------------------------------
  // Properties of canManageGuild
  // ---------------------------------------------------------------------------------------

  /**
   * An owner can always manage the guild; anybody else exactly when the permission string
   * parses to a number whose bit 5 (0x20) is set, so a non-numeric string never grants it.
   */
  lemma CanManageGuildMeaning(guild: DiscordGuild)
    ensures guild.owner ==> CanManageGuild(guild)
    ensures !guild.owner ==>
      (CanManageGuild(guild) <==> ParseInt(guild.permissions).Some? && BitSet(ParseInt(guild.permissions).value, 5))
    ensures !guild.owner && ParseInt(guild.permissions) == None ==> !CanManageGuild(guild)
  {
    var p := ParseInt(guild.permissions);
    assert Pow2(5) == ManageGuild;
    AndPow2(Int32Bits(p), 5);
    if p.Some? {
      Int32Bit5(p.value);
    } else {
      NoBitOfZero(5);
    }
  }

  /** Bit 5 of `64·high + 32·bit + low` is `bit`: no other bit matters. */
  lemma Bit5OfParts(high: int, bit: nat, low: nat)
    requires bit < 2 && low < 32
    ensures BitSet(64 * high + 32 * bit + low, 5) <==> bit == 1
  {
    var n := 64 * high + 32 * bit + low;
    assert Pow2(6) == 64;
    HighIrrelevant(32 * bit + low, high, 5);
    assert n == 32 * bit + low + Pow2(6) * high;
    LowBits(32 * bit + low, bit);
  }

  lemma LowBits(m: nat, bit: nat)
    requires bit < 2 && 32 * bit <= m < 32 * bit + 32
    ensures BitSet(m, 5) <==> bit == 1
  {
    assert m / 2 / 2 / 2 / 2 / 2 == bit;
  }

  /**
   * For the decimal permission strings Discord sends, the answer for a non-owner depends on
   * bit 0x20 only: `64·high + 32·bit + low` grants management exactly when `bit` is 1.
   */
  lemma OtherBitsIrrelevant(id: string, name: string, high: nat, bit: nat, low: nat)
    requires bit < 2 && low < 32
    ensures CanManageGuild(DiscordGuild(id, name, false, NatToString(64 * high + 32 * bit + low))) <==> bit == 1
  {
    var n := 64 * high + 32 * bit + low;
    assert BitSet(n, 5) <==> bit == 1 by {
      Bit5OfParts(high, bit, low);
    }
    DecimalPermissions(id, name, n);
  }

  /** With a decimal permission string, a non-owner may manage the guild iff bit 5 is set. */
  lemma DecimalPermissions(id: string, name: string, n: nat)
    ensures CanManageGuild(DiscordGuild(id, name, false, NatToString(n))) <==> BitSet(n, 5)
  {
    assert ParseInt(NatToString(n)) == Some(n) by {
      ParseIntOfDecimal(n);
    }
    CanManageGuildMeaning(DiscordGuild(id, name, false, NatToString(n)));
  }

  /** `parseInt` reads back the decimal text of any natural number. */
  lemma ParseIntOfDecimal(n: nat)
    ensures ParseInt(NatToString(n)) == Some(n)
  {
    var s := NatToString(n);
    assert TrimStart(s) == s;
    assert !HasHexPrefix(s);
    DigitRunOfDigits(s);
    DecimalRadixValue(s);
    ValueOfNatToString(n);
  }

  lemma {:induction false} DigitRunOfDigits(s: string)
    requires AllDigits(s)
    ensures DigitRun(s, false) == s
  {
    if |s| > 0 {
      DigitRunOfDigits(s[1..]);
    }
  }

  lemma {:induction false} DecimalRadixValue(s: string)
    requires AllDigits(s)
    ensures RadixValue(s, false) == DigitsValue(s)
  {
    if |s| > 0 {
      DecimalRadixValue(s[..|s| - 1]);
    }
  }
}
