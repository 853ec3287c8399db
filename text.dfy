/**
 * String helpers with JavaScript's meaning: ASCII case mapping, the `\s` character class and
 * `trim`, `indexOf`, `split` on one character, `join`, global and first-occurrence `replace`
 * of a literal, `substring(0, n)` and decimal rendering and parsing of naturals.
 */
module Text {
  import opened Wrappers

  predicate IsDigit(c: char) { '0' <= c <= '9' }
  predicate IsUpper(c: char) { 'A' <= c <= 'Z' }
  predicate IsLower(c: char) { 'a' <= c <= 'z' }
  predicate IsHexDigit(c: char) { IsDigit(c) || 'a' <= c <= 'f' || 'A' <= c <= 'F' }

  /** The regular-expression class `\w`. */
  predicate IsWordChar(c: char) { IsUpper(c) || IsLower(c) || IsDigit(c) || c == '_' }

  /** The regular-expression class `\s`, which is also the set `trim` removes. */
  predicate IsSpace(c: char)
  {
    c == ' ' || c == '\t' || c == '\n' || c == '\r' || c == '\U{000B}' || c == '\U{000C}'
    || c == '\U{00A0}' || c == '\U{1680}' || ('\U{2000}' <= c <= '\U{200A}')
    || c == '\U{2028}' || c == '\U{2029}' || c == '\U{202F}' || c == '\U{205F}'
    || c == '\U{3000}' || c == '\U{FEFF}'
  }

  /** JavaScript truthiness of an optional string: present and not empty. */
  predicate Truthy(s: Option<string>) { s.Some? && s.value != "" }

  predicate AllDigits(s: string) { forall i :: 0 <= i < |s| ==> IsDigit(s[i]) }

  function ToLowerChar(c: char): char
  {
    if IsUpper(c) then (c as int + 32) as char else c
  }

  /**
   * `toLowerCase`, on the ASCII letters: no upper-case letter is left, every other character is
   * kept, and each letter keeps its place in the alphabet.
   */
  function Lower(s: string): (r: string)
    ensures |r| == |s|
    ensures forall i :: 0 <= i < |r| ==> !IsUpper(r[i]) && (IsUpper(s[i]) || r[i] == s[i])
    ensures forall i :: 0 <= i < |r| && IsUpper(s[i]) ==> IsLower(r[i]) && r[i] as int - 'a' as int == s[i] as int - 'A' as int
  {
    seq(|s|, i requires 0 <= i < |s| => ToLowerChar(s[i]))
  }

  function TrimStart(s: string): (r: string)
    ensures |r| <= |s|
  {
    if |s| > 0 && IsSpace(s[0]) then TrimStart(s[1..]) else s
  }

  function TrimEnd(s: string): (r: string)
    ensures |r| <= |s|
  {
    if |s| > 0 && IsSpace(s[|s| - 1]) then TrimEnd(s[..|s| - 1]) else s
  }

  function Trim(s: string): string
  {
    TrimEnd(TrimStart(s))
  }

  /** `trimStart` removes a run of leading white space and nothing else. */
  lemma {:induction false} TrimStartMeaning(s: string)
    ensures var r := TrimStart(s);
      r == s[|s| - |r|..] && (|r| > 0 ==> !IsSpace(r[0]))
      && (forall i :: 0 <= i < |s| - |r| ==> IsSpace(s[i]))
  {
    if |s| > 0 && IsSpace(s[0]) {
      TrimStartMeaning(s[1..]);
    }
  }

  /** `trimEnd` removes a run of trailing white space and nothing else. */
  lemma {:induction false} TrimEndMeaning(s: string)
    ensures var r := TrimEnd(s);
      r == s[..|r|] && (|r| > 0 ==> !IsSpace(r[|r| - 1]))
      && (forall i :: |r| <= i < |s| ==> IsSpace(s[i]))
  {
    if |s| > 0 && IsSpace(s[|s| - 1]) {
      TrimEndMeaning(s[..|s| - 1]);
    }
  }

  lemma TrimOfUnspaced(s: string)
    requires forall i :: 0 <= i < |s| ==> !IsSpace(s[i])
    ensures Trim(s) == s
  {
  }

  /** Text that neither starts nor ends with white space is its own trim. */
  lemma TrimEnds(s: string)
    requires |s| == 0 || (!IsSpace(s[0]) && !IsSpace(s[|s| - 1]))
    ensures Trim(s) == s
  {
  }

  /** Trimming twice is trimming once. */
  lemma TrimIdempotent(s: string)
    ensures Trim(Trim(s)) == Trim(s)
  {
    var a := TrimStart(s);
    TrimStartMeaning(s);
    TrimEndMeaning(a);
    var b := TrimEnd(a);
    if |b| > 0 {
      assert b[0] == a[0];
    }
    TrimEnds(b);
  }

  /** `substring(0, n)` / `slice(0, n)`. */
  function Take(s: string, n: nat): (r: string)
    ensures |r| == if |s| < n then |s| else n
    ensures r == s[..|r|]
  {
    if |s| <= n then s else s[..n]
  }

  predicate StartsWith(s: string, p: string) { |p| <= |s| && s[..|p|] == p }
  predicate EndsWith(s: string, p: string) { |p| <= |s| && s[|s| - |p|..] == p }

  predicate OccursAt(s: string, p: string, k: int)
  {
    0 <= k && k + |p| <= |s| && s[k..k + |p|] == p
  }

  /** An occurrence stays one, shifted by the prefix's length, when a prefix is put in front. */
  lemma OccursAfterPrefix(front: string, s: string, p: string, k: int)
    requires OccursAt(s, p, k)
    ensures OccursAt(front + s, p, |front| + k)
  {
    assert (front + s)[|front| + k..|front| + k + |p|] == s[k..k + |p|];
  }

  /** `indexOf(p, from)`: the first position at or after `from` where `p` occurs, or -1. */
  function IndexOfFrom(s: string, p: string, from: nat): (r: int)
    decreases |s| - from
    ensures r == -1 || (from <= r && OccursAt(s, p, r))
    ensures r == -1 ==> forall k :: from <= k ==> !OccursAt(s, p, k)
    ensures r != -1 ==> forall k :: from <= k < r ==> !OccursAt(s, p, k)
  {
    if from + |p| > |s| then -1
    else if s[from..from + |p|] == p then from
    else IndexOfFrom(s, p, from + 1)
  }

  function IndexOf(s: string, p: string): int
  {
    IndexOfFrom(s, p, 0)
  }

  /** `includes(p)`. */
  predicate Contains(s: string, p: string)
  {
    IndexOf(s, p) >= 0
  }

  lemma ContainsIff(s: string, p: string)
    ensures Contains(s, p) <==> exists k :: OccursAt(s, p, k)
  {
  }

  /** `split(sep)` for a one-character separator: never empty, "" gives [""]. */
  function Split(s: string, sep: char): (r: seq<string>)
    ensures |r| >= 1
    ensures forall i, j :: 0 <= i < |r| && 0 <= j < |r[i]| ==> r[i][j] != sep
  {
    if |s| == 0 then [""]
    else if s[0] == sep then [""] + Split(s[1..], sep)
    else
      var rest := Split(s[1..], sep);
      [[s[0]] + rest[0]] + rest[1..]
  }

  /** `join(sep)`. */
  function Join(parts: seq<string>, sep: string): string
  {
    if |parts| == 0 then ""
    else if |parts| == 1 then parts[0]
    else parts[0] + sep + Join(parts[1..], sep)
  }

  /** Splitting on a character and joining on it again gives the string back. */
  lemma {:induction false} JoinSplit(s: string, sep: char)
    ensures Join(Split(s, sep), [sep]) == s
  {
    if |s| == 0 {
    } else if s[0] == sep {
      var rest := Split(s[1..], sep);
      JoinSplit(s[1..], sep);
      JoinCons("", rest, [sep]);
      assert s == [sep] + s[1..];
    } else {
      var rest := Split(s[1..], sep);
      JoinSplit(s[1..], sep);
      if |rest| == 1 {
        assert Split(s, sep) == [[s[0]] + rest[0]];
      } else {
        var tail := Join(rest[1..], [sep]);
        JoinCons(rest[0], rest[1..], [sep]);
        assert rest == [rest[0]] + rest[1..];
        JoinCons([s[0]] + rest[0], rest[1..], [sep]);
        ConsAppend3(s[0], rest[0], [sep], tail);
        assert s == [s[0]] + s[1..];
      }
    }
  }

  /** Joining words that do not contain `sep` and splitting on `sep` gives the words back. */
  lemma {:induction false} SplitJoin(ws: seq<string>, sep: char)
    requires |ws| >= 1
    requires forall i, j :: 0 <= i < |ws| && 0 <= j < |ws[i]| ==> ws[i][j] != sep
    ensures Split(Join(ws, [sep]), sep) == ws
  {
    if |ws| == 1 {
      SplitWord(ws[0], sep);
    } else {
      SplitJoin(ws[1..], sep);
      SplitWordThen(ws[0], sep, Join(ws[1..], [sep]));
      assert ws == [ws[0]] + ws[1..];
    }
  }

  lemma {:induction false} SplitWord(w: string, sep: char)
    requires forall j :: 0 <= j < |w| ==> w[j] != sep
    ensures Split(w, sep) == [w]
  {
    if |w| > 0 {
      SplitWord(w[1..], sep);
      assert w == [w[0]] + w[1..];
    }
  }

  lemma {:induction false} SplitWordThen(w: string, sep: char, rest: string)
    requires forall j :: 0 <= j < |w| ==> w[j] != sep
    ensures Split(w + [sep] + rest, sep) == [w] + Split(rest, sep)
  {
    if |w| == 0 {
      assert w + [sep] + rest == [sep] + rest;
      assert ([sep] + rest)[1..] == rest;
    } else {
      var t := w + [sep] + rest;
      assert t[1..] == w[1..] + [sep] + rest;
      SplitWordThen(w[1..], sep, rest);
      assert [w[0]] + w[1..] == w;
    }
  }

  /** Splitting around one separator splits the two sides independently. */
  lemma {:induction false} SplitConcat(a: string, b: string, sep: char)
    ensures Split(a + [sep] + b, sep) == Split(a, sep) + Split(b, sep)
  {
    var t := a + [sep] + b;
    if |a| == 0 {
      assert t == [sep] + b;
      assert t[1..] == b;
    } else {
      assert t[0] == a[0];
      assert t[1..] == a[1..] + [sep] + b;
      SplitConcat(a[1..], b, sep);
      if a[0] != sep {
        GlueFirst([a[0]], Split(a[1..], sep), Split(b, sep));
      }
    }
  }

  /** Gluing a prefix onto the first of some words commutes with appending more words. */
  lemma GlueFirst<T>(x: seq<T>, rest: seq<seq<T>>, tail: seq<seq<T>>)
    requires |rest| >= 1
    ensures [x + (rest + tail)[0]] + (rest + tail)[1..] == ([x + rest[0]] + rest[1..]) + tail
  {
    assert (rest + tail)[0] == rest[0];
    assert (rest + tail)[1..] == rest[1..] + tail;
  }

  /** Joining three pieces. */
  lemma Join3(a: string, b: string, c: string, sep: string)
    ensures Join([a, b, c], sep) == a + sep + b + sep + c
  {
    assert [b, c][1..] == [c];
    assert Join([b, c], sep) == b + sep + c;
    assert [a, b, c][1..] == [b, c];
    assert Join([a, b, c], sep) == a + sep + (b + sep + c);
    assert a + sep + (b + sep + c) == a + sep + b + sep + c;
  }

  /** Three digit strings joined by dots split back into the same three. */
  lemma SplitThree(a: string, b: string, c: string)
    requires AllDigits(a) && AllDigits(b) && AllDigits(c)
    ensures Split(a + "." + b + "." + c, '.') == [a, b, c]
  {
    Join3(a, b, c, ".");
    DigitsAvoidDot([a, b, c]);
    SplitJoin([a, b, c], '.');
  }

  lemma DigitsAvoidDot(ws: seq<string>)
    requires forall i :: 0 <= i < |ws| ==> AllDigits(ws[i])
    ensures forall i, j :: 0 <= i < |ws| && 0 <= j < |ws[i]| ==> ws[i][j] != '.'
  {
  }

  lemma JoinCons(w: string, rest: seq<string>, sep: string)
    requires |rest| >= 1
    ensures Join([w] + rest, sep) == w + sep + Join(rest, sep)
  {
    assert ([w] + rest)[1..] == rest;
  }

  lemma ConsAppend<T>(c: T, a: seq<T>, t: seq<T>)
    ensures [c] + (a + t) == ([c] + a) + t
  {
  }

  lemma ConsAppend3<T>(c: T, x: seq<T>, y: seq<T>, z: seq<T>)
    ensures [c] + x + y + z == [c] + (x + y + z)
  {
  }

  /** A global `replace` of the literal `pat`: leftmost, non-overlapping occurrences. */
  function ReplaceAll(s: string, pat: string, rep: string): string
    requires |pat| > 0
    decreases |s|
  {
    if |s| < |pat| then s
    else if s[..|pat|] == pat then rep + ReplaceAll(s[|pat|..], pat, rep)
    else [s[0]] + ReplaceAll(s[1..], pat, rep)
  }

  /** Without an occurrence of the pattern a global replace changes nothing. */
  lemma {:induction false} ReplaceAllAbsent(s: string, pat: string, rep: string)
    requires |pat| > 0 && !Contains(s, pat)
    ensures ReplaceAll(s, pat, rep) == s
    decreases |s|
  {
    if |s| >= |pat| {
      assert !OccursAt(s, pat, 0);
      assert s[0..|pat|] == s[..|pat|];
      assert !Contains(s[1..], pat) by {
        forall k | 0 <= k
          ensures !OccursAt(s[1..], pat, k)
        {
          assert !OccursAt(s, pat, k + 1);
          if k + |pat| <= |s[1..]| {
            assert s[1..][k..k + |pat|] == s[k + 1..k + 1 + |pat|];
          }
        }
      }
      ReplaceAllAbsent(s[1..], pat, rep);
      assert s == [s[0]] + s[1..];
    }
  }

  /** `IndexOfFrom` finds the position `k` when `p` occurs there and nowhere before it. */
  lemma {:induction false} IndexOfFromFirst(s: string, p: string, from: nat, k: nat)
    requires from <= k && OccursAt(s, p, k)
    requires forall j :: from <= j < k ==> !OccursAt(s, p, j)
    ensures IndexOfFrom(s, p, from) == k
    decreases k - from
  {
    if from < k {
      assert !OccursAt(s, p, from);
      IndexOfFromFirst(s, p, from + 1, k);
    }
  }

  /** A `replace` of the first occurrence of the literal `pat` only. */
  function ReplaceFirst(s: string, pat: string, rep: string): string
  {
    var i := IndexOf(s, pat);
    if i < 0 then s else s[..i] + rep + s[i + |pat|..]
  }

  /** Replacing the first occurrence of a prefix replaces that prefix. */
  lemma ReplaceFirstPrefix(s: string, p: string, rep: string)
    requires StartsWith(s, p)
    ensures ReplaceFirst(s, p, rep) == rep + s[|p|..]
  {
    assert OccursAt(s, p, 0);
    IndexOfFromFirst(s, p, 0, 0);
  }

  /** A text that differs from `p` at some position inside `p` does not start with `p`. */
  lemma DiffersFromPrefix(s: string, p: string, k: nat)
    requires k < |p| && k < |s| && s[k] != p[k]
    ensures !StartsWith(s, p)
  {
    if |p| <= |s| {
      assert s[..|p|][k] == s[k];
    }
  }

  function DigitChar(d: nat): char
    requires d < 10
  {
    ('0' as int + d) as char
  }

  function DigitValue(c: char): nat
    requires IsDigit(c)
  {
    c as int - '0' as int
  }

  function HexDigitValue(c: char): (r: nat)
    requires IsHexDigit(c)
    ensures r < 16
  {
    if IsDigit(c) then c as int - '0' as int
    else if 'a' <= c <= 'f' then c as int - 'a' as int + 10
    else c as int - 'A' as int + 10
  }

  /** The value of a string of hexadecimal digits (0 for ""). */
  function HexValue(s: string): nat
    requires forall i :: 0 <= i < |s| ==> IsHexDigit(s[i])
  {
    if |s| == 0 then 0
    else
      var last := s[|s| - 1];
      assert IsHexDigit(last);
      HexValue(s[..|s| - 1]) * 16 + HexDigitValue(last)
  }

  /** `String(n)` for a natural number: its shortest decimal text. */
  function NatToString(n: nat): (r: string)
    ensures |r| >= 1 && AllDigits(r)
    ensures |r| == 1 || r[0] != '0'
  {
    if n < 10 then [DigitChar(n)] else NatToString(n / 10) + [DigitChar(n % 10)]
  }

  /** The value of a string of decimal digits (0 for ""). */
  function DigitsValue(s: string): nat
    requires AllDigits(s)
  {
    if |s| == 0 then 0 else DigitsValue(s[..|s| - 1]) * 10 + DigitValue(s[|s| - 1])
  }

  /**
   * JavaScript's `Number(text)` restricted to what the bot feeds it: the text is trimmed, ""
   * reads as 0, a run of decimal digits as its value, and anything else is NaN (`None`).
   */
  function NumberOf(s: string): Option<nat>
  {
    var t := Trim(s);
    if AllDigits(t) then Some(DigitsValue(t)) else None
  }

  /** Canonical decimal text of a natural: digits only, no leading zero except "0" itself. */
  predicate IsCanonicalDecimal(s: string)
  {
    |s| >= 1 && AllDigits(s) && (|s| == 1 || s[0] != '0')
  }

  /** Reads back a canonical decimal text; anything else is rejected. */
  function ParseNat(s: string): Option<nat>
  {
    if IsCanonicalDecimal(s) then Some(DigitsValue(s)) else None
  }

  lemma {:induction false} ValueOfNatToString(n: nat)
    ensures DigitsValue(NatToString(n)) == n
  {
    if n >= 10 {
      ValueOfNatToString(n / 10);
      var s := NatToString(n);
      assert s[..|s| - 1] == NatToString(n / 10);
    }
  }

  lemma {:induction false} NatToStringOfValue(s: string)
    requires IsCanonicalDecimal(s)
    ensures NatToString(DigitsValue(s)) == s
    decreases |s|
  {
    if |s| > 1 {
      var p := s[..|s| - 1];
      assert IsCanonicalDecimal(p);
      NatToStringOfValue(p);
      PositiveValue(p);
      var v := DigitsValue(s);
      assert v / 10 == DigitsValue(p) && v % 10 == DigitValue(s[|s| - 1]);
    }
  }

  lemma {:induction false} PositiveValue(s: string)
    requires AllDigits(s) && |s| >= 1 && s[0] != '0'
    ensures DigitsValue(s) >= 1
    decreases |s|
  {
    if |s| > 1 {
      PositiveValue(s[..|s| - 1]);
    }
  }

  /** Rendering a natural and parsing it back is the identity, and only its own text parses to it. */
  lemma ParseNatRoundTrip(n: nat, s: string)
    ensures ParseNat(NatToString(n)) == Some(n)
    ensures ParseNat(s) == Some(n) ==> s == NatToString(n)
  {
    ValueOfNatToString(n);
    if ParseNat(s) == Some(n) {
      NatToStringOfValue(s);
    }
  }

  // ---------------------------------------------------------------------------------------
  // Global replace over a template
  // ---------------------------------------------------------------------------------------

  /** `pieces[0] + holes[0] + pieces[1] + … + holes[n-1] + pieces[n]`. */
  function Interleave(pieces: seq<string>, holes: seq<string>): string
    requires |pieces| == |holes| + 1
    decreases |holes|
  {
    if |holes| == 0 then pieces[0] else pieces[0] + holes[0] + Interleave(pieces[1..], holes[1..])
  }

  /** The holes after a global replace of `pat` by `rep` that treats every hole as a unit. */
  function ReplaceHoles(holes: seq<string>, pat: string, rep: string): (r: seq<string>)
    ensures |r| == |holes|
    ensures forall i :: 0 <= i < |holes| ==> r[i] == if holes[i] == pat then rep else holes[i]
  {
    seq(|holes|, i requires 0 <= i < |holes| => if holes[i] == pat then rep else holes[i])
  }

  /** No occurrence of `pat` can start inside `h`, whatever follows it. */
  predicate Inert(h: string, pat: string)
  {
    |pat| > 0
    && (forall j :: 1 <= j < |h| ==> h[j] != pat[0])
    && (|h| > 0 && h[0] == pat[0] ==> |h| >= |pat| && h[..|pat|] != pat)
  }

  /** An inert prefix passes through a global replace unchanged. */
  lemma {:induction false} ReplaceAllInertPrefix(h: string, y: string, pat: string, rep: string)
    requires Inert(h, pat)
    ensures ReplaceAll(h + y, pat, rep) == h + ReplaceAll(y, pat, rep)
    decreases |h|
  {
    var s := h + y;
    if |h| == 0 {
      assert s == y;
    } else if |s| < |pat| {
      assert ReplaceAll(y, pat, rep) == y;
    } else {
      assert s[..|pat|] != pat by {
        if h[0] == pat[0] {
          assert s[..|pat|] == h[..|pat|];
        } else {
          assert s[0] == h[0];
        }
      }
      assert s[1..] == h[1..] + y;
      assert Inert(h[1..], pat);
      ReplaceAllInertPrefix(h[1..], y, pat, rep);
      assert ReplaceAll(s, pat, rep) == [h[0]] + (h[1..] + ReplaceAll(y, pat, rep));
      ConsAppend(h[0], h[1..], ReplaceAll(y, pat, rep));
      assert [h[0]] + h[1..] == h;
    }
  }

  /** A leading occurrence is replaced and the scan resumes after it. */
  lemma ReplaceAllPatternPrefix(y: string, pat: string, rep: string)
    requires |pat| > 0
    ensures ReplaceAll(pat + y, pat, rep) == rep + ReplaceAll(y, pat, rep)
  {
    var s := pat + y;
    assert s[..|pat|] == pat;
    assert s[|pat|..] == y;
  }

  /**
   * A global replace over a template whose pieces are inert and whose holes are the pattern
   * or inert: exactly the holes equal to the pattern are replaced, nothing else changes.
   */
  lemma {:induction false} ReplaceAllInterleave(pieces: seq<string>, holes: seq<string>, pat: string, rep: string)
    requires |pat| > 0 && |pieces| == |holes| + 1
    requires forall i :: 0 <= i < |pieces| ==> Inert(pieces[i], pat)
    requires forall i :: 0 <= i < |holes| ==> holes[i] == pat || Inert(holes[i], pat)
    ensures ReplaceAll(Interleave(pieces, holes), pat, rep) == Interleave(pieces, ReplaceHoles(holes, pat, rep))
    decreases |holes|
  {
    var holes' := ReplaceHoles(holes, pat, rep);
    if |holes| == 0 {
      ReplaceAllInertPrefix(pieces[0], "", pat, rep);
      assert ReplaceAll("", pat, rep) == "";
      assert pieces[0] + "" == pieces[0];
    } else {
      var rest := Interleave(pieces[1..], holes[1..]);
      ReplaceAllInterleave(pieces[1..], holes[1..], pat, rep);
      assert ReplaceHoles(holes[1..], pat, rep) == holes'[1..];
      var rest' := ReplaceAll(rest, pat, rep);
      assert rest' == Interleave(pieces[1..], holes'[1..]);
      assert ReplaceAll(holes[0] + rest, pat, rep) == holes'[0] + rest' by {
        if holes[0] == pat {
          ReplaceAllPatternPrefix(rest, pat, rep);
        } else {
          ReplaceAllInertPrefix(holes[0], rest, pat, rep);
        }
      }
      ReplaceAllInertPrefix(pieces[0], holes[0] + rest, pat, rep);
      assert pieces[0] + holes[0] + rest == pieces[0] + (holes[0] + rest);
      assert Interleave(pieces, holes') == pieces[0] + (holes'[0] + rest');
    }
  }
}
