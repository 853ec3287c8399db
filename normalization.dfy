/**
 * Name and version canonicalisation used to match detected mods against the registry
 * (src/utils/normalization.util.ts).
 */
module Normalization {
  import opened Wrappers
  import opened Text

  // ---------------------------------------------------------------------------------------
  // Character-class rewriting: the regular-expression replaces of normalizeModName
  // ---------------------------------------------------------------------------------------

  predicate IsHyphen(c: char) { c == '-' }
  predicate IsUnderscore(c: char) { c == '_' }

  /** The characters `[\w\s-]` that survive the first replace of normalizeModName. */
  predicate IsNameSource(c: char) { IsWordChar(c) || IsSpace(c) || c == '-' }

  /** The alphabet of a canonical mod name. */
  predicate IsNameChar(c: char) { IsLower(c) || IsDigit(c) || c == '_' }

  predicate NoDoubleUnderscore(s: string)
  {
    forall k :: 0 <= k < |s| - 1 && s[k] == '_' ==> s[k + 1] != '_'
  }

  predicate AllSatisfy(s: string, Q: char -> bool)
  {
    forall k :: 0 <= k < |s| ==> Q(s[k])
  }

  /** `replace(/[^...]/g, '')`: keeps the characters satisfying `Q`, in order. */
  function KeepChars(s: string, Q: char -> bool): (r: string)
    ensures |r| <= |s|
    ensures AllSatisfy(r, Q)
  {
    if |s| == 0 then [] else (if Q(s[0]) then [s[0]] else []) + KeepChars(s[1..], Q)
  }

  /** Drops the leading run of characters satisfying `P`. */
  function DropRun(s: string, P: char -> bool): (r: string)
    ensures |r| <= |s| && r == s[|s| - |r|..]
    ensures |r| > 0 ==> !P(r[0])
  {
    if |s| > 0 && P(s[0]) then DropRun(s[1..], P) else s
  }

  /** `replace(/X+/g, r)`: every maximal run of characters satisfying `P` becomes one `r`. */
  function CollapseRuns(s: string, P: char -> bool, r: char): string
    decreases |s|
  {
    if |s| == 0 then []
    else if P(s[0]) then [r] + CollapseRuns(DropRun(s[1..], P), P, r)
    else [s[0]] + CollapseRuns(s[1..], P, r)
  }

  lemma {:induction false} KeepAll(s: string, Q: char -> bool)
    requires AllSatisfy(s, Q)
    ensures KeepChars(s, Q) == s
  {
    if |s| > 0 {
      KeepAll(s[1..], Q);
    }
  }

  lemma {:induction false} DropRunKeeps(s: string, P: char -> bool, Q: char -> bool)
    requires AllSatisfy(s, Q)
    ensures AllSatisfy(DropRun(s, P), Q)
  {
    if |s| > 0 && P(s[0]) {
      DropRunKeeps(s[1..], P, Q);
    }
  }

  /** Every character of `s` outside class `P` satisfies `Q`. */
  predicate OutsideSatisfy(s: string, P: char -> bool, Q: char -> bool)
  {
    forall k :: 0 <= k < |s| && !P(s[k]) ==> Q(s[k])
  }

  lemma OutsideSatisfySuffix(s: string, P: char -> bool, Q: char -> bool, i: nat)
    requires OutsideSatisfy(s, P, Q) && i <= |s|
    ensures OutsideSatisfy(s[i..], P, Q)
  {
    forall k | 0 <= k < |s[i..]| && !P(s[i..][k]) ensures Q(s[i..][k]) {
      assert s[i..][k] == s[i + k];
    }
  }

  lemma AllSatisfyCons(c: char, t: string, Q: char -> bool)
    requires Q(c) && AllSatisfy(t, Q)
    ensures AllSatisfy([c] + t, Q)
  {
    forall k | 0 <= k < |[c] + t| ensures Q(([c] + t)[k]) {
      if k > 0 {
        assert ([c] + t)[k] == t[k - 1];
      }
    }
  }

  /** The characters of a collapsed string are `r` or characters of `s` outside the run class. */
  lemma {:induction false} CollapseKeeps(s: string, P: char -> bool, r: char, Q: char -> bool)
    requires OutsideSatisfy(s, P, Q)
    requires Q(r)
    ensures AllSatisfy(CollapseRuns(s, P, r), Q)
    decreases |s|
  {
    if |s| > 0 {
      if P(s[0]) {
        var rest := DropRun(s[1..], P);
        assert rest == s[|s| - |rest|..] by {
          assert s[1..][|s[1..]| - |rest|..] == s[|s| - |rest|..];
        }
        OutsideSatisfySuffix(s, P, Q, |s| - |rest|);
        CollapseKeeps(rest, P, r, Q);
        AllSatisfyCons(r, CollapseRuns(rest, P, r), Q);
      } else {
        OutsideSatisfySuffix(s, P, Q, 1);
        CollapseKeeps(s[1..], P, r, Q);
        AllSatisfyCons(s[0], CollapseRuns(s[1..], P, r), Q);
      }
    }
  }

  /** No character of class `P` directly follows an `r`. */
  predicate Separated(o: string, P: char -> bool, r: char)
  {
    forall k :: 0 <= k < |o| - 1 && o[k] == r ==> !P(o[k + 1])
  }

  /** A collapsed string never has the run class right after `r`, when `r` is in that class. */
  lemma {:induction false} CollapseSeparates(s: string, P: char -> bool, r: char)
    requires P(r)
    ensures Separated(CollapseRuns(s, P, r), P, r)
    decreases |s|
  {
    if |s| > 0 {
      var o := CollapseRuns(s, P, r);
      var next := if P(s[0]) then DropRun(s[1..], P) else s[1..];
      var inner := CollapseRuns(next, P, r);
      assert o == [if P(s[0]) then r else s[0]] + inner;
      CollapseSeparates(next, P, r);
      forall k | 0 <= k < |o| - 1 && o[k] == r ensures !P(o[k + 1]) {
        assert o[k + 1] == inner[k];
        if k > 0 {
          assert o[k] == inner[k - 1];
        } else if P(s[0]) {
          assert next == DropRun(s[1..], P) && |next| > 0;
          assert inner == [next[0]] + CollapseRuns(next[1..], P, r);
        }
      }
    }
  }

  /** Without any character of the run class, collapsing changes nothing. */
  lemma {:induction false} CollapseAbsent(s: string, P: char -> bool, r: char)
    requires forall k :: 0 <= k < |s| ==> !P(s[k])
    ensures CollapseRuns(s, P, r) == s
  {
    if |s| > 0 {
      CollapseAbsent(s[1..], P, r);
    }
  }

  /** Collapsing underscore runs leaves a string without `__` unchanged. */
  lemma {:induction false} CollapseUnderscoresIdle(s: string)
    requires NoDoubleUnderscore(s)
    ensures CollapseRuns(s, IsUnderscore, '_') == s
  {
    if |s| > 0 {
      assert NoDoubleUnderscore(s[1..]);
      CollapseUnderscoresIdle(s[1..]);
      if s[0] == '_' {
        assert DropRun(s[1..], IsUnderscore) == s[1..];
      }
    }
  }

  lemma {:induction false} TrimStartKeeps(s: string, Q: char -> bool)
    requires AllSatisfy(s, Q)
    ensures AllSatisfy(TrimStart(s), Q)
  {
    if |s| > 0 && IsSpace(s[0]) {
      TrimStartKeeps(s[1..], Q);
    }
  }

  lemma {:induction false} TrimEndKeeps(s: string, Q: char -> bool)
    requires AllSatisfy(s, Q)
    ensures AllSatisfy(TrimEnd(s), Q)
  {
    if |s| > 0 && IsSpace(s[|s| - 1]) {
      TrimEndKeeps(s[..|s| - 1], Q);
    }
  }

  // ---------------------------------------------------------------------------------------
  // normalizeModName
  // ---------------------------------------------------------------------------------------

  /** Lowercase, trim, drop `[^\w\s-]`, then whitespace runs, hyphen runs and underscore runs become `_`. */
  function NormalizeModName(name: string): string
  {
    var cleaned := KeepChars(Trim(Lower(name)), IsNameSource);
    var spaced := CollapseRuns(cleaned, IsSpace, '_');
    var dashed := CollapseRuns(spaced, IsHyphen, '_');
    CollapseRuns(dashed, IsUnderscore, '_')
  }

  predicate NotUpper(c: char) { !IsUpper(c) }
  predicate LoweredSource(c: char) { IsNameSource(c) && !IsUpper(c) }
  predicate SpacedSource(c: char) { IsNameChar(c) || c == '-' }

  /** A canonical mod name uses only `[a-z0-9_]` and never has two `_` in a row. */
  lemma NormalizeModNameShape(name: string)
    ensures var r := NormalizeModName(name);
      AllSatisfy(r, IsNameChar) && NoDoubleUnderscore(r)
  {
    var cleaned := KeepChars(Trim(Lower(name)), IsNameSource);
    CleanedIsLowered(name);
    CollapseKeeps(cleaned, IsSpace, '_', SpacedSource);
    var spaced := CollapseRuns(cleaned, IsSpace, '_');
    CollapseKeeps(spaced, IsHyphen, '_', IsNameChar);
    var dashed := CollapseRuns(spaced, IsHyphen, '_');
    CollapseKeeps(dashed, IsUnderscore, '_', IsNameChar);
    CollapseSeparates(dashed, IsUnderscore, '_');
    assert Separated(CollapseRuns(dashed, IsUnderscore, '_'), IsUnderscore, '_');
  }

  lemma CleanedIsLowered(name: string)
    ensures AllSatisfy(KeepChars(Trim(Lower(name)), IsNameSource), LoweredSource)
  {
    var lowered := Lower(name);
    forall k | 0 <= k < |lowered| ensures NotUpper(lowered[k]) {
      LowerCharNotUpper(name[k]);
    }
    TrimStartKeeps(lowered, NotUpper);
    TrimEndKeeps(TrimStart(lowered), NotUpper);
    KeptFromUnupper(Trim(lowered));
  }

  lemma {:induction false} KeptFromUnupper(s: string)
    requires AllSatisfy(s, NotUpper)
    ensures AllSatisfy(KeepChars(s, IsNameSource), LoweredSource)
  {
    if |s| > 0 {
      KeptFromUnupper(s[1..]);
    }
  }

  lemma LowerCharNotUpper(c: char)
    ensures !IsUpper(ToLowerChar(c))
  {
  }

  /** Canonicalising a canonical name gives it back unchanged. */
  lemma NormalizeModNameIdempotent(name: string)
    ensures NormalizeModName(NormalizeModName(name)) == NormalizeModName(name)
  {
    var n := NormalizeModName(name);
    NormalizeModNameShape(name);
    CanonicalIsStable(n);
  }

  lemma CanonicalIsStable(n: string)
    requires AllSatisfy(n, IsNameChar) && NoDoubleUnderscore(n)
    ensures NormalizeModName(n) == n
  {
    forall k | 0 <= k < |n|
      ensures !IsUpper(n[k]) && !IsSpace(n[k]) && !IsHyphen(n[k]) && IsNameSource(n[k])
    {
      NameCharFacts(n[k]);
    }
    LowerIdle(n);
    TrimOfUnspaced(n);
    KeepAll(n, IsNameSource);
    CollapseAbsent(n, IsSpace, '_');
    CollapseAbsent(n, IsHyphen, '_');
    CollapseUnderscoresIdle(n);
    calc {
      NormalizeModName(n);
      CollapseRuns(CollapseRuns(CollapseRuns(KeepChars(Trim(Lower(n)), IsNameSource), IsSpace, '_'), IsHyphen, '_'), IsUnderscore, '_');
      CollapseRuns(CollapseRuns(CollapseRuns(n, IsSpace, '_'), IsHyphen, '_'), IsUnderscore, '_');
      n;
    }
  }

  lemma NameCharFacts(c: char)
    requires IsNameChar(c)
    ensures !IsUpper(c) && !IsSpace(c) && !IsHyphen(c) && IsNameSource(c)
  {
  }

  lemma LowerIdle(s: string)
    requires forall k :: 0 <= k < |s| ==> !IsUpper(s[k])
    ensures Lower(s) == s
  {
  }

  // ---------------------------------------------------------------------------------------
  // removeStopWords
  // ---------------------------------------------------------------------------------------

  const StopWords: seq<string> := ["the", "a", "an", "mod", "pack", "update", "v1", "v2", "v3", "new", "fixed"]

  /** `split(/\s+/)`: every whitespace run separates two words; "" gives [""]. */
  function SplitWords(s: string): (r: seq<string>)
    ensures |r| >= 1
    ensures forall i, j :: 0 <= i < |r| && 0 <= j < |r[i]| ==> !IsSpace(r[i][j])
    decreases |s|
  {
    if |s| == 0 then [""]
    else if IsSpace(s[0]) then [""] + SplitWords(DropRun(s, IsSpace))
    else
      var rest := SplitWords(s[1..]);
      [[s[0]] + rest[0]] + rest[1..]
  }

  function FilterStopWords(words: seq<string>): (r: seq<string>)
    ensures forall i :: 0 <= i < |r| ==> r[i] !in StopWords && r[i] in words
  {
    if |words| == 0 then []
    else (if words[0] in StopWords then [] else [words[0]]) + FilterStopWords(words[1..])
  }

  /** Drops the stop words when at least three words remain; otherwise keeps every word. */
  function RemoveStopWords(text: string): string
  {
    var words := SplitWords(Lower(text));
    var filtered := FilterStopWords(words);
    if |filtered| >= 3 then Join(filtered, " ") else Join(words, " ")
  }

  /**
   * Read back on single spaces, the result is exactly the list of non-stop words when there
   * are at least three of them, and the full word list otherwise.
   */
  lemma RemoveStopWordsWords(text: string)
    ensures var words := SplitWords(Lower(text));
      var filtered := FilterStopWords(words);
      Split(RemoveStopWords(text), ' ') == if |filtered| >= 3 then filtered else words
  {
    var words := SplitWords(Lower(text));
    var filtered := FilterStopWords(words);
    if |filtered| >= 3 {
      SplitJoin(filtered, ' ');
    } else {
      SplitJoin(words, ' ');
    }
  }

  // ---------------------------------------------------------------------------------------
  // normalizeVersion
  // ---------------------------------------------------------------------------------------

  /** A local calendar date, month counted from 1 (`getMonth() + 1`). */
  datatype CalendarDate = CalendarDate(day: nat, month: nat, year: nat)

  /** `toString().padStart(2, '0')`. */
  function Pad2(n: nat): string
  {
    var s := NatToString(n);
    if |s| < 2 then "0" + s else s
  }

  /** The fallback version text `DD.MM.YYYY`. */
  function DateText(d: CalendarDate): string
  {
    Pad2(d.day) + "." + Pad2(d.month) + "." + NatToString(d.year)
  }

  /** `replace(/word\s*\/i, '')` on lowercase text: the first occurrence and the whitespace after it. */
  function RemoveFirstWord(s: string, word: string): string
  {
    var i := IndexOf(s, word);
    if i < 0 then s else s[..i] + TrimStart(s[i + |word|..])
  }

  /** The text left after lowercasing and removing `^v`, `version\s*` and `update\s*`, trimmed. */
  function CleanVersion(version: string): string
  {
    var lowered := Lower(version);
    var unprefixed := if |lowered| > 0 && lowered[0] == 'v' then lowered[1..] else lowered;
    Trim(RemoveFirstWord(RemoveFirstWord(unprefixed, "version"), "update"))
  }

  function MapDigits(parts: seq<string>): (r: seq<string>)
    ensures |r| == |parts|
    ensures forall i :: 0 <= i < |r| ==> AllDigits(r[i]) && r[i] == KeepChars(parts[i], IsDigit)
  {
    if |parts| == 0 then [] else [KeepChars(parts[0], IsDigit)] + MapDigits(parts[1..])
  }

  function NonEmpty(parts: seq<string>): (r: seq<string>)
    ensures forall i :: 0 <= i < |r| ==> r[i] != "" && r[i] in parts
  {
    if |parts| == 0 then []
    else (if parts[0] == "" then [] else [parts[0]]) + NonEmpty(parts[1..])
  }

  /** The `.`-separated segments of the cleaned text, reduced to their digits, empty ones dropped. */
  function VersionSegments(version: string): (r: seq<string>)
    ensures forall i :: 0 <= i < |r| ==> r[i] != "" && AllDigits(r[i])
  {
    NonEmpty(MapDigits(Split(CleanVersion(version), '.')))
  }

  /** The segment at position `i` of the padded list: the segment itself, or "0" past the end. */
  function SegmentOrZero(segments: seq<string>, i: nat): string
  {
    if i < |segments| then segments[i] else "0"
  }

  /** The version text normalizeVersion produces: three segments, missing ones "0". */
  function NormalizedVersion(version: Option<string>, published: CalendarDate): string
  {
    match version
    case None => DateText(published)
    case Some(v) =>
      if v == "" then DateText(published)
      else
        var s := VersionSegments(v);
        SegmentOrZero(s, 0) + "." + SegmentOrZero(s, 1) + "." + SegmentOrZero(s, 2)
  }

  /** normalizeVersion: pads the segment list with "0" in a loop and keeps the first three. */
  method NormalizeVersion(version: Option<string>, published: CalendarDate) returns (r: string)
    ensures r == NormalizedVersion(version, published)
  {
    if version.None? || version.value == "" {
      return DateText(published);
    }
    var parts := VersionSegments(version.value);
    var padded := PadWithZeros(parts);
    r := padded[0] + "." + padded[1] + "." + padded[2];
  }

  /** The `while (parts.length < 3) parts.push('0')` loop of normalizeVersion. */
  method PadWithZeros(parts: seq<string>) returns (padded: seq<string>)
    ensures |padded| >= 3 && |padded| >= |parts| && padded[..|parts|] == parts
    ensures forall k :: 0 <= k < 3 ==> padded[k] == SegmentOrZero(parts, k)
  {
    padded := parts;
    while |padded| < 3
      invariant |padded| >= |parts| && padded[..|parts|] == parts
      invariant forall i :: |parts| <= i < |padded| ==> padded[i] == "0"
      decreases 3 - |padded|
    {
      padded := padded + ["0"];
    }
  }

  /** For a null or empty version the result is the publish date as `DD.MM.YYYY`. */
  lemma DateFallback(version: Option<string>, published: CalendarDate)
    requires version == None || version == Some("")
    requires 1 <= published.day <= 31 && 1 <= published.month <= 12
    requires 1000 <= published.year <= 9999
    ensures var r := NormalizedVersion(version, published);
      |r| == 10 && r[2] == '.' && r[5] == '.'
      && AllDigits(r[..2]) && DigitsValue(r[..2]) == published.day
      && AllDigits(r[3..5]) && DigitsValue(r[3..5]) == published.month
      && AllDigits(r[6..]) && DigitsValue(r[6..]) == published.year
  {
    var r := NormalizedVersion(version, published);
    Pad2Value(published.day);
    Pad2Value(published.month);
    NatToStringLength4(published.year);
    ValueOfNatToString(published.year);
    assert r[..2] == Pad2(published.day);
    assert r[3..5] == Pad2(published.month);
    assert r[6..] == NatToString(published.year);
  }

  lemma Pad2Value(n: nat)
    requires n < 100
    ensures |Pad2(n)| == 2 && AllDigits(Pad2(n)) && DigitsValue(Pad2(n)) == n
  {
    ValueOfNatToString(n);
    var s := NatToString(n);
    if n < 10 {
      assert Pad2(n)[..1] == "0";
    } else {
      assert NatToString(n / 10) == [DigitChar(n / 10)];
    }
  }

  lemma NatToStringLength4(n: nat)
    requires 1000 <= n <= 9999
    ensures |NatToString(n)| == 4
  {
    var n1 := n / 10;
    var n2 := n1 / 10;
    var n3 := n2 / 10;
    assert 1 <= n3 < 10 && n2 >= 10 && n1 >= 10;
    assert |NatToString(n3)| == 1;
    assert |NatToString(n2)| == 2;
    assert |NatToString(n1)| == 3;
  }

  /** For a non-empty version the result is three non-empty digit-only segments joined by `.`. */
  lemma ThreeSegments(v: string, published: CalendarDate)
    requires v != ""
    ensures var s := VersionSegments(v);
      Split(NormalizedVersion(Some(v), published), '.') == [SegmentOrZero(s, 0), SegmentOrZero(s, 1), SegmentOrZero(s, 2)]
    ensures forall i: nat :: SegmentOrZero(VersionSegments(v), i) != "" && AllDigits(SegmentOrZero(VersionSegments(v), i))
  {
    var s := VersionSegments(v);
    var a, b, c := SegmentOrZero(s, 0), SegmentOrZero(s, 1), SegmentOrZero(s, 2);
    assert NormalizedVersion(Some(v), published) == a + "." + b + "." + c;
    SegmentOrZeroDigits(s, 0);
    SegmentOrZeroDigits(s, 1);
    SegmentOrZeroDigits(s, 2);
    SplitThree(a, b, c);
    forall i: nat ensures SegmentOrZero(s, i) != "" && AllDigits(SegmentOrZero(s, i)) {
      SegmentOrZeroDigits(s, i);
    }
  }

  lemma SegmentOrZeroDigits(s: seq<string>, i: nat)
    requires forall k :: 0 <= k < |s| ==> s[k] != "" && AllDigits(s[k])
    ensures SegmentOrZero(s, i) != "" && AllDigits(SegmentOrZero(s, i))
  {
  }

  /** A normalized version normalizes to itself. */
  lemma NormalizeVersionIdempotent(v: string, published: CalendarDate, again: CalendarDate)
    requires v != ""
    ensures var n := NormalizedVersion(Some(v), published);
      NormalizedVersion(Some(n), again) == n
  {
    var s := VersionSegments(v);
    var a, b, c := SegmentOrZero(s, 0), SegmentOrZero(s, 1), SegmentOrZero(s, 2);
    SegmentOrZeroDigits(s, 0);
    SegmentOrZeroDigits(s, 1);
    SegmentOrZeroDigits(s, 2);
    assert NormalizedVersion(Some(v), published) == a + "." + b + "." + c;
    CanonicalVersionFixed(a, b, c, again);
  }

  /** Three non-empty digit segments joined by dots are already a normalized version. */
  lemma CanonicalVersionFixed(a: string, b: string, c: string, again: CalendarDate)
    requires a != "" && b != "" && c != ""
    requires AllDigits(a) && AllDigits(b) && AllDigits(c)
    ensures NormalizedVersion(Some(a + "." + b + "." + c), again) == a + "." + b + "." + c
  {
    var n := a + "." + b + "." + c;
    assert Split(n, '.') == [a, b, c] by {
      SplitThree(a, b, c);
    }
    assert DigitsOrDots(n) by {
      Join3(a, b, c, ".");
      SegmentsAlphabet([a, b, c]);
    }
    SegmentsOfCanonical(n, [a, b, c]);
  }

  /** Digits-and-dots text whose pieces are all non-empty is its own list of segments. */
  lemma SegmentsOfCanonical(n: string, parts: seq<string>)
    requires DigitsOrDots(n) && Split(n, '.') == parts
    requires forall i :: 0 <= i < |parts| ==> parts[i] != "" && AllDigits(parts[i])
    ensures VersionSegments(n) == parts
  {
    DigitsAndDots(n);
    MapDigitsIdle(parts);
    NonEmptyIdle(parts);
  }

  lemma {:induction false} MapDigitsIdle(parts: seq<string>)
    requires forall i :: 0 <= i < |parts| ==> AllDigits(parts[i])
    ensures MapDigits(parts) == parts
  {
    if |parts| > 0 {
      KeepAll(parts[0], IsDigit);
      MapDigitsIdle(parts[1..]);
      assert parts == [parts[0]] + parts[1..];
    }
  }

  lemma {:induction false} NonEmptyIdle(parts: seq<string>)
    requires forall i :: 0 <= i < |parts| ==> parts[i] != ""
    ensures NonEmpty(parts) == parts
  {
    if |parts| > 0 {
      NonEmptyIdle(parts[1..]);
      assert parts == [parts[0]] + parts[1..];
    }
  }

  /** Text made only of decimal digits and dots. */
  predicate DigitsOrDots(n: string)
  {
    forall k :: 0 <= k < |n| ==> IsDigit(n[k]) || n[k] == '.'
  }

  lemma DigitsOrDotsConcat(x: string, y: string)
    requires DigitsOrDots(x) && DigitsOrDots(y)
    ensures DigitsOrDots(x + y)
  {
    forall k | 0 <= k < |x + y| ensures IsDigit((x + y)[k]) || (x + y)[k] == '.' {
      if k < |x| {
        assert (x + y)[k] == x[k];
      } else {
        assert (x + y)[k] == y[k - |x|];
      }
    }
  }

  lemma SegmentsAlphabet(parts: seq<string>)
    requires |parts| == 3
    requires forall i :: 0 <= i < 3 ==> AllDigits(parts[i])
    ensures DigitsOrDots(Join(parts, "."))
  {
    var a, b, c := parts[0], parts[1], parts[2];
    Join3(a, b, c, ".");
    assert parts == [a, b, c];
    assert DigitsOrDots(a) && DigitsOrDots(b) && DigitsOrDots(c) && DigitsOrDots(".") by {
      AllDigitsAreDigitsOrDots(a);
      AllDigitsAreDigitsOrDots(b);
      AllDigitsAreDigitsOrDots(c);
    }
    DigitsOrDotsConcat(a, ".");
    DigitsOrDotsConcat(a + ".", b);
    DigitsOrDotsConcat(a + "." + b, ".");
    DigitsOrDotsConcat(a + "." + b + ".", c);
  }

  lemma AllDigitsAreDigitsOrDots(s: string)
    requires AllDigits(s)
    ensures DigitsOrDots(s)
  {
  }

  /** Text made of digits and dots survives the version cleaning unchanged. */
  lemma DigitsAndDots(n: string)
    requires DigitsOrDots(n)
    ensures CleanVersion(n) == n
  {
    forall k | 0 <= k < |n| ensures !IsUpper(n[k]) && !IsSpace(n[k]) {
      DigitOrDotFacts(n[k]);
    }
    LowerIdle(n);
    AbsentWord(n, "version");
    AbsentWord(n, "update");
    TrimOfUnspaced(n);
  }

  lemma AbsentWord(n: string, word: string)
    requires |word| > 0 && !IsDigit(word[0]) && word[0] != '.'
    requires DigitsOrDots(n)
    ensures RemoveFirstWord(n, word) == n
  {
  }

  lemma DigitOrDotFacts(c: char)
    requires IsDigit(c) || c == '.'
    ensures !IsUpper(c) && !IsSpace(c)
  {
  }

  // ---------------------------------------------------------------------------------------
  // compareVersions
  // ---------------------------------------------------------------------------------------

  /** `Number(segment) || 0`: whitespace-trimmed decimal digits give their value, anything else 0. */
  function SegmentNumber(segment: string): nat
  {
    NumberOf(segment).UnwrapOr(0)
  }

  /** The number at position `i` of `v.split('.')`, 0 when missing or not numeric. */
  function VersionPart(v: string, i: nat): nat
  {
    var parts := Split(v, '.');
    if i < |parts| then SegmentNumber(parts[i]) else 0
  }

  /** The first three segment numbers of a version. */
  function VersionNumbers(v: string): (r: seq<nat>)
    ensures |r| == 3
  {
    [VersionPart(v, 0), VersionPart(v, 1), VersionPart(v, 2)]
  }

  function CompareFrom(a: seq<nat>, b: seq<nat>, i: nat): int
    requires |a| == 3 && |b| == 3
    decreases 3 - i
  {
    if i >= 3 then 0
    else if a[i] != b[i] then a[i] - b[i]
    else CompareFrom(a, b, i + 1)
  }

  /** compareVersions: the signed difference of the first differing segment among the first three. */
  function CompareVersions(v1: string, v2: string): int
  {
    CompareFrom(VersionNumbers(v1), VersionNumbers(v2), 0)
  }

  lemma CompareFromMeaning(a: seq<nat>, b: seq<nat>)
    requires |a| == 3 && |b| == 3
    ensures var r := CompareFrom(a, b, 0);
      (r == 0 <==> a == b)
      && (r != 0 ==> exists i :: 0 <= i < 3 && r == a[i] as int - b[i] && a[..i] == b[..i])
      && CompareFrom(b, a, 0) == -r
  {
    if a[0] != b[0] {
      assert a[..0] == b[..0];
    } else if a[1] != b[1] {
      assert a[..1] == b[..1];
    } else if a[2] != b[2] {
      assert a[..2] == b[..2];
    } else {
      assert a == [a[0], a[1], a[2]] && b == [b[0], b[1], b[2]];
    }
  }

  /**
   * The comparison reads only the first three segments: it is 0 exactly when they agree, and
   * otherwise the signed difference at the first position where they differ; swapping the
   * arguments negates it, so a version compares equal to itself.
   */
  lemma CompareVersionsMeaning(v1: string, v2: string)
    ensures var r := CompareVersions(v1, v2);
      var a, b := VersionNumbers(v1), VersionNumbers(v2);
      (r == 0 <==> a == b)
      && (r != 0 ==> exists i :: 0 <= i < 3 && r == a[i] as int - b[i] && a[..i] == b[..i])
      && CompareVersions(v2, v1) == -r
      && CompareVersions(v1, v1) == 0
  {
    CompareFromMeaning(VersionNumbers(v1), VersionNumbers(v2));
    CompareFromMeaning(VersionNumbers(v1), VersionNumbers(v1));
  }

  // ---------------------------------------------------------------------------------------
  // levenshteinDistance and calculateSimilarity
  // ---------------------------------------------------------------------------------------

  function Min3(a: nat, b: nat, c: nat): nat
  {
    if a <= b && a <= c then a else if b <= c then b else c
  }

  /**
   * The matrix cell `[i][j]` of levenshteinDistance: rows follow `s` (the second argument),
   * columns `t` (the first); equal characters take the diagonal cell.
   */
  function Dist(s: string, t: string, i: nat, j: nat): nat
    requires i <= |s| && j <= |t|
    decreases i + j
  {
    if i == 0 then j
    else if j == 0 then i
    else if s[i - 1] == t[j - 1] then Dist(s, t, i - 1, j - 1)
    else 1 + Min3(Dist(s, t, i - 1, j - 1), Dist(s, t, i, j - 1), Dist(s, t, i - 1, j))
  }

  /** The edit distance levenshteinDistance(str1, str2) returns. */
  function Levenshtein(str1: string, str2: string): nat
  {
    Dist(str2, str1, |str2|, |str1|)
  }

  /** levenshteinDistance: fills the matrix row by row. */
  method LevenshteinDistance(str1: string, str2: string) returns (d: nat)
    ensures d == Levenshtein(str1, str2)
  {
    var rows, cols := |str2|, |str1|;
    var matrix := new nat[rows + 1, cols + 1];
    var i := 0;
    while i <= rows
      invariant 0 <= i <= rows + 1
      invariant forall k :: 0 <= k < i ==> matrix[k, 0] == k
    {
      matrix[i, 0] := i;
      i := i + 1;
    }
    var j := 0;
    while j <= cols
      invariant 0 <= j <= cols + 1
      invariant forall k :: 0 <= k <= rows ==> matrix[k, 0] == k
      invariant forall k :: 0 <= k < j ==> matrix[0, k] == k
    {
      matrix[0, j] := j;
      j := j + 1;
    }
    forall b | 0 <= b <= cols
      ensures matrix[0, b] == Dist(str2, str1, 0, b)
    {
    }
    i := 1;
    while i <= rows
      invariant 1 <= i <= rows + 1
      invariant forall a, b :: 0 <= a < i && 0 <= b <= cols ==> matrix[a, b] == Dist(str2, str1, a, b)
      invariant forall a :: i <= a <= rows ==> matrix[a, 0] == a
    {
      FillRow(matrix, str2, str1, i);
      i := i + 1;
    }
    d := matrix[rows, cols];
  }

  /** The inner loop of levenshteinDistance: fills row `i` from the rows above it, left to right. */
  method FillRow(matrix: array2<nat>, s: string, t: string, i: nat)
    requires matrix.Length0 == |s| + 1 && matrix.Length1 == |t| + 1 && 1 <= i <= |s|
    requires forall a, b :: 0 <= a < i && 0 <= b <= |t| ==> matrix[a, b] == Dist(s, t, a, b)
    requires matrix[i, 0] == i
    modifies matrix
    ensures forall a, b :: 0 <= a <= i && 0 <= b <= |t| ==> matrix[a, b] == Dist(s, t, a, b)
    ensures forall a, b :: i < a <= |s| && 0 <= b <= |t| ==> matrix[a, b] == old(matrix[a, b])
  {
    var j := 1;
    assert matrix[i, 0] == Dist(s, t, i, 0);
    while j <= |t|
      invariant 1 <= j <= |t| + 1
      invariant forall a, b :: 0 <= a < i && 0 <= b <= |t| ==> matrix[a, b] == Dist(s, t, a, b)
      invariant forall b :: 0 <= b < j ==> matrix[i, b] == Dist(s, t, i, b)
      invariant forall a, b :: i < a <= |s| && 0 <= b <= |t| ==> matrix[a, b] == old(matrix[a, b])
    {
      FillCell(matrix, s, t, i, j);
      j := j + 1;
    }
    forall a, b | 0 <= a <= i && 0 <= b <= |t|
      ensures matrix[a, b] == Dist(s, t, a, b)
    {
      if a == i {
        assert matrix[i, b] == Dist(s, t, i, b);
      }
    }
  }

  /** The body of the inner loop: cell `[i][j]` from its three neighbours; no other cell changes. */
  method FillCell(matrix: array2<nat>, s: string, t: string, i: nat, j: nat)
    requires matrix.Length0 == |s| + 1 && matrix.Length1 == |t| + 1
    requires 1 <= i <= |s| && 1 <= j <= |t|
    requires matrix[i - 1, j - 1] == Dist(s, t, i - 1, j - 1)
    requires matrix[i, j - 1] == Dist(s, t, i, j - 1)
    requires matrix[i - 1, j] == Dist(s, t, i - 1, j)
    modifies matrix
    ensures matrix[i, j] == Dist(s, t, i, j)
    ensures forall a, b :: 0 <= a < matrix.Length0 && 0 <= b < matrix.Length1 && (a != i || b != j) ==>
      matrix[a, b] == old(matrix[a, b])
  {
    DistStep(s, t, i, j);
    if s[i - 1] == t[j - 1] {
      matrix[i, j] := matrix[i - 1, j - 1];
    } else {
      matrix[i, j] := Min3(matrix[i - 1, j - 1] + 1, matrix[i, j - 1] + 1, matrix[i - 1, j] + 1);
    }
  }

  /** One cell of the matrix from its three neighbours, in the shape levenshteinDistance computes it. */
  lemma DistStep(s: string, t: string, i: nat, j: nat)
    requires 0 < i <= |s| && 0 < j <= |t|
    ensures Dist(s, t, i, j) == if s[i - 1] == t[j - 1] then Dist(s, t, i - 1, j - 1)
      else Min3(Dist(s, t, i - 1, j - 1) + 1, Dist(s, t, i, j - 1) + 1, Dist(s, t, i - 1, j) + 1)
  {
  }

  lemma {:induction false} DistSelf(s: string, i: nat)
    requires i <= |s|
    ensures Dist(s, s, i, i) == 0
  {
    if i > 0 {
      DistSelf(s, i - 1);
    }
  }

  lemma {:induction false} DistSymmetric(s: string, t: string, i: nat, j: nat)
    requires i <= |s| && j <= |t|
    ensures Dist(s, t, i, j) == Dist(t, s, j, i)
    decreases i + j
  {
    if i > 0 && j > 0 {
      DistSymmetric(s, t, i - 1, j - 1);
      if s[i - 1] != t[j - 1] {
        var diag, left, up := Dist(s, t, i - 1, j - 1), Dist(s, t, i, j - 1), Dist(s, t, i - 1, j);
        assert Dist(s, t, i, j) == 1 + Min3(diag, left, up);
        DistSymmetric(s, t, i, j - 1);
        DistSymmetric(s, t, i - 1, j);
        assert Dist(t, s, j, i) == 1 + Min3(diag, up, left);
        Min3Swap(diag, left, up);
      }
    }
  }

  /** The minimum of three does not depend on the order of the last two. */
  lemma Min3Swap(a: nat, b: nat, c: nat)
    ensures Min3(a, b, c) == Min3(a, c, b)
  {
  }

  /** The minimum of three is one of them and no larger than any. */
  lemma Min3Meaning(a: nat, b: nat, c: nat)
    ensures var m := Min3(a, b, c); (m == a || m == b || m == c) && m <= a && m <= b && m <= c
  {
  }

  lemma DistBounds(s: string, t: string, i: nat, j: nat)
    requires i <= |s| && j <= |t|
    ensures (if i >= j then i - j else j - i) <= Dist(s, t, i, j) <= (if i >= j then i else j)
  {
    DistAtLeast(s, t, i, j);
    DistAtMost(s, t, i, j);
  }

  /** No fewer edits than the difference of the lengths. */
  lemma {:induction false} DistAtLeast(s: string, t: string, i: nat, j: nat)
    requires i <= |s| && j <= |t|
    ensures (if i >= j then i - j else j - i) <= Dist(s, t, i, j)
    decreases i + j
  {
    if i > 0 && j > 0 {
      var diag := Dist(s, t, i - 1, j - 1);
      DistAtLeast(s, t, i - 1, j - 1);
      if s[i - 1] != t[j - 1] {
        var left, up := Dist(s, t, i, j - 1), Dist(s, t, i - 1, j);
        assert Dist(s, t, i, j) == 1 + Min3(diag, left, up);
        DistAtLeast(s, t, i, j - 1);
        DistAtLeast(s, t, i - 1, j);
        GapStep(i, j, diag, left, up);
      }
    }
  }

  /** One edit more than the cheapest neighbouring cell keeps at least the length difference. */
  lemma GapStep(i: nat, j: nat, diag: nat, left: nat, up: nat)
    requires i > 0 && j > 0
    requires (if i >= j then i - j else j - i) <= diag
    requires (if i >= j - 1 then i - (j - 1) else j - 1 - i) <= left
    requires (if i - 1 >= j then i - 1 - j else j - (i - 1)) <= up
    ensures (if i >= j then i - j else j - i) <= 1 + Min3(diag, left, up)
  {
    Min3Meaning(diag, left, up);
  }

  /** No more edits than the larger length. */
  lemma {:induction false} DistAtMost(s: string, t: string, i: nat, j: nat)
    requires i <= |s| && j <= |t|
    ensures Dist(s, t, i, j) <= (if i >= j then i else j)
    decreases i + j
  {
    if i > 0 && j > 0 {
      var diag := Dist(s, t, i - 1, j - 1);
      DistAtMost(s, t, i - 1, j - 1);
      if s[i - 1] != t[j - 1] {
        var left, up := Dist(s, t, i, j - 1), Dist(s, t, i - 1, j);
        assert Dist(s, t, i, j) == 1 + Min3(diag, left, up);
        Min3Meaning(diag, left, up);
      }
    }
  }

  /**
   * The distance is 0 between equal strings, the other length when one is empty, and always
   * between the difference of the lengths and the larger length; it does not depend on the
   * argument order.
   */
  lemma LevenshteinProperties(a: string, b: string)
    ensures Levenshtein(a, a) == 0
    ensures Levenshtein(a, "") == |a| && Levenshtein("", b) == |b|
    ensures (if |a| >= |b| then |a| - |b| else |b| - |a|) <= Levenshtein(a, b)
    ensures Levenshtein(a, b) <= (if |a| >= |b| then |a| else |b|)
    ensures Levenshtein(a, b) == Levenshtein(b, a)
  {
    DistSelf(a, |a|);
    DistBounds(b, a, |b|, |a|);
    DistSymmetric(b, a, |b|, |a|);
  }

  /** calculateSimilarity: 1 minus the distance over the longer length, 1.0 for two empty strings. */
  function Similarity(str1: string, str2: string): real
  {
    var longer := if |str1| > |str2| then str1 else str2;
    var shorter := if |str1| > |str2| then str2 else str1;
    if |longer| == 0 then 1.0
    else (|longer| - Levenshtein(longer, shorter)) as real / |longer| as real
  }

  /** The ratio lies in [0, 1], is 1.0 for identical strings and ignores argument order. */
  lemma SimilarityProperties(a: string, b: string)
    ensures 0.0 <= Similarity(a, b) <= 1.0
    ensures Similarity(a, a) == 1.0
    ensures Similarity(a, b) == Similarity(b, a)
  {
    SimilarityInUnit(a, b);
    SimilaritySelf(a);
    SimilaritySymmetric(a, b);
  }

  lemma SimilarityInUnit(a: string, b: string)
    ensures 0.0 <= Similarity(a, b) <= 1.0
  {
    var longer := if |a| > |b| then a else b;
    var shorter := if |a| > |b| then b else a;
    if |longer| > 0 {
      var d := Levenshtein(longer, shorter);
      assert d <= |longer| by {
        LevenshteinProperties(longer, shorter);
      }
      RatioInUnit((|longer| - d) as real, |longer| as real);
    }
  }

  lemma SimilaritySelf(a: string)
    ensures Similarity(a, a) == 1.0
  {
    if |a| > 0 {
      assert Levenshtein(a, a) == 0 by {
        LevenshteinProperties(a, a);
      }
    }
  }

  lemma SimilaritySymmetric(a: string, b: string)
    ensures Similarity(a, b) == Similarity(b, a)
  {
    if |a| == |b| && |a| > 0 {
      assert Levenshtein(a, b) == Levenshtein(b, a) by {
        LevenshteinProperties(a, b);
      }
    }
  }

  /** Distance 0 only between equal prefixes. */
  lemma {:induction false} DistZero(s: string, t: string, i: nat, j: nat)
    requires i <= |s| && j <= |t| && Dist(s, t, i, j) == 0
    ensures i == j && s[..i] == t[..j]
    decreases i + j
  {
    if i > 0 && j > 0 && s[i - 1] == t[j - 1] {
      DistZero(s, t, i - 1, j - 1);
      assert s[..i] == s[..i - 1] + [s[i - 1]];
      assert t[..j] == t[..j - 1] + [t[j - 1]];
    }
  }

  /** Similarity is exactly 1.0 for equal strings and for no others. */
  lemma SimilarityOneIff(a: string, b: string)
    ensures Similarity(a, b) == 1.0 <==> a == b
  {
    SimilaritySelf(a);
    var longer := if |a| > |b| then a else b;
    var shorter := if |a| > |b| then b else a;
    if Similarity(a, b) == 1.0 && |longer| > 0 {
      var d := Levenshtein(longer, shorter);
      var l := |longer| as real;
      assert (l - d as real) / l == 1.0;
      RatioOne(l - d as real, l);
      DistZero(shorter, longer, |shorter|, |longer|);
      assert shorter == shorter[..|shorter|] && longer == longer[..|longer|];
    }
  }

  lemma RatioOne(x: real, l: real)
    requires l > 0.0 && x / l == 1.0
    ensures x == l
  {
  }

  lemma RatioInUnit(x: real, l: real)
    requires 0.0 <= x <= l && l > 0.0
    ensures 0.0 <= x / l <= 1.0
  {
  }
}
