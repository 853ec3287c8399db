/**
 * The registry's slug rule, shared by the mod commands, the review modals and the HTTP
 * controller: lowercase, drop every character outside `[\w\s-]`, and turn each whitespace run
 * into one `_`. Unlike the canonical mod name it neither trims nor rewrites hyphens.
 */
module Slugs {
  import opened Text
  import opened Normalization
  import ModDetection

  function Slug(name: string): string
  {
    CollapseRuns(KeepChars(Lower(name), IsNameSource), IsSpace, '_')
  }

  /** A slug uses only lowercase ASCII letters, digits, `_` and `-`. */
  lemma SlugShape(name: string)
    ensures AllSatisfy(Slug(name), SpacedSource)
  {
    var lowered := Lower(name);
    forall k | 0 <= k < |lowered| ensures NotUpper(lowered[k]) {
      LowerCharNotUpper(name[k]);
    }
    KeptFromUnupper(lowered);
    var cleaned := KeepChars(lowered, IsNameSource);
    forall k | 0 <= k < |cleaned| && !IsSpace(cleaned[k]) ensures SpacedSource(cleaned[k]) {
      assert LoweredSource(cleaned[k]);
    }
    CollapseKeeps(cleaned, IsSpace, '_', SpacedSource);
  }

  /** Deriving a slug from a slug gives it back unchanged. */
  lemma SlugIdempotent(name: string)
    ensures Slug(Slug(name)) == Slug(name)
  {
    var s := Slug(name);
    SlugShape(name);
    forall k | 0 <= k < |s| ensures !IsUpper(s[k]) && IsNameSource(s[k]) && !IsSpace(s[k]) {
      assert SpacedSource(s[k]);
    }
    LowerIdle(s);
    KeepAll(s, IsNameSource);
    CollapseAbsent(s, IsSpace, '_');
  }

  /** Leading whitespace is not trimmed: it becomes a leading `_`. */
  lemma SlugKeepsLeadingSpace(name: string)
    requires |name| > 0 && IsSpace(name[0])
    ensures |Slug(name)| > 0 && Slug(name)[0] == '_'
  {
    var lowered := Lower(name);
    assert lowered[0] == name[0];
    assert KeepChars(lowered, IsNameSource) == [lowered[0]] + KeepChars(lowered[1..], IsNameSource);
  }

  /** A name with a hyphen keeps it in its slug. */
  lemma SlugKeepsHyphen(name: string)
    requires '-' in name
    ensures '-' in Slug(name)
  {
    var i :| 0 <= i < |name| && name[i] == '-';
    assert Lower(name)[i] == '-';
    KeepKeepsHyphen(Lower(name));
    CollapseKeepsHyphen(KeepChars(Lower(name), IsNameSource), IsSpace, '_');
  }

  lemma {:induction false} KeepKeepsHyphen(s: string)
    requires '-' in s
    ensures '-' in KeepChars(s, IsNameSource)
  {
    if s[0] != '-' {
      assert '-' in s[1..];
      KeepKeepsHyphen(s[1..]);
    }
  }

  lemma {:induction false} DropRunKeepsHyphen(s: string, P: char -> bool)
    requires '-' in s && !P('-')
    ensures '-' in DropRun(s, P)
  {
    if P(s[0]) {
      assert '-' in s[1..];
      DropRunKeepsHyphen(s[1..], P);
    }
  }

  lemma {:induction false} CollapseKeepsHyphen(s: string, P: char -> bool, r: char)
    requires '-' in s && !P('-')
    ensures '-' in CollapseRuns(s, P, r)
    decreases |s|
  {
    if s[0] != '-' {
      assert '-' in s[1..];
      if P(s[0]) {
        DropRunKeepsHyphen(s[1..], P);
        CollapseKeepsHyphen(DropRun(s[1..], P), P, r);
      } else {
        CollapseKeepsHyphen(s[1..], P, r);
      }
    }
  }

  /**
   * A mod registered under a hyphenated name never matches a detected name exactly: its slug
   * and normalized name keep the hyphen, while a canonical detected name has none.
   */
  lemma HyphenatedNeverExact(name: string, c: ModDetection.Candidate, detected: string)
    requires '-' in name && c.slug == Slug(name) && c.normalizedName == Slug(name)
    ensures !ModDetection.ExactlyNamed(c, NormalizeModName(detected))
  {
    SlugKeepsHyphen(name);
    NormalizeModNameShape(detected);
  }
}
