/**
 * The start-up check of the Node.js version: the running version is compared segment by
 * segment with the required one, and the script exits with status 1 when it is older.
 */
module NodeVersion {
  import opened Wrappers
  import opened Text

  const RequiredVersion: string := "24.0.0"

  /** `v.split('.').map(Number)`: `None` stands for NaN. */
  function Parts(v: string): seq<Option<nat>>
  {
    NumbersOf(Split(v, '.'))
  }

  /**
   * `.map(Number)` over a list of pieces: one number per piece, a number exactly when the
   * trimmed piece is all digits, and a piece of digits reads as its decimal value.
   */
  function NumbersOf(pieces: seq<string>): (r: seq<Option<nat>>)
    ensures |r| == |pieces|
    ensures forall i :: 0 <= i < |r| ==> (r[i].Some? <==> AllDigits(Trim(pieces[i])))
    ensures forall i :: 0 <= i < |r| && AllDigits(pieces[i]) ==> r[i] == Some(DigitsValue(pieces[i]))
  {
    var r := seq(|pieces|, i requires 0 <= i < |pieces| => NumberOf(pieces[i]));
    forall i | 0 <= i < |r| && AllDigits(pieces[i])
      ensures r[i] == Some(DigitsValue(pieces[i]))
    {
      NumberOfDigits(pieces[i]);
    }
    r
  }

  /** `parts[i]`, where reading past the end gives `undefined` (`None`). */
  function PartAt(parts: seq<Option<nat>>, i: nat): Option<nat>
  {
    if i < |parts| then parts[i] else None
  }

  /** JavaScript's `a > b` on numbers where NaN and `undefined` compare false both ways. */
  predicate Greater(a: Option<nat>, b: Option<nat>)
  {
    a.Some? && b.Some? && a.value > b.value
  }

  /** Position `i` decides nothing: the current segment is neither greater nor smaller. */
  predicate Undecided(current: seq<Option<nat>>, required: seq<Option<nat>>, i: nat)
    requires i < |required|
  {
    !Greater(PartAt(current, i), required[i]) && !Greater(required[i], PartAt(current, i))
  }

  /** The loop of compareVersions from position `i` on. */
  function CompareFrom(current: seq<Option<nat>>, required: seq<Option<nat>>, i: nat): int
    decreases |required| - i
  {
    if i >= |required| then 0
    else if Greater(PartAt(current, i), required[i]) then 1
    else if Greater(required[i], PartAt(current, i)) then -1
    else CompareFrom(current, required, i + 1)
  }

  /** compareVersions(current, required). */
  function CompareVersions(current: string, required: string): int
  {
    CompareFrom(Parts(current), Parts(required), 0)
  }

  /** The exit status of the script for the running version. */
  function ExitStatus(current: string): nat
  {
    if CompareVersions(current, RequiredVersion) < 0 then 1 else 0
  }

  /** Position `i` is the first, from `k` on, where the two segments are ordered either way. */
  predicate DecidedFirstAt(current: seq<Option<nat>>, required: seq<Option<nat>>, k: nat, i: nat)
  {
    k <= i < |required| && (forall j :: k <= j < i ==> Undecided(current, required, j))
  }

  /**
   * The loop answers 1 or -1 at the first position, among the required segments, where the
   * current segment is strictly greater or smaller, and 0 when there is no such position.
   */
  lemma {:induction false} CompareFromMeaning(current: seq<Option<nat>>, required: seq<Option<nat>>, k: nat)
    requires k <= |required|
    ensures var r := CompareFrom(current, required, k);
      (r == 0 || r == 1 || r == -1)
      && (r == 0 <==> forall j :: k <= j < |required| ==> Undecided(current, required, j))
      && (r == 1 <==> exists i: nat :: DecidedFirstAt(current, required, k, i) && Greater(PartAt(current, i), required[i]))
      && (r == -1 <==> exists i: nat :: DecidedFirstAt(current, required, k, i) && Greater(required[i], PartAt(current, i)))
    decreases |required| - k
  {
    if k < |required| {
      CompareFromMeaning(current, required, k + 1);
      if !Undecided(current, required, k) {
        assert DecidedFirstAt(current, required, k, k);
        forall i: nat | DecidedFirstAt(current, required, k, i)
          ensures i == k
        {
        }
      } else {
        assert Undecided(current, required, k);
        forall i: nat | DecidedFirstAt(current, required, k, i) && i > k
          ensures DecidedFirstAt(current, required, k + 1, i)
        {
        }
        forall i: nat | DecidedFirstAt(current, required, k + 1, i)
          ensures DecidedFirstAt(current, required, k, i)
        {
        }
      }
    }
  }

  /** Only the first `|required|` current segments are read; later ones are ignored. */
  lemma {:induction false} IgnoresExtraSegments(c1: seq<Option<nat>>, c2: seq<Option<nat>>, required: seq<Option<nat>>, k: nat)
    requires forall i :: 0 <= i < |required| ==> PartAt(c1, i) == PartAt(c2, i)
    ensures CompareFrom(c1, required, k) == CompareFrom(c2, required, k)
    decreases |required| - k
  {
    if k < |required| {
      IgnoresExtraSegments(c1, c2, required, k + 1);
    }
  }

  /** The required version reads as the numbers 24, 0 and 0. */
  lemma RequiredParts()
    ensures Parts(RequiredVersion) == [Some(24), Some(0), Some(0)]
  {
    assert RequiredVersion == "24" + "." + "0" + "." + "0";
    assert Parts("24" + "." + "0" + "." + "0") == [Some(DigitsValue("24")), Some(DigitsValue("0")), Some(DigitsValue("0"))] by {
      assert AllDigits("24") && AllDigits("0");
      PartsOfDigits("24", "0", "0");
    }
    assert DigitsValue("24") == 24 by {
      assert "24"[..1] == "2";
    }
  }

  /** Three digit strings joined by dots read as their three values. */
  lemma PartsOfDigits(a: string, b: string, c: string)
    requires AllDigits(a) && AllDigits(b) && AllDigits(c)
    ensures Parts(a + "." + b + "." + c) == [Some(DigitsValue(a)), Some(DigitsValue(b)), Some(DigitsValue(c))]
  {
    PartsOfThree(a, b, c);
    assert NumberOf(a) == Some(DigitsValue(a)) by {
      NumberOfDigits(a);
    }
    assert NumberOf(b) == Some(DigitsValue(b)) by {
      NumberOfDigits(b);
    }
    assert NumberOf(c) == Some(DigitsValue(c)) by {
      NumberOfDigits(c);
    }
  }

  /** Three dot-free strings joined by dots read as the numbers of the three. */
  lemma PartsOfThree(a: string, b: string, c: string)
    requires AllDigits(a) && AllDigits(b) && AllDigits(c)
    ensures Parts(a + "." + b + "." + c) == [NumberOf(a), NumberOf(b), NumberOf(c)]
  {
    var v := a + "." + b + "." + c;
    assert Split(v, '.') == [a, b, c] by {
      SplitThree(a, b, c);
    }
    NumbersOfThree(a, b, c);
  }

  lemma NumbersOfThree(a: string, b: string, c: string)
    ensures NumbersOf([a, b, c]) == [NumberOf(a), NumberOf(b), NumberOf(c)]
  {
    var r := NumbersOf([a, b, c]);
    assert |r| == 3 && r[0] == NumberOf(a) && r[1] == NumberOf(b) && r[2] == NumberOf(c);
  }

  lemma NumberOfDigits(s: string)
    requires AllDigits(s)
    ensures NumberOf(s) == Some(DigitsValue(s))
  {
    forall k | 0 <= k < |s| ensures !IsSpace(s[k]) {
      DigitNotSpace(s[k]);
    }
    TrimOfUnspaced(s);
  }

  lemma DigitNotSpace(c: char)
    requires IsDigit(c)
    ensures !IsSpace(c)
  {
  }

  /**
   * The script exits with status 1 exactly when, at the first of the three required positions
   * where the running version's segment is comparable and different, it is smaller.
   */
  lemma ExitMeaning(current: string)
    ensures var c, req := Parts(current), Parts(RequiredVersion);
      |req| == 3
      && (ExitStatus(current) == 1 <==> exists i: nat :: DecidedFirstAt(c, req, 0, i) && Greater(req[i], PartAt(c, i)))
  {
    RequiredParts();
    CompareFromMeaning(Parts(current), Parts(RequiredVersion), 0);
  }
}
