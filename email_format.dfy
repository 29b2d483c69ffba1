/**
 * The email pattern `^[^\s@]+@[^\s@]+\.[^\s@]+$` shared by the C++ validator and the
 * registration form, over the whitespace class of each regex engine.
 */
module EmailFormat {
  import Text

  /** Which engine's `\s` the pattern uses. */
  datatype SpaceClass = CSpace | JsSpace

  predicate IsSpace(cls: SpaceClass, c: char) {
    match cls
    case CSpace => Text.IsCSpace(c)
    case JsSpace => Text.IsJsSpace(c)
  }

  /** Every character matches `[^\s@]`. */
  predicate Clean(cls: SpaceClass, s: string) {
    forall k :: 0 <= k < |s| ==> !IsSpace(cls, s[k]) && s[k] != '@'
  }

  /** The '@' at i and the '.' at j split e into three runs of `[^\s@]`. */
  predicate PatternAt(cls: SpaceClass, e: string, i: int, j: int) {
    0 < i && i + 1 < j && j + 1 < |e| && e[i] == '@' && e[j] == '.'
    && Clean(cls, e[..i]) && Clean(cls, e[i + 1..j]) && Clean(cls, e[j + 1..])
  }

  /** The regex: three non-empty runs, the first two separated by '@', the last two by '.'. */
  predicate MatchesPattern(cls: SpaceClass, e: string) {
    exists i, j :: 0 <= i < |e| && 0 <= j < |e| && PatternAt(cls, e, i, j)
  }

  /** A '.' that is neither the first nor the last character. */
  predicate HasInnerDot(d: string) {
    exists j :: 0 < j < |d| - 1 && d[j] == '.'
  }

  /** The '@' at i separates a clean local part from a clean domain with an inner '.'. */
  predicate SplitAt(cls: SpaceClass, e: string, i: int) {
    0 < i < |e| && e[i] == '@' && Clean(cls, e[..i]) && Clean(cls, e[i + 1..]) && HasInnerDot(e[i + 1..])
  }

  /** The address as a reader describes it: local part '@' domain. */
  predicate WellFormed(cls: SpaceClass, e: string) {
    exists i :: 0 <= i < |e| && SplitAt(cls, e, i)
  }

  lemma CleanAppend(cls: SpaceClass, a: string, b: string)
    requires Clean(cls, a) && Clean(cls, b)
    ensures Clean(cls, a + b)
  {
    forall k | 0 <= k < |a + b| ensures !IsSpace(cls, (a + b)[k]) && (a + b)[k] != '@' {
      if k >= |a| {
        assert (a + b)[k] == b[k - |a|];
      }
    }
  }

  lemma CleanSlice(cls: SpaceClass, s: string, lo: int, hi: int)
    requires Clean(cls, s) && 0 <= lo <= hi <= |s|
    ensures Clean(cls, s[lo..hi])
  {
    forall k | 0 <= k < hi - lo ensures !IsSpace(cls, s[lo..hi][k]) && s[lo..hi][k] != '@' {
      assert s[lo..hi][k] == s[lo + k];
    }
  }

  lemma PatternToWellFormed(cls: SpaceClass, e: string)
    requires MatchesPattern(cls, e)
    ensures WellFormed(cls, e)
  {
    var i, j :| 0 <= i < |e| && 0 <= j < |e| && PatternAt(cls, e, i, j);
    var d := e[i + 1..];
    var mid := e[i + 1..j];
    var last := e[j + 1..];
    assert d == mid + ['.'] + last;
    assert Clean(cls, ['.']);
    CleanAppend(cls, mid, ['.']);
    CleanAppend(cls, mid + ['.'], last);
    assert d[j - i - 1] == '.';
    assert SplitAt(cls, e, i);
  }

  lemma WellFormedToPattern(cls: SpaceClass, e: string)
    requires WellFormed(cls, e)
    ensures MatchesPattern(cls, e)
  {
    var i :| 0 <= i < |e| && SplitAt(cls, e, i);
    var d := e[i + 1..];
    var jd :| 0 < jd < |d| - 1 && d[jd] == '.';
    var j := i + 1 + jd;
    assert e[i + 1..j] == d[0..jd];
    assert e[j + 1..] == d[jd + 1..|d|];
    CleanSlice(cls, d, 0, jd);
    CleanSlice(cls, d, jd + 1, |d|);
    assert PatternAt(cls, e, i, j);
  }

  /** A well-formed address holds exactly one '@'. */
  lemma SingleAt(cls: SpaceClass, e: string)
    requires WellFormed(cls, e)
    ensures exists i :: 0 <= i < |e| && e[i] == '@' && forall k :: 0 <= k < |e| && e[k] == '@' ==> k == i
  {
    var i :| 0 <= i < |e| && SplitAt(cls, e, i);
    var d := e[i + 1..];
    forall k | 0 <= k < |e| && k != i ensures e[k] != '@' {
      if k < i {
        assert e[k] == e[..i][k];
      } else {
        assert e[k] == d[k - i - 1];
      }
    }
  }

  /**
   * The regex accepts exactly the addresses made of a non-empty local part, one '@' and a
   * domain with an inner '.', with no whitespace anywhere; such an address has a single '@'.
   */
  lemma PatternIff(cls: SpaceClass, e: string)
    ensures MatchesPattern(cls, e) <==> WellFormed(cls, e)
    ensures MatchesPattern(cls, e) ==>
      exists i :: 0 <= i < |e| && e[i] == '@' && forall k :: 0 <= k < |e| && e[k] == '@' ==> k == i
  {
    if MatchesPattern(cls, e) {
      PatternToWellFormed(cls, e);
      SingleAt(cls, e);
    }
    if WellFormed(cls, e) {
      WellFormedToPattern(cls, e);
    }
  }
}
