/** The `filter` of the subject question (index.js:72-77): drop one trailing
    period, then lower-case the first character. It runs on the raw input,
    before the formatter trims it. */
module Subject {
  import opened JsString

  predicate EndsWithPeriod(s: string) {
    |s| > 0 && s[|s| - 1] == '.'
  }

  function SubjectFilter(value: string): (r: string)
    ensures EndsWithPeriod(value) ==> |r| == |value| - 1
    ensures !EndsWithPeriod(value) ==> |r| == |value|
    ensures forall k :: 1 <= k < |r| ==> r[k] == value[k]
    ensures |r| > 0 ==> r[0] == ToLowerAscii(value[0])
    ensures r == [] <==> value == [] || value == "."
  {
    var v := if EndsWithPeriod(value) then value[..|value| - 1] else value;
    if v == [] then [] else [ToLowerAscii(v[0])] + v[1..]
  }

  /** Only one period goes: the filter of `s + ".."` still ends in a period. */
  lemma OnePeriodOnly(s: string)
    ensures EndsWithPeriod(SubjectFilter(s + ".."))
    ensures SubjectFilter("a..") == "a."
  {
    var v := s + "..";
    assert |SubjectFilter(v)| == |v| - 1;
    assert SubjectFilter(v)[|v| - 2] == v[|v| - 2];
  }

  /** Filtering again changes nothing exactly when the first pass left no
      trailing period behind. */
  lemma FilterStable(s: string)
    ensures SubjectFilter(SubjectFilter(s)) == SubjectFilter(s) <==> !EndsWithPeriod(SubjectFilter(s))
  {
    var r := SubjectFilter(s);
    if !EndsWithPeriod(r) {
      var r2 := SubjectFilter(r);
      if |r| > 0 {
        ToLowerAsciiIdempotent(s[0]);
        assert r2[0] == r[0];
      }
      assert r2 == r;
    }
  }

  /** Filtering a subject that already ends without a period is idempotent. */
  lemma FilterIdempotentWithoutPeriod(s: string)
    requires !EndsWithPeriod(s)
    ensures SubjectFilter(SubjectFilter(s)) == SubjectFilter(s)
  {
    var r := SubjectFilter(s);
    if |s| == 1 {
      assert s[0] != '.';
      assert r[0] != '.';
    } else if |s| > 1 {
      assert r[|r| - 1] == s[|s| - 1];
    }
    FilterStable(s);
  }

  lemma FixBugExample()
    ensures SubjectFilter("Fix bug.") == "fix bug"
  {
  }

  /** The filter sees the raw text: blanks at the end hide the period and a
      blank at the start shields the capital. The formatter's later trim then
      exposes both. */
  lemma BlanksDefeatFilter()
    ensures SubjectFilter(" Fix bug. ") == " Fix bug. "
    ensures Trim(SubjectFilter(" Fix bug. ")) == "Fix bug."
  {
    var s := " Fix bug. ";
    assert s[1..9] == "Fix bug.";
    assert TrimmedAt(s, 1, "Fix bug.");
    TrimUnique(s, 1, "Fix bug.");
  }
}
