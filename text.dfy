/**
 * The string operations the converter windows rely on: `string.Contains`,
 * `string.EndsWith` and `string.LastIndexOf`, all compared character by
 * character (ordinally). .NET's `Contains(string)` is ordinal, but
 * `EndsWith(string)` and `LastIndexOf(string)` compare with the current
 * culture; the model does not follow culture-specific matching.
 */
module Text {

  /** `s.EndsWith(suffix)`, ordinally: the last |suffix| characters of `s` are `suffix`. */
  predicate EndsWith(s: string, suffix: string)
  {
    |suffix| <= |s| && s[|s| - |suffix|..] == suffix
  }

  /** `s.Contains(part)`: `part` occurs somewhere in `s`. */
  predicate Contains(s: string, part: string)
    decreases |s|
  {
    part <= s || (s != [] && Contains(s[1..], part))
  }

  /** Whatever contains `part` is at least as long as `part`. */
  lemma {:induction false} ContainsIsLonger(s: string, part: string)
    requires Contains(s, part)
    ensures |part| <= |s|
    decreases |s|
  {
    if !(part <= s) {
      ContainsIsLonger(s[1..], part);
    }
  }

  /** A string contains each of its suffixes. */
  lemma {:induction false} EndsWithContains(s: string, suffix: string)
    requires EndsWith(s, suffix)
    ensures Contains(s, suffix)
    decreases |s|
  {
    if |suffix| < |s| {
      assert s[1..][|s[1..]| - |suffix|..] == s[|s| - |suffix|..];
      EndsWithContains(s[1..], suffix);
    } else {
      assert s == suffix;
    }
  }

  /** `s.LastIndexOf("c")`, ordinally: the index of the last `c` in `s`, or -1 when there is none. */
  function LastIndexOf(s: string, c: char): (i: int)
    ensures -1 <= i < |s|
    ensures 0 <= i ==> s[i] == c
    ensures forall j :: i < j < |s| ==> s[j] != c
  {
    if s == [] then -1
    else if s[|s| - 1] == c then |s| - 1
    else LastIndexOf(s[..|s| - 1], c)
  }

  /** Appending text without `c` leaves the last `c` where it was. */
  lemma LastIndexOfAppend(s: string, rest: string, c: char)
    requires c !in rest
    ensures LastIndexOf(s + rest, c) == LastIndexOf(s, c)
  {
    var i, i' := LastIndexOf(s + rest, c), LastIndexOf(s, c);
    if 0 <= i' {
      assert (s + rest)[i'] == c;
    }
    if 0 <= i {
      assert s[i] == (s + rest)[i];
    }
  }
}
