/** Text helpers shared by the client and the server: ASCII case folding
    (the file names handled are ASCII) and suffix tests. */
module Ascii {

  function LowerChar(c: char): (d: char)
    ensures 'A' <= c <= 'Z' ==> d as int == c as int + 32
    ensures !('A' <= c <= 'Z') ==> d == c
    ensures !('A' <= d <= 'Z')
  {
    if 'A' <= c <= 'Z' then (c as int + 32) as char else c
  }

  /** Every character lower-cased, the rest left as they are. */
  function ToLower(s: string): (t: string)
    ensures |t| == |s|
  {
    seq(|s|, i requires 0 <= i < |s| => LowerChar(s[i]))
  }

  /** Lower-casing twice is lower-casing once. */
  lemma ToLowerIdempotent(s: string)
    ensures ToLower(ToLower(s)) == ToLower(s)
  {
  }

  predicate EndsWith(s: string, suffix: string) {
    |suffix| <= |s| && s[|s| - |suffix|..] == suffix
  }

  /** A lower-case suffix is found in the lower-cased name exactly when the
      name ends with some casing of it. */
  lemma EndsWithLower(s: string, suffix: string)
    requires ToLower(suffix) == suffix
    ensures EndsWith(ToLower(s), suffix)
        <==> |suffix| <= |s| && ToLower(s[|s| - |suffix|..]) == suffix
  {
    if |suffix| <= |s| {
      ToLowerSuffix(s, |s| - |suffix|);
    }
  }

  /** Lower-casing commutes with taking a suffix. */
  lemma ToLowerSuffix(s: string, i: int)
    requires 0 <= i <= |s|
    ensures ToLower(s)[i..] == ToLower(s[i..])
  {
    var a, b := ToLower(s)[i..], ToLower(s[i..]);
    forall k | 0 <= k < |a| ensures a[k] == b[k] {
      assert a[k] == LowerChar(s[i + k]);
    }
  }
}
