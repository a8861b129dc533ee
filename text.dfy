/**
 * Plain facts about strings. The template treats the runner's expression
 * language and shell text as opaque strings, so the only questions asked of
 * them are where one string starts, ends or occurs inside another.
 */
module Text {

  predicate StartsWith(s: string, prefix: string) {
    prefix <= s
  }

  predicate EndsWith(s: string, suffix: string) {
    |suffix| <= |s| && s[|s| - |suffix|..] == suffix
  }

  /** `sub` occurs somewhere in `s`. */
  predicate Contains(s: string, sub: string) {
    exists i :: 0 <= i <= |s| && sub <= s[i..]
  }

  /** An occurrence survives putting text on either side. */
  lemma ContainsExtend(a: string, t: string, b: string, sub: string)
    requires Contains(t, sub)
    ensures Contains(a + t + b, sub)
  {
    var i :| 0 <= i <= |t| && sub <= t[i..];
    assert (a + t + b)[|a| + i..] == t[i..] + b;
    assert sub <= (a + t + b)[|a| + i..];
  }

  /** Whatever contains `a + b` contains `a`. */
  lemma ContainsShorter(s: string, a: string, b: string)
    requires Contains(s, a + b)
    ensures Contains(s, a)
  {
    var i :| 0 <= i <= |s| && a + b <= s[i..];
    assert a <= s[i..] by {
      assert forall k :: 0 <= k < |a| ==> a[k] == (a + b)[k];
    }
  }

  /** A string lacking one of the characters of `sub` cannot contain `sub`. */
  lemma MissingCharExcludes(s: string, sub: string, c: char)
    requires c in sub && c !in s
    ensures !Contains(s, sub)
  {
    assert forall i :: 0 <= i <= |s| ==> !(sub <= s[i..]);
  }

  /** Two strings whose last characters differ cannot both end `s`. */
  lemma LastCharDecides(s: string, x: string, y: string)
    requires EndsWith(s, x) && |x| > 0 && |y| > 0
    requires x[|x| - 1] != y[|y| - 1]
    ensures !EndsWith(s, y)
  {
    assert s[|s| - 1] == x[|x| - 1] by {
      assert s[|s| - |x|..][|x| - 1] == s[|s| - 1];
    }
  }

  /** `parts` written one after another with `sep` between neighbours. */
  function Join(parts: seq<string>, sep: string): string
    decreases |parts|
  {
    if |parts| == 0 then ""
    else if |parts| == 1 then parts[0]
    else parts[0] + sep + Join(parts[1..], sep)
  }

  /** A join of two or more parts opens with the first part and a separator. */
  lemma JoinStartsWith(parts: seq<string>, sep: string)
    requires |parts| >= 2
    ensures StartsWith(Join(parts, sep), parts[0] + sep)
  {
  }

  /** A join of one or more parts closes with the last part, and nothing after it. */
  lemma {:induction false} JoinEndsWith(parts: seq<string>, sep: string)
    requires |parts| >= 1
    ensures EndsWith(Join(parts, sep), parts[|parts| - 1])
    decreases |parts|
  {
    if |parts| > 1 {
      JoinEndsWith(parts[1..], sep);
      var tail := Join(parts[1..], sep);
      var last := parts[|parts| - 1];
      assert parts[1..][|parts[1..]| - 1] == last;
      var whole := parts[0] + sep + tail;
      assert whole[|whole| - |last|..] == tail[|tail| - |last|..];
    }
  }

  /** Every part occurs in the join. */
  lemma {:induction false} JoinContains(parts: seq<string>, sep: string, i: nat)
    requires i < |parts|
    ensures Contains(Join(parts, sep), parts[i])
    decreases |parts|
  {
    if |parts| == 1 {
      assert parts[0] <= parts[0][0..];
    } else if i == 0 {
      assert parts[0] <= Join(parts, sep)[0..];
    } else {
      JoinContains(parts[1..], sep, i - 1);
      ContainsExtend(parts[0] + sep, Join(parts[1..], sep), "", parts[i]);
      assert parts[0] + sep + Join(parts[1..], sep) + "" == Join(parts, sep);
    }
  }
}
