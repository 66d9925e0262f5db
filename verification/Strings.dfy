/** Splitting strings at a separator. */
module Strings {

  /** A separator that occurs in neither head splits a string in one way only. */
  lemma SplitUnique(a: string, b: string, s: string, t: string, c: char)
    requires c !in a && c !in b && a + [c] + s == b + [c] + t
    ensures a == b && s == t
  {
    var x, y := a + [c] + s, b + [c] + t;
    assert x[|a|] == c && y[|b|] == c;
    assert forall k :: 0 <= k < |a| ==> x[k] == a[k] != c;
    assert forall k :: 0 <= k < |b| ==> y[k] == b[k] != c;
    assert |a| == |b|;
    assert a == x[..|a|] && b == y[..|b|];
    assert s == x[|a| + 1..] && t == y[|b| + 1..];
  }

  /** And so does one that occurs in neither tail. */
  lemma SplitLast(a: string, b: string, s: string, t: string, c: char)
    requires c !in s && c !in t && a + [c] + s == b + [c] + t
    ensures a == b && s == t
  {
    var x, y := a + [c] + s, b + [c] + t;
    assert x[|a|] == c && y[|b|] == c;
    assert forall k :: |a| < k < |x| ==> x[k] == s[k - |a| - 1] != c;
    assert forall k :: |b| < k < |y| ==> y[k] == t[k - |b| - 1] != c;
    assert |a| == |b|;
    assert a == x[..|a|] && b == y[..|b|];
    assert s == x[|a| + 1..] && t == y[|b| + 1..];
  }

  function Count(s: string, c: char): nat {
    if s == "" then 0 else (if s[0] == c then 1 else 0) + Count(s[1..], c)
  }

  lemma {:induction false} CountAppend(s: string, t: string, c: char)
    ensures Count(s + t, c) == Count(s, c) + Count(t, c)
  {
    if s == "" {
      assert s + t == t;
    } else {
      CountAppend(s[1..], t, c);
      assert (s + t)[1..] == s[1..] + t;
    }
  }

  lemma {:induction false} CountZero(s: string, c: char)
    ensures Count(s, c) == 0 <==> c !in s
  {
    if s != "" {
      CountZero(s[1..], c);
      assert s == [s[0]] + s[1..];
    }
  }

  lemma CountThree(a: string, b: string, d: string)
    ensures Count(a + ":" + b + ":" + d, ':') == Count(a, ':') + Count(b, ':') + Count(d, ':') + 2
  {
    CountAppend(a, ":", ':');
    CountAppend(a + ":", b, ':');
    CountAppend(a + ":" + b, ":", ':');
    CountAppend(a + ":" + b + ":", d, ':');
    assert ":"[1..] == "";
  }

  /** Three colon-free names joined by colons are not joined from any others. */
  lemma TwoColons(a: string, b: string, d: string, x: string, y: string, z: string)
    requires ':' !in a && ':' !in b && ':' !in d
    requires x + ":" + y + ":" + z == a + ":" + b + ":" + d
    ensures x == a && y == b && z == d
  {
    CountThree(a, b, d);
    CountThree(x, y, z);
    CountZero(a, ':');
    CountZero(b, ':');
    CountZero(d, ':');
    CountZero(x, ':');
    CountZero(y, ':');
    CountZero(z, ':');
    assert x + ":" + y + ":" + z == x + [':'] + (y + [':'] + z);
    assert a + ":" + b + ":" + d == a + [':'] + (b + [':'] + d);
    SplitUnique(x, a, y + [':'] + z, b + [':'] + d, ':');
    SplitUnique(y, b, z, d, ':');
  }
}
