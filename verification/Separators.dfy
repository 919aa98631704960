/** Strings built with a separator. */
module Separators {

  /** Splitting one string at two different separators leaves the later one in the longer rest. */
  lemma LaterInRest(a: string, x: string, b: string, y: string, c: char)
    requires a + [c] + x == b + [c] + y
    requires |a| < |b|
    ensures c in x
  {
    assert (a + [c] + x)[|b|] == (b + [c] + y)[|b|] == c;
    assert x[|b| - |a| - 1] == c;
  }

  /** A string has one decomposition into a prefix, a separator and a rest without separator. */
  lemma LastUnique(a: string, x: string, b: string, y: string, c: char)
    requires c !in x && c !in y
    requires a + [c] + x == b + [c] + y
    ensures a == b && x == y
  {
    if |a| < |b| {
      LaterInRest(a, x, b, y, c);
    } else if |b| < |a| {
      LaterInRest(b, y, a, x, c);
    } else {
      var s := a + [c] + x;
      assert a == s[..|a|] && x == s[|a| + 1..];
      assert b == s[..|a|] && y == s[|a| + 1..];
    }
  }
}
