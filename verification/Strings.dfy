/** The few operations of Go's strings package the models need. */
module Strings {

  // strings.Contains
  predicate Contains(s: string, sub: string) {
    sub <= s || (|s| > 0 && Contains(s[1..], sub))
  }

  // Somewhere in the string.
  lemma {:induction false} ContainsIff(s: string, sub: string)
    ensures Contains(s, sub) <==> exists i :: 0 <= i <= |s| && sub <= s[i..]
  {
    if sub <= s {
      assert sub <= s[0..];
    }
    if |s| > 0 {
      ContainsIff(s[1..], sub);
      if i :| 0 <= i <= |s[1..]| && sub <= s[1..][i..] {
        assert s[1..][i..] == s[i + 1..];
      }
      if i :| 0 <= i <= |s| && sub <= s[i..] {
        if i > 0 {
          assert s[i..] == s[1..][i - 1..];
        } else {
          assert s[0..] == s;
        }
      }
    } else if i :| 0 <= i <= |s| && sub <= s[i..] {
      assert s[i..] == s;
    }
  }

  // strings.IndexByte for one character; |s| when absent.
  function IndexOf(s: string, c: char): (i: nat)
    ensures i <= |s|
    ensures i < |s| ==> s[i] == c
    ensures forall k :: 0 <= k < i ==> s[k] != c
  {
    if s == "" || s[0] == c then 0 else 1 + IndexOf(s[1..], c)
  }

  // What comes before the first separator, and after it, is determined.
  lemma FirstSegment(sep: char, a: string, b: string, s: string, t: string)
    requires sep !in a && sep !in b
    requires a + [sep] + s == b + [sep] + t
    ensures a == b && s == t
  {
    var left, right := a + [sep] + s, b + [sep] + t;
    assert IndexOf(left, sep) == |a| by {
      assert left[|a|] == sep && forall i :: 0 <= i < |a| ==> left[i] == a[i];
    }
    assert IndexOf(right, sep) == |b| by {
      assert right[|b|] == sep && forall i :: 0 <= i < |b| ==> right[i] == b[i];
    }
    assert left[..|a|] == a && right[..|a|] == b;
    assert left[|a| + 1..] == s && right[|a| + 1..] == t;
  }
}
