/** Facts about sequences that several modules use. */
module Sequences {

  ghost predicate Distinct<T(!new)>(s: seq<T>) {
    forall i, j :: 0 <= i < j < |s| ==> s[i] != s[j]
  }

  lemma Associative<T>(a: seq<T>, b: seq<T>, c: seq<T>)
    ensures (a + b) + c == a + (b + c)
  {
  }

  // `sub` is what `keep` takes of s, in order: the elements at the positions
  // `at`, which grow and are all those it takes.
  ghost predicate Selects<T>(sub: seq<T>, s: seq<T>, keep: T -> bool, at: seq<nat>) {
    && |at| == |sub|
    && (forall i :: 0 <= i < |at| ==> at[i] < |s| && sub[i] == s[at[i]] && keep(s[at[i]]))
    && (forall i, j :: 0 <= i < j < |at| ==> at[i] < at[j])
    && (forall k :: 0 <= k < |s| && keep(s[k]) ==> k in at)
  }

  // One more element.
  lemma SelectsMore<T>(sub: seq<T>, s: seq<T>, keep: T -> bool, at: seq<nat>, x: T, whole: seq<T>)
    requires Selects(sub, s, keep, at) && whole == s + [x]
    ensures keep(x) ==> Selects(sub + [x], whole, keep, at + [|s|])
    ensures !keep(x) ==> Selects(sub, whole, keep, at)
  {
    if keep(x) {
      var more := at + [|s|];
      forall k | 0 <= k < |whole| && keep(whole[k]) ensures k in more {
        if k < |s| {
          assert k in at;
        } else {
          assert more[|at|] == k;
        }
      }
    } else {
      forall k | 0 <= k < |whole| && keep(whole[k]) ensures k in at {
        assert whole[k] == s[k];
      }
    }
  }
}
