/**
 * The `repr!` macro: an enum declared with explicit discriminants and its
 * `_from`, whose `match` has one arm `$val => Some($name::$var)` per listed
 * variant, in declaration order, and a final `_ => None`. `Arms` is that
 * list; `From` is what the generated `match` computes from it.
 */
module Repr {
  import opened Wrappers

  /** The discriminants of a `repr!` invocation are pairwise distinct (the compiler refuses duplicates). */
  predicate Distinct<T>(arms: seq<(bv8, T)>) {
    forall j, k :: 0 <= j < k < |arms| ==> arms[j].0 != arms[k].0
  }

  /**
   * `_from`: the variant of the first arm whose discriminant is `v`, and
   * `None` when no arm lists `v`.
   */
  function From<T>(arms: seq<(bv8, T)>, v: bv8): (r: Option<T>)
    ensures r.None? <==> forall i :: 0 <= i < |arms| ==> arms[i].0 != v
    ensures r.Some? ==> (v, r.value) in arms
    decreases |arms|
  {
    if |arms| == 0 then None
    else if arms[0].0 == v then Some(arms[0].1)
    else
      assert forall i :: 0 < i < |arms| ==> arms[i] == arms[1..][i - 1];
      From(arms[1..], v)
  }

  /** Round trip: with distinct discriminants, every variant converts back from its own discriminant. */
  lemma {:induction false} FromDeclared<T>(arms: seq<(bv8, T)>, i: nat)
    requires Distinct(arms) && i < |arms|
    ensures From(arms, arms[i].0) == Some(arms[i].1)
    decreases i
  {
    if i > 0 {
      assert arms[0].0 != arms[i].0;
      assert arms[1..][i - 1] == arms[i];
      FromDeclared(arms[1..], i - 1);
    }
  }
}
