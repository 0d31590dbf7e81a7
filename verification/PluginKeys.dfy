/** Comparing lists of plugin keys regardless of order (controller/channel_authz.go). */
module PluginKeys {
  import opened Text

  function Count(seen: map<string, int>, x: string): int {
    if x in seen then seen[x] else 0
  }

  /** The trimmed keys with their multiplicities. */
  ghost function Bag(xs: seq<string>): multiset<string> {
    multiset(TrimEach(xs))
  }

  lemma BagStep(xs: seq<string>, i: nat)
    requires i < |xs|
    ensures Bag(xs[..i + 1]) == Bag(xs[..i]) + multiset{Trim(xs[i])}
    ensures Bag(xs[..i + 1]) <= Bag(xs)
  {
    assert TrimEach(xs[..i + 1]) == TrimEach(xs[..i]) + [Trim(xs[i])];
    assert TrimEach(xs) == TrimEach(xs[..i + 1]) + TrimEach(xs[i + 1..]);
  }

  lemma BagBounds(xs: seq<string>)
    ensures |Bag(xs)| == |xs| && Bag(xs[..0]) == multiset{} && xs[..|xs|] == xs
  {
  }

  lemma FullBag(a: multiset<string>, b: multiset<string>)
    requires a <= b && |a| == |b|
    ensures a == b
  {
    assert |b - a| == 0;
  }

  /** Equal as multisets of trimmed keys: repetitions count, order does not. */
  method SameStringSet(left: seq<string>, right: seq<string>) returns (same: bool)
    ensures same <==> Bag(left) == Bag(right)
  {
    hide Bag;
    BagBounds(left);
    BagBounds(right);
    if |left| != |right| {
      return false;
    }
    var seen: map<string, int> := map[];
    for i := 0 to |left|
      invariant forall x :: Count(seen, x) == Bag(left[..i])[x]
    {
      BagStep(left, i);
      var key := Trim(left[i]);
      seen := seen[key := Count(seen, key) + 1];
    }
    for j := 0 to |right|
      invariant forall x :: Count(seen, x) + Bag(right[..j])[x] == Bag(left)[x]
      invariant forall x :: Count(seen, x) >= 0
    {
      BagStep(right, j);
      var key := Trim(right[j]);
      seen := seen[key := Count(seen, key) - 1];
      if seen[key] < 0 {
        assert Bag(right)[key] > Bag(left)[key];
        return false;
      }
    }
    FullBag(Bag(right), Bag(left));
    return true;
  }
}
