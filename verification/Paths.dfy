/** Directed reachability along an arbitrary edge relation. */
module Paths {
  import opened Nostr

  type Edges = (PubKey, PubKey) -> bool

  ghost predicate IsPath(e: Edges, p: seq<PubKey>, a: PubKey, k: PubKey) {
    |p| > 0 && p[0] == a && p[|p| - 1] == k && forall i :: 0 <= i < |p| - 1 ==> e(p[i], p[i + 1])
  }

  /** Some path leads from `a` to `k`. */
  ghost predicate Reach(e: Edges, a: PubKey, k: PubKey) {
    exists p :: IsPath(e, p, a, k)
  }

  lemma ReachSelf(e: Edges, a: PubKey)
    ensures Reach(e, a, a)
  {
    assert IsPath(e, [a], a, a);
  }

  lemma ReachStep(e: Edges, a: PubKey, f: PubKey, g: PubKey)
    requires Reach(e, a, f) && e(f, g)
    ensures Reach(e, a, g)
  {
    var p :| IsPath(e, p, a, f);
    assert IsPath(e, p + [g], a, g);
  }

  lemma ReachMono(e: Edges, e': Edges, a: PubKey, k: PubKey)
    requires Reach(e, a, k) && forall f, g :: e(f, g) ==> e'(f, g)
    ensures Reach(e', a, k)
  {
    var p :| IsPath(e, p, a, k);
    assert IsPath(e', p, a, k);
  }

  /** A set closed under the edges is never left. */
  lemma ReachStaysIn(e: Edges, s: set<PubKey>, a: PubKey, k: PubKey)
    requires a in s && forall f, g :: f in s && e(f, g) ==> g in s
    requires Reach(e, a, k)
    ensures k in s
  {
    var p :| IsPath(e, p, a, k);
    PathStaysIn(e, s, p, |p| - 1);
  }

  lemma {:induction false} PathStaysIn(e: Edges, s: set<PubKey>, p: seq<PubKey>, n: nat)
    requires n < |p| && p[0] in s && forall f, g :: f in s && e(f, g) ==> g in s
    requires forall i :: 0 <= i < |p| - 1 ==> e(p[i], p[i + 1])
    ensures p[n] in s
  {
    if n > 0 {
      PathStaysIn(e, s, p, n - 1);
      assert e(p[n - 1], p[n - 1 + 1]);
    }
  }
}
