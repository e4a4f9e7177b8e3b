/** Call graphs by function id, and reachability in them. */
module CallGraph {

  type Id = string
  type Graph = map<Id, seq<Id>>

  ghost predicate Closed(g: Graph) { forall x, i :: x in g && 0 <= i < |g[x]| ==> g[x][i] in g }

  ghost predicate Path(g: Graph, p: seq<Id>)
  {
    && p != []
    && (forall i :: 0 <= i < |p| ==> p[i] in g)
    && (forall i :: 0 <= i < |p| - 1 ==> p[i + 1] in g[p[i]])
  }

  ghost predicate PathFromTo(g: Graph, p: seq<Id>, a: Id, b: Id) { Path(g, p) && p[0] == a && p[|p| - 1] == b }

  ghost predicate Reach(g: Graph, a: Id, b: Id) { exists p :: PathFromTo(g, p, a, b) }

  /** Each reaches the other. */
  ghost predicate Mutual(g: Graph, a: Id, b: Id) { Reach(g, a, b) && Reach(g, b, a) }

  lemma ReachSelf(g: Graph, a: Id)
    requires a in g
    ensures Reach(g, a, a)
  {
    assert PathFromTo(g, [a], a, a);
  }

  lemma ReachEdge(g: Graph, a: Id, b: Id)
    requires a in g && b in g && b in g[a]
    ensures Reach(g, a, b)
  {
    assert PathFromTo(g, [a, b], a, b);
  }

  lemma ReachTransitive(g: Graph, a: Id, b: Id, c: Id)
    requires Reach(g, a, b) && Reach(g, b, c)
    ensures Reach(g, a, c)
  {
    var p :| PathFromTo(g, p, a, b);
    var q :| PathFromTo(g, q, b, c);
    var r := p + q[1..];
    forall i | 0 <= i < |r| - 1 ensures r[i + 1] in g[r[i]] {
      if i >= |p| - 1 {
        assert r[i] == q[i - (|p| - 1)] && r[i + 1] == q[i + 1 - (|p| - 1)];
      }
    }
    assert PathFromTo(g, r, a, c);
  }

  ghost predicate ClosedUnder(g: Graph, s: set<Id>)
  {
    forall x, i :: x in s && x in g && 0 <= i < |g[x]| ==> g[x][i] in s
  }

  /** Nothing outside a set closed under calls is reached from inside. */
  lemma ReachStaysInside(g: Graph, s: set<Id>, a: Id, b: Id)
    requires ClosedUnder(g, s) && a in s && Reach(g, a, b)
    ensures b in s
  {
    var p :| PathFromTo(g, p, a, b);
    PathStaysInside(g, s, p, |p| - 1);
  }

  lemma {:induction false} PathStaysInside(g: Graph, s: set<Id>, p: seq<Id>, k: nat)
    requires ClosedUnder(g, s) && Path(g, p) && p[0] in s && k < |p|
    ensures p[k] in s
  {
    if k > 0 {
      PathStaysInside(g, s, p, k - 1);
      assert p[k - 1 + 1] in g[p[k - 1]];
    }
  }
}
