/**
 * What breadth-first search promises, stated over a graph value: chains of
 * actors that share movies, hop distances, and parent maps whose pointers
 * lead back to the start.
 */
module Paths {
  import opened Wrappers
  import opened Nodes

  /** The BFS result type: actor key to its parent's key; None for the start (Java's null). */
  type ParentMap = map<string, Option<string>>

  /** Actors a and b of g appear in at least one common movie: one hop of the projected actor graph. */
  predicate Shares(g: GraphState, a: string, b: string) {
    a in g.actorNodes && b in g.actorNodes && g.actorNodes[a].movies * g.actorNodes[b].movies != {}
  }

  /** The actors bfs looks at from a: every actor of every movie of a. */
  function CoActors(g: GraphState, a: string): set<string>
    requires a in g.actorNodes
  {
    set m, k | m in g.actorNodes[a].movies && m in g.movieNodes && k in g.movieNodes[m].actors :: k
  }

  /** In a consistent graph, the actors bfs visits from a are exactly those sharing a movie with a. */
  lemma CoActorsShare(g: GraphState, a: string, b: string)
    requires Consistent(g) && a in g.actorNodes
    ensures b in CoActors(g, a) <==> Shares(g, a, b)
  {
    if Shares(g, a, b) {
      var m :| m in g.actorNodes[a].movies * g.actorNodes[b].movies;
      assert b in g.movieNodes[m].actors;
    }
    if b in CoActors(g, a) {
      var m :| m in g.actorNodes[a].movies && m in g.movieNodes && b in g.movieNodes[m].actors;
      assert m in g.actorNodes[a].movies * g.actorNodes[b].movies;
    }
  }

  /** p is a chain: actors of g, each sharing a movie with the next. */
  ghost predicate IsChain(g: GraphState, p: seq<string>) {
    && |p| > 0
    && (forall i :: 0 <= i < |p| ==> p[i] in g.actorNodes)
    && (forall i :: 0 <= i < |p| - 1 ==> Shares(g, p[i], p[i + 1]))
  }

  /** x is reachable from s in exactly n hops. */
  ghost predicate ReachableIn(g: GraphState, s: string, x: string, n: nat) {
    exists p :: IsChain(g, p) && |p| == n + 1 && p[0] == s && p[n] == x
  }

  ghost predicate Reachable(g: GraphState, s: string, x: string) {
    exists n :: ReachableIn(g, s, x, n)
  }

  /** n is the shortest hop distance from s to x. */
  ghost predicate ShortestHops(g: GraphState, s: string, x: string, n: nat) {
    ReachableIn(g, s, x, n) && forall k: nat :: k < n ==> !ReachableIn(g, s, x, k)
  }

  /** Following parent pointers from k reaches the node with no parent in exactly d steps. */
  predicate ReachesRootIn(pm: ParentMap, k: string, d: nat)
    decreases d
  {
    k in pm && (if d == 0 then pm[k].None? else pm[k].Some? && ReachesRootIn(pm, pm[k].value, d - 1))
  }

  /** The actors visited when following parent pointers from k, listed from the root to k. */
  function ParentChain(pm: ParentMap, k: string, d: nat): (p: seq<string>)
    requires ReachesRootIn(pm, k, d)
    ensures |p| == d + 1 && p[d] == k
    decreases d
  {
    if d == 0 then [k] else ParentChain(pm, pm[k].value, d - 1) + [k]
  }

  /**
   * pm is a tree of parent pointers over g rooted at root: its keys are actors,
   * only the root has no parent, every parent is a key sharing a movie with its
   * child, and from every key the pointers reach the root.
   */
  ghost predicate IsParentTree(g: GraphState, root: string, pm: ParentMap) {
    && (forall k :: k in pm ==> k in g.actorNodes && exists d :: ReachesRootIn(pm, k, d))
    && (forall k {:trigger pm[k]} :: k in pm ==>
          && (pm[k].None? <==> k == root)
          && (pm[k].Some? ==> pm[k].value in pm && Shares(g, pm[k].value, k)))
  }

  /** What Graph.bfs returns for start key s. */
  ghost predicate BfsResult(g: GraphState, s: string, pm: ParentMap) {
    && (s !in g.actorNodes ==> pm == map[])
    && (s in g.actorNodes ==> s in pm)
    && IsParentTree(g, s, pm)
    && (forall k :: k in pm ==> exists d :: ReachesRootIn(pm, k, d) && ShortestHops(g, s, k, d))
    && (forall x :: Reachable(g, s, x) ==> x in pm)
  }

  /** From an actor that is not in the graph nothing is reachable, so the empty map is the search result. */
  lemma UnknownStart(g: GraphState, s: string)
    requires s !in g.actorNodes
    ensures BfsResult(g, s, map[])
  {
  }

  /** The pointer walk from a key has one length only. */
  lemma {:induction false} DepthUnique(pm: ParentMap, k: string, d1: nat, d2: nat)
    requires ReachesRootIn(pm, k, d1) && ReachesRootIn(pm, k, d2)
    ensures d1 == d2
    decreases d1
  {
    if d1 != 0 && d2 != 0 {
      DepthUnique(pm, pm[k].value, d1 - 1, d2 - 1);
    }
  }

  /** In a parent tree the pointer walk from k is a chain of shared movies from the root to k. */
  lemma {:induction false} ParentChainIsChain(g: GraphState, root: string, pm: ParentMap, k: string, d: nat)
    requires IsParentTree(g, root, pm) && ReachesRootIn(pm, k, d)
    ensures var p := ParentChain(pm, k, d); IsChain(g, p) && p[0] == root
    decreases d
  {
    if d == 0 {
      assert ParentChain(pm, k, d) == [k];
    } else {
      var parent := pm[k].value;
      ParentChainIsChain(g, root, pm, parent, d - 1);
      var q := ParentChain(pm, parent, d - 1);
      assert ParentChain(pm, k, d) == q + [k];
      assert q[d - 1] == parent;
    }
  }

  /** One more hop: extending a chain to s..x by a co-actor y of x. */
  lemma StepForward(g: GraphState, s: string, x: string, y: string, n: nat)
    requires ReachableIn(g, s, x, n) && Shares(g, x, y)
    ensures ReachableIn(g, s, y, n + 1)
  {
    var p :| IsChain(g, p) && |p| == n + 1 && p[0] == s && p[n] == x;
    var q := p + [y];
    assert q[n + 1] == y && q[0] == s;
    assert IsChain(g, q);
  }

  /** One hop back: the actor before y on a chain s..y of n + 1 hops. */
  lemma StepBack(g: GraphState, s: string, y: string, n: nat) returns (x: string)
    requires ReachableIn(g, s, y, n + 1)
    ensures ReachableIn(g, s, x, n) && Shares(g, x, y)
  {
    var p :| IsChain(g, p) && |p| == n + 2 && p[0] == s && p[n + 1] == y;
    x := p[n];
    var q := p[..n + 1];
    assert IsChain(g, q) && q[n] == x;
  }

  /** Zero hops reach only the start itself. */
  lemma ReachZero(g: GraphState, s: string, x: string)
    ensures ReachableIn(g, s, x, 0) <==> x == s && s in g.actorNodes
  {
    if x == s && s in g.actorNodes {
      assert IsChain(g, [s]);
    }
  }
}
