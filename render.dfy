/**
 * KevinBaconGame.getPathToKevinBacon: look the target up, walk its parent
 * pointers back to Kevin Bacon and render the walk as a string of tokens.
 */
module Render {
  import opened Wrappers
  import opened Names
  import opened Nodes
  import opened Paths
  import opened Graphs

  /** The display name the search starts from and the walk stops at. */
  const KevinBacon := "Bacon, Kevin (I)"

  function ActorToken(name: string): string {
    "<a>" + name + "<a>"
  }

  function MovieToken(title: string): string {
    "<t>" + title + "<t>"
  }

  /** String.join("", tokens): the tokens back to back, with no separator. */
  function Concat(tokens: seq<string>): (r: string)
    ensures |tokens| == 1 ==> r == tokens[0]
  {
    if tokens == [] then [] else tokens[0] + Concat(tokens[1..])
  }

  /** Joining two runs of tokens is joining each run and putting the results side by side. */
  lemma {:induction false} ConcatAppend(a: seq<string>, b: seq<string>)
    ensures Concat(a + b) == Concat(a) + Concat(b)
  {
    if a == [] {
      assert a + b == b;
    } else {
      ConcatAppend(a[1..], b);
      assert (a + b)[1..] == a[1..] + b;
    }
  }

  function DigitChar(d: nat): (c: char)
    requires d < 10
    ensures '0' <= c <= '9'
  {
    "0123456789"[d]
  }

  /** The decimal digits of n, as Java prints an int that is not negative. */
  function NatToString(n: nat): (r: string)
    ensures |r| > 0
    ensures forall i :: 0 <= i < |r| ==> '0' <= r[i] <= '9'
    ensures r[0] == '0' ==> n == 0
    decreases n
  {
    if n < 10 then [DigitChar(n)] else NatToString(n / 10) + [DigitChar(n % 10)]
  }

  /** The number a string of decimal digits denotes. */
  function DigitsValue(s: string): nat
    requires forall i :: 0 <= i < |s| ==> '0' <= s[i] <= '9'
    decreases |s|
  {
    if s == [] then 0 else 10 * DigitsValue(s[..|s| - 1]) + (s[|s| - 1] as int - '0' as int)
  }

  /** Reading the printed steps back gives the number printed. */
  lemma {:induction false} NatToStringRoundTrip(n: nat)
    ensures DigitsValue(NatToString(n)) == n
    decreases n
  {
    if n >= 10 {
      NatToStringRoundTrip(n / 10);
      var r := NatToString(n);
      assert r[..|r| - 1] == NatToString(n / 10);
    }
  }

  /** The input exactly as typed, in double quotes, then the not-found text. */
  function NotFoundMessage(targetActor: string): (r: string)
    ensures |targetActor| + 2 <= |r| && r[..|targetActor| + 2] == "\"" + targetActor + "\""
  {
    "\"" + targetActor + "\"" + " could not be found" + " or has no connection to Kevin Bacon!"
  }

  /**
   * The input in double quotes, the steps (half the number of tokens, rounded
   * down) and, at the very end, the tokens joined.
   */
  function FoundMessage(targetActor: string, path: seq<string>): (r: string)
    ensures |targetActor| + 2 <= |r| && r[..|targetActor| + 2] == "\"" + targetActor + "\""
    ensures |Concat(path)| <= |r| && r[|r| - |Concat(path)|..] == Concat(path)
  {
    "\"" + targetActor + "\" is " + NatToString(|path| / 2) + " steps away from Kevin B. The path is " + Concat(path)
  }

  /** t names a movie both a and b play in. */
  ghost predicate SharedMovieToken(g: GraphState, a: string, b: string, t: string)
    requires a in g.actorNodes && b in g.actorNodes
  {
    exists m :: m in g.actorNodes[a].movies && m in g.actorNodes[b].movies && t == MovieToken(m)
  }

  /**
   * tokens renders the hops of chain: for each hop from chain[i] to chain[i + 1]
   * a movie token of a movie they share, then the display name of chain[i + 1].
   */
  ghost predicate Hops(g: GraphState, chain: seq<string>, tokens: seq<string>)
    decreases |chain|
  {
    if |chain| <= 1 then tokens == []
    else
      && |tokens| >= 2
      && chain[0] in g.actorNodes && chain[1] in g.actorNodes
      && SharedMovieToken(g, chain[0], chain[1], tokens[0])
      && tokens[1] == ActorToken(g.actorNodes[chain[1]].name)
      && Hops(g, chain[1..], tokens[2..])
  }

  /** path is Kevin Bacon's token followed by the hops of chain. */
  ghost predicate RendersChain(g: GraphState, chain: seq<string>, path: seq<string>) {
    |path| > 0 && path[0] == ActorToken(KevinBacon) && Hops(g, chain, path[1..])
  }

  /** Kevin Bacon's display name is its own key. */
  lemma KevinBaconIsKey()
    ensures NormalizeName(KevinBacon) == KevinBacon
  {
    assert NoQuotes(KevinBacon);
    assert NoOuterBlanks(KevinBacon);
    NormalizeFixedPoint(KevinBacon);
  }

  /** Only Kevin Bacon's own node can carry his display name. */
  ghost predicate NamedKevinIsRoot(g: GraphState) {
    forall k :: k in g.actorNodes && g.actorNodes[k].name == KevinBacon ==> k == KevinBacon
  }

  /** Keys are normalised display names and Kevin Bacon's display name is its own key. */
  lemma OnlyKevinIsNamedKevin(g: GraphState)
    requires KeyedByName(g)
    ensures NamedKevinIsRoot(g)
  {
    KevinBaconIsKey();
  }

  /**
   * getPathToKevinBacon, for the parent map of a search from Kevin Bacon. An actor
   * without a node or without an entry in the map gives the not-found message,
   * quoting the name as typed. Otherwise the walk follows the parent pointers from
   * the target's node to the root, prepending for each hop the token of one movie
   * the two actors share (which one is left open) and the child's display name.
   */
  method GetPathToKevinBacon(graph: Graph, targetActor: string, parentMap: ParentMap) returns (result: string)
    requires graph.Valid()
    requires IsParentTree(graph.State(), KevinBacon, parentMap)
    ensures var key := NormalizeName(targetActor);
      key !in graph.actorNodes || key !in parentMap ==> result == NotFoundMessage(targetActor)
    ensures var key := NormalizeName(targetActor);
      key in graph.actorNodes && key in parentMap ==>
        exists d: nat, path :: ReachesRootIn(parentMap, key, d)
          && RendersChain(graph.State(), ParentChain(parentMap, key, d), path)
          && result == FoundMessage(targetActor, path)
  {
    var key := NormalizeName(targetActor);
    if key !in graph.actorNodes || key !in parentMap {
      return NotFoundMessage(targetActor);
    }
    ghost var d :| ReachesRootIn(parentMap, key, d);
    OnlyKevinIsNamedKevin(graph.State());
    var path := WalkToKevin(graph.State(), parentMap, key, d);
    result := FoundMessage(targetActor, path);
  }

  /**
   * The loop of getPathToKevinBacon and the token put in front after it: from key,
   * up the parent pointers until a node named Kevin Bacon or a node without a
   * parent, putting in front of the path, for each node with a parent, a movie the
   * two share and then the node's display name; Kevin Bacon's token comes first.
   */
  method WalkToKevin(g: GraphState, parentMap: ParentMap, key: string, ghost d: nat) returns (path: seq<string>)
    requires NamedKevinIsRoot(g) && IsParentTree(g, KevinBacon, parentMap)
    requires ReachesRootIn(parentMap, key, d)
    ensures RendersChain(g, ParentChain(parentMap, key, d), path)
  {
    ghost var chain := ParentChain(parentMap, key, d);
    ChainLinks(parentMap, key, d);
    var hops := [];
    var current: Option<string> := Some(key);
    ghost var j: nat := d;
    while current.Some? && g.actorNodes[current.value].name != KevinBacon
      invariant j <= d
      invariant current.Some? ==> chain[j] == current.value && current.value in parentMap
      invariant current.None? ==> j == 0
      invariant Hops(g, chain[j..], hops)
      decreases j, current.Some?
    {
      var parent := parentMap[current.value];
      if parent.Some? {
        assert j > 0 && parent.value == chain[j - 1];
        var sharedMovies := g.actorNodes[current.value].movies * g.actorNodes[parent.value].movies;
        assert Shares(g, parent.value, current.value);
        assert sharedMovies == g.actorNodes[parent.value].movies * g.actorNodes[current.value].movies;
        var connectingMovie :| connectingMovie in sharedMovies;
        var tokens := [MovieToken(connectingMovie), ActorToken(g.actorNodes[current.value].name)];
        assert chain[j - 1..][1..] == chain[j..] && (tokens + hops)[2..] == hops;
        hops := tokens + hops;
        j := j - 1;
      } else {
        assert j == 0;
      }
      current := parent;
    }
    if current.Some? {
      assert current.value == KevinBacon;
      assert j == 0;
    }
    assert chain[0..] == chain;
    path := [ActorToken(KevinBacon)] + hops;
    assert path[1..] == hops;
  }

  /**
   * Along ParentChain(pm, k, d) every element is a key, each one's parent is the
   * element before it, only the first has no parent and each reaches the root in
   * as many steps as its index.
   */
  lemma {:induction false} ChainLinks(pm: ParentMap, k: string, d: nat)
    requires ReachesRootIn(pm, k, d)
    ensures var c := ParentChain(pm, k, d);
      && (forall i :: 0 <= i <= d ==> c[i] in pm && ReachesRootIn(pm, c[i], i))
      && (forall i :: 0 < i <= d ==> pm[c[i]] == Some(c[i - 1]))
      && pm[c[0]] == None
    decreases d
  {
    if d > 0 {
      var p := pm[k].value;
      ChainLinks(pm, p, d - 1);
      var q := ParentChain(pm, p, d - 1);
      assert ParentChain(pm, k, d) == q + [k];
    }
  }

  /** A rendering of a chain of n + 1 actors has 2 * n + 1 tokens, so it reports n steps. */
  lemma {:induction false} HopsLength(g: GraphState, chain: seq<string>, tokens: seq<string>)
    requires |chain| > 0 && Hops(g, chain, tokens)
    ensures |tokens| == 2 * (|chain| - 1)
    decreases |chain|
  {
    if |chain| > 1 {
      HopsLength(g, chain[1..], tokens[2..]);
    }
  }

  /** The rendered steps count the hops of the chain. */
  lemma StepsAreHops(g: GraphState, chain: seq<string>, path: seq<string>)
    requires |chain| > 0 && RendersChain(g, chain, path)
    ensures |path| / 2 == |chain| - 1
  {
    HopsLength(g, chain, path[1..]);
  }

  /**
   * With the map bfs returns for Kevin Bacon, a name is found exactly when its key
   * is an actor connected to Kevin Bacon, and the walk rendered for it is a chain
   * of shared movies from Kevin Bacon whose hop count, the reported steps, is the
   * shortest there is.
   */
  lemma RenderedPathIsShortest(g: GraphState, pm: ParentMap, key: string, d: nat, path: seq<string>)
    requires BfsResult(g, KevinBacon, pm)
    requires ReachesRootIn(pm, key, d) && RendersChain(g, ParentChain(pm, key, d), path)
    ensures |path| / 2 == d
    ensures IsChain(g, ParentChain(pm, key, d)) && ParentChain(pm, key, d)[0] == KevinBacon
    ensures ShortestHops(g, KevinBacon, key, d)
  {
    StepsAreHops(g, ParentChain(pm, key, d), path);
    ParentChainIsChain(g, KevinBacon, pm, key, d);
    var e :| ReachesRootIn(pm, key, e) && ShortestHops(g, KevinBacon, key, e);
    DepthUnique(pm, key, d, e);
  }

  /**
   * main searches from the literal "Bacon, Kevin (I)", which bfs normalises; since
   * that literal is its own key, the map it gets back is a search result rooted at
   * Kevin Bacon and meets what getPathToKevinBacon requires of its map.
   */
  lemma BfsFeedsRender(g: GraphState, pm: ParentMap)
    requires BfsResult(g, NormalizeName(KevinBacon), pm)
    ensures BfsResult(g, KevinBacon, pm) && IsParentTree(g, KevinBacon, pm)
  {
    KevinBaconIsKey();
  }

  /** With the map bfs returns for Kevin Bacon, an actor has an entry exactly when Kevin Bacon reaches it. */
  lemma FoundIffConnected(g: GraphState, pm: ParentMap, key: string)
    requires BfsResult(g, KevinBacon, pm)
    ensures key in pm <==> Reachable(g, KevinBacon, key)
  {
    if key in pm {
      var e :| ReachesRootIn(pm, key, e) && ShortestHops(g, KevinBacon, key, e);
    }
  }

  /** Every name of Kevin Bacon is zero steps away: the path is his token alone. */
  lemma KevinIsZeroSteps(g: GraphState, pm: ParentMap, d: nat, path: seq<string>)
    requires IsParentTree(g, KevinBacon, pm)
    requires ReachesRootIn(pm, KevinBacon, d) && RendersChain(g, ParentChain(pm, KevinBacon, d), path)
    ensures d == 0 && path == [ActorToken(KevinBacon)]
  {
    assert pm[KevinBacon].None?;
    assert d == 0;
    assert path == [path[0]] + path[1..];
  }

  /** The two answers can be told apart: after the quoted name one says "is", the other "could". */
  lemma AnswersDiffer(targetActor: string, path: seq<string>)
    ensures FoundMessage(targetActor, path) != NotFoundMessage(targetActor)
  {
    var quoted := "\"" + targetActor + "\"";
    var found := " is " + NatToString(|path| / 2) + " steps away from Kevin B. The path is " + Concat(path);
    var missing := " could not be found" + " or has no connection to Kevin Bacon!";
    assert FoundMessage(targetActor, path) == quoted + found;
    assert NotFoundMessage(targetActor) == quoted + missing;
    assert (quoted + found)[|quoted| + 1] == found[1] == 'i';
    assert (quoted + missing)[|quoted| + 1] == missing[1] == 'c';
  }
}
