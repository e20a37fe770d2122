/**
 * Class Graph: the two maps, the append-only insertions addActor and addMovie,
 * and the breadth-first search bfs.
 */
module Graphs {
  import opened Wrappers
  import opened Names
  import opened Nodes
  import opened Paths

  class Graph {
    /** Normalised actor name to actor node. */
    var actorNodes: map<string, ActorNode>
    /** Exact movie title to movie node. */
    var movieNodes: map<string, MovieNode>

    function State(): GraphState
      reads this
    {
      GraphState(actorNodes, movieNodes)
    }

    ghost predicate Valid()
      reads this
    {
      Consistent(State()) && KeyedByName(State())
    }

    constructor ()
      ensures Valid() && State() == EmptyGraph
    {
      actorNodes := map[];
      movieNodes := map[];
    }

    /** addActor: putIfAbsent under the normalised name (see WithActor). */
    method AddActor(actorName: string)
      requires Valid()
      modifies this
      ensures Valid()
      ensures State() == WithActor(old(State()), actorName)
    {
      WithActorConsistent(State(), actorName);
      WithActorKeyed(State(), actorName);
      var key := NormalizeName(actorName);
      if key !in actorNodes {
        actorNodes := actorNodes[key := ActorNode(actorName, {})];
      }
    }

    /**
     * addMovie: creates the movie node if the title is new, then records the edge
     * on both sides (see WithMovie). The actor must already be present: the source
     * dereferences the looked-up node without a null check.
     */
    method AddMovie(actorName: string, movieTitle: string)
      requires Valid()
      requires NormalizeName(actorName) in actorNodes
      modifies this
      ensures Valid()
      ensures State() == WithMovie(old(State()), actorName, movieTitle)
    {
      ghost var before := State();
      ghost var after := WithMovie(before, actorName, movieTitle);
      if movieTitle !in movieNodes {
        movieNodes := movieNodes[movieTitle := MovieNode(movieTitle, {})];
      }
      var key := NormalizeName(actorName);
      var actor := actorNodes[key];
      var movie := movieNodes[movieTitle];
      actorNodes := actorNodes[key := actor.(movies := actor.movies + {movieTitle})];
      movieNodes := movieNodes[movieTitle := movie.(actors := movie.actors + {key})];
      assert actorNodes == after.actorNodes;
      assert movieNodes == after.movieNodes;
      WithMovieConsistent(before, actorName, movieTitle);
      WithMovieKeyed(before, actorName, movieTitle);
    }

    /**
     * bfs: FIFO breadth-first search from the actor named startActor, stepping from
     * an actor to every actor of each of its movies. The result maps every actor
     * reachable from the start to the actor it was discovered from, along a
     * shortest chain; the start maps to None; an unknown start gives the empty map.
     * The order in which the two hash sets are walked is left open.
     */
    method Bfs(startActor: string) returns (parentMap: ParentMap)
      requires Valid()
      ensures BfsResult(State(), NormalizeName(startActor), parentMap)
    {
      var g := State();
      parentMap := map[];
      var start := NormalizeName(startActor);
      if start !in g.actorNodes {
        UnknownStart(g, start);
        return;
      }
      var queue := [start];
      parentMap := parentMap[start := None];
      ghost var dist: map<string, nat> := map[start := 0];
      Begin(g, start);
      while queue != []
        invariant Outer(g, start, parentMap, dist, queue)
        decreases Measure(g, parentMap, queue)
      {
        parentMap, dist, queue := Turn(g, start, parentMap, dist, queue);
      }
      Finish(g, start, parentMap, dist);
    }
  }

  /** 2 * (actors not yet visited) + (queue length): what every turn of the queue loop lowers. */
  function Measure(g: GraphState, pm: ParentMap, queue: seq<string>): nat {
    2 * |g.actorNodes.Keys - pm.Keys| + |queue|
  }

  /** One turn of the queue loop of bfs: poll the head of the queue and visit its movies. */
  method Turn(g: GraphState, ghost s: string, pm: ParentMap, ghost dist: map<string, nat>, queue: seq<string>)
    returns (pm': ParentMap, ghost dist': map<string, nat>, queue': seq<string>)
    requires Outer(g, s, pm, dist, queue) && queue != []
    ensures Outer(g, s, pm', dist', queue')
    ensures Measure(g, pm', queue') < Measure(g, pm, queue)
  {
    Poll(g, s, pm, dist, queue);
    var current := queue[0];
    pm', dist', queue' := VisitMovies(g, s, pm, dist, queue[1..], current);
    NextLevel(g, s, pm', dist', queue', current);
  }

  /**
   * The two inner loops of bfs for the actor current, just taken off the queue:
   * for each of its movies, each actor of that movie not yet in the parent map is
   * put there with parent current and appended to the queue.
   */
  method VisitMovies(g: GraphState, ghost s: string, pm: ParentMap, ghost dist: map<string, nat>,
                     queue: seq<string>, current: string)
    returns (pm': ParentMap, ghost dist': map<string, nat>, queue': seq<string>)
    requires Step(g, s, pm, dist, queue, current)
    ensures Step(g, s, pm', dist', queue', current)
    ensures Settled(g, pm'.Keys, current)
    ensures Measure(g, pm', queue') <= Measure(g, pm, queue)
  {
    pm', dist', queue' := pm, dist, queue;
    var titles := g.actorNodes[current].movies;
    while titles != {}
      invariant titles <= g.actorNodes[current].movies
      invariant Step(g, s, pm', dist', queue', current)
      invariant Scanned(g, g.actorNodes[current].movies - titles, pm'.Keys)
      invariant Measure(g, pm', queue') <= Measure(g, pm, queue)
      decreases titles
    {
      var movieTitle :| movieTitle in titles;
      ghost var done := g.actorNodes[current].movies - titles;
      titles := titles - {movieTitle};
      assert g.actorNodes[current].movies - titles == done + {movieTitle};
      pm', dist', queue' := ScanMovie(g, s, pm', dist', queue', current, done, movieTitle);
    }
    AllScanned(g, s, pm', dist', queue', current);
  }

  /** Visit the cast of one movie of current, adding it to the scanned movies. */
  method ScanMovie(g: GraphState, ghost s: string, pm: ParentMap, ghost dist: map<string, nat>,
                   queue: seq<string>, current: string, ghost done: set<string>, movieTitle: string)
    returns (pm': ParentMap, ghost dist': map<string, nat>, queue': seq<string>)
    requires Step(g, s, pm, dist, queue, current)
    requires Scanned(g, done, pm.Keys) && movieTitle in g.actorNodes[current].movies
    ensures Step(g, s, pm', dist', queue', current)
    ensures Scanned(g, done + {movieTitle}, pm'.Keys)
    ensures Measure(g, pm', queue') <= Measure(g, pm, queue)
  {
    CastShares(g, current, movieTitle);
    pm', dist', queue' := VisitCast(g, s, pm, dist, queue, current, g.movieNodes[movieTitle].actors);
    ScannedMore(g, done, pm.Keys, pm'.Keys, movieTitle);
  }

  /** The innermost loop of bfs: visit every actor of one movie of current. */
  method VisitCast(g: GraphState, ghost s: string, pm: ParentMap, ghost dist: map<string, nat>,
                   queue: seq<string>, current: string, cast: set<string>)
    returns (pm': ParentMap, ghost dist': map<string, nat>, queue': seq<string>)
    requires Step(g, s, pm, dist, queue, current)
    requires forall k :: k in cast ==> Shares(g, current, k)
    ensures Step(g, s, pm', dist', queue', current)
    ensures cast <= pm'.Keys && pm.Keys <= pm'.Keys
    ensures Measure(g, pm', queue') <= Measure(g, pm, queue)
  {
    pm', dist', queue' := pm, dist, queue;
    var neighbors := cast;
    while neighbors != {}
      invariant neighbors <= cast
      invariant Step(g, s, pm', dist', queue', current)
      invariant cast - neighbors <= pm'.Keys && pm.Keys <= pm'.Keys
      invariant Measure(g, pm', queue') <= Measure(g, pm, queue)
      decreases neighbors
    {
      var neighbor :| neighbor in neighbors;
      neighbors := neighbors - {neighbor};
      if neighbor !in pm' {
        Discover(g, s, pm', dist', queue', current, neighbor);
        CardStep(g.actorNodes.Keys, pm'.Keys, neighbor);
        pm' := pm'[neighbor := Some(current)];
        dist' := dist'[neighbor := dist'[current] + 1];
        queue' := queue' + [neighbor];
      }
    }
  }

  /** Every movie in done is a movie node whose cast has been visited. */
  ghost predicate Scanned(g: GraphState, done: set<string>, visited: set<string>) {
    forall m :: m in done ==> m in g.movieNodes && g.movieNodes[m].actors <= visited
  }

  lemma ScannedMore(g: GraphState, done: set<string>, visited: set<string>, visited': set<string>, title: string)
    requires Scanned(g, done, visited) && visited <= visited'
    requires title in g.movieNodes && g.movieNodes[title].actors <= visited'
    ensures Scanned(g, done + {title}, visited')
  {
  }

  /** When every movie of current is scanned, current is settled. */
  lemma AllScanned(g: GraphState, s: string, pm: ParentMap, dist: map<string, nat>,
                   queue: seq<string>, current: string)
    requires Step(g, s, pm, dist, queue, current)
    requires Scanned(g, g.actorNodes[current].movies, pm.Keys)
    ensures Settled(g, pm.Keys, current)
  {
  }

  /** The invariant of the queue loop. */
  ghost predicate Outer(g: GraphState, s: string, pm: ParentMap, dist: map<string, nat>, queue: seq<string>) {
    && Visited(g, s, pm, dist)
    && Distinct(queue)
    && (queue != [] ==> queue[0] in dist && Layered(queue, dist, dist[queue[0]]) && SettledBelow(g, s, pm.Keys, dist[queue[0]]))
    && (forall u :: u in pm && u !in queue ==> Settled(g, pm.Keys, u))
  }

  lemma Begin(g: GraphState, s: string)
    requires Consistent(g) && s in g.actorNodes
    ensures Outer(g, s, map[s := None], map[s := 0], [s])
  {
    var pm, dist := map[s := None], map[s := 0];
    forall k, n: nat | k in dist && n < dist[k] ensures !ReachableIn(g, s, k, n) {
    }
    assert Visited(g, s, pm, dist);
  }

  lemma Poll(g: GraphState, s: string, pm: ParentMap, dist: map<string, nat>, queue: seq<string>)
    requires Outer(g, s, pm, dist, queue) && queue != []
    ensures Step(g, s, pm, dist, queue[1..], queue[0])
  {
    var rest := queue[1..];
    forall u | u in pm && u !in rest && u != queue[0] ensures Settled(g, pm.Keys, u) {
      assert u !in queue;
    }
    forall i | 0 <= i < |rest| ensures rest[i] in dist && dist[queue[0]] <= dist[rest[i]] <= dist[queue[0]] + 1 {
      assert rest[i] == queue[i + 1];
    }
    assert Layered(rest, dist, dist[queue[0]]);
  }

  /** Every actor of a movie of a shares that movie with a. */
  lemma CastShares(g: GraphState, a: string, title: string)
    requires Consistent(g) && a in g.actorNodes && title in g.actorNodes[a].movies
    ensures title in g.movieNodes
    ensures forall k :: k in g.movieNodes[title].actors ==> Shares(g, a, k)
  {
    forall k | k in g.movieNodes[title].actors ensures Shares(g, a, k) {
      assert title in g.actorNodes[a].movies * g.actorNodes[k].movies;
    }
  }

  /** The queue holds no actor twice: an actor is enqueued only when first discovered. */
  predicate Distinct(queue: seq<string>) {
    forall i, j :: 0 <= i < j < |queue| ==> queue[i] != queue[j]
  }

  /** The queue is ordered by distance, and its distances lie in lo .. lo + 1. */
  ghost predicate Layered(queue: seq<string>, dist: map<string, nat>, lo: nat) {
    && (forall i :: 0 <= i < |queue| ==> queue[i] in dist && lo <= dist[queue[i]] <= lo + 1)
    && (forall i, j :: 0 <= i <= j < |queue| ==> dist[queue[i]] <= dist[queue[j]])
  }

  /** u is visited and so is every actor of every movie of u. */
  ghost predicate Settled(g: GraphState, visited: set<string>, u: string) {
    u in g.actorNodes && u in visited && CoActors(g, u) <= visited
  }

  /** Every actor reachable from s in fewer than level hops is settled. */
  ghost predicate SettledBelow(g: GraphState, s: string, visited: set<string>, level: nat) {
    forall x, n: nat :: ReachableIn(g, s, x, n) && n < level ==> Settled(g, visited, x)
  }

  /**
   * The visited part of the search: the start has no parent and distance 0, every
   * other visited actor has a visited parent it shares a movie with and lies one hop
   * further out, and no chain reaches a visited actor in fewer hops than its distance.
   */
  ghost predicate Visited(g: GraphState, s: string, pm: ParentMap, dist: map<string, nat>) {
    && Consistent(g)
    && s in pm && pm[s] == None && dist.Keys == pm.Keys && dist[s] == 0
    && (forall k :: k in pm ==> k in g.actorNodes)
    && (forall k {:trigger pm[k]} :: k in pm && k != s ==>
          pm[k].Some? && pm[k].value in pm && Shares(g, pm[k].value, k) && dist[k] == dist[pm[k].value] + 1)
    && (forall k, n: nat :: k in dist && n < dist[k] ==> !ReachableIn(g, s, k, n))
  }

  /** The invariant while the movies of current are being scanned. */
  ghost predicate Step(g: GraphState, s: string, pm: ParentMap, dist: map<string, nat>,
                       queue: seq<string>, current: string)
  {
    && Visited(g, s, pm, dist)
    && Distinct(queue)
    && current in pm && current in g.actorNodes && current !in queue
    && Layered(queue, dist, dist[current])
    && SettledBelow(g, s, pm.Keys, dist[current])
    && (forall u :: u in pm && u !in queue && u != current ==> Settled(g, pm.Keys, u))
  }

  lemma CardStep(all: set<string>, visited: set<string>, x: string)
    requires x in all && x !in visited
    ensures |all - (visited + {x})| == |all - visited| - 1
  {
    assert all - visited == (all - (visited + {x})) + {x};
  }

  /** A newly found actor cannot be reached in dist[current] hops or fewer. */
  lemma NotReachedSooner(g: GraphState, s: string, pm: ParentMap, dist: map<string, nat>,
                         current: string, y: string)
    requires Visited(g, s, pm, dist) && current in pm
    requires SettledBelow(g, s, pm.Keys, dist[current])
    requires y !in pm
    ensures forall n: nat :: n <= dist[current] ==> !ReachableIn(g, s, y, n)
  {
    forall n: nat | n <= dist[current] && ReachableIn(g, s, y, n)
      ensures false
    {
      if n == 0 {
        ReachZero(g, s, y);
      } else {
        var w := StepBack(g, s, y, n - 1);
        CoActorsShare(g, w, y);
      }
    }
  }

  /** Discovering y from current keeps the search invariant. */
  lemma Discover(g: GraphState, s: string, pm: ParentMap, dist: map<string, nat>,
                 queue: seq<string>, current: string, y: string)
    requires Step(g, s, pm, dist, queue, current)
    requires y !in pm && Shares(g, current, y)
    ensures Step(g, s, pm[y := Some(current)], dist[y := dist[current] + 1], queue + [y], current)
  {
    NotReachedSooner(g, s, pm, dist, current, y);
    var pm', dist', queue' := pm[y := Some(current)], dist[y := dist[current] + 1], queue + [y];
    assert Visited(g, s, pm', dist');
    assert Layered(queue', dist', dist[current]);
  }

  /** The invariant at the head of the queue loop, once current is settled. */
  lemma NextLevel(g: GraphState, s: string, pm: ParentMap, dist: map<string, nat>,
                  queue: seq<string>, current: string)
    requires Step(g, s, pm, dist, queue, current)
    requires Settled(g, pm.Keys, current)
    ensures Outer(g, s, pm, dist, queue)
  {
    if queue != [] {
      var level := dist[current];
      if dist[queue[0]] != level {
        forall x, n: nat | ReachableIn(g, s, x, n) && n < level + 1
          ensures Settled(g, pm.Keys, x)
        {
          if n == level {
            if n == 0 {
              ReachZero(g, s, x);
            } else {
              var w := StepBack(g, s, x, n - 1);
              CoActorsShare(g, w, x);
            }
            assert x in dist;
            assert dist[x] <= level;
          }
        }
      }
    }
  }

  /** Following parents from a visited actor reaches the start in dist steps, along a chain. */
  lemma {:induction false} ReachedAtDist(g: GraphState, s: string, pm: ParentMap, dist: map<string, nat>, k: string)
    requires Visited(g, s, pm, dist) && k in pm
    ensures ReachesRootIn(pm, k, dist[k]) && ReachableIn(g, s, k, dist[k])
    decreases dist[k]
  {
    if k == s {
      ReachZero(g, s, s);
    } else {
      var p := pm[k].value;
      ReachedAtDist(g, s, pm, dist, p);
      StepForward(g, s, p, k, dist[p]);
    }
  }

  /** If every visited actor is settled, nothing reachable from s was missed. */
  lemma {:induction false} Closed(g: GraphState, s: string, visited: set<string>, x: string, n: nat)
    requires Consistent(g) && s in visited
    requires forall u :: u in visited ==> Settled(g, visited, u)
    requires ReachableIn(g, s, x, n)
    ensures x in visited
    decreases n
  {
    if n == 0 {
      ReachZero(g, s, x);
    } else {
      var w := StepBack(g, s, x, n - 1);
      Closed(g, s, visited, w, n - 1);
      CoActorsShare(g, w, x);
    }
  }

  /** The search invariant with an empty queue is the specification of bfs. */
  lemma Finish(g: GraphState, s: string, pm: ParentMap, dist: map<string, nat>)
    requires Outer(g, s, pm, dist, [])
    ensures BfsResult(g, s, pm)
  {
    FinishTree(g, s, pm, dist);
    FinishComplete(g, s, pm, dist);
  }

  /** The parent map is a parent tree rooted at s, and each actor's depth in it is its hop distance. */
  lemma FinishTree(g: GraphState, s: string, pm: ParentMap, dist: map<string, nat>)
    requires Visited(g, s, pm, dist)
    ensures IsParentTree(g, s, pm)
    ensures forall k :: k in pm ==> exists d :: ReachesRootIn(pm, k, d) && ShortestHops(g, s, k, d)
  {
    forall k | k in pm
      ensures ReachesRootIn(pm, k, dist[k]) && ShortestHops(g, s, k, dist[k])
    {
      ReachedAtDist(g, s, pm, dist, k);
    }
    forall k | k in pm
      ensures (pm[k].None? <==> k == s) && (pm[k].Some? ==> pm[k].value in pm && Shares(g, pm[k].value, k))
    {
    }
  }

  /** No actor reachable from s is missing from the final parent map. */
  lemma FinishComplete(g: GraphState, s: string, pm: ParentMap, dist: map<string, nat>)
    requires Visited(g, s, pm, dist)
    requires forall u :: u in pm ==> Settled(g, pm.Keys, u)
    ensures forall x :: Reachable(g, s, x) ==> x in pm
  {
    forall x | Reachable(g, s, x)
      ensures x in pm
    {
      var n :| ReachableIn(g, s, x, n);
      Closed(g, s, pm.Keys, x, n);
    }
  }
}
