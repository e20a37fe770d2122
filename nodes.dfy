/**
 * The bipartite actor-movie graph as a value: ActorNode, MovieNode and the two
 * maps of class Graph. Object identity of an ActorNode is its normalised name,
 * the key under which actorNodes stores it; a MovieNode lists its actors by key.
 */
module Nodes {
  import opened Names

  /** An actor: the display name as first seen (not normalised) and the titles of its movies. */
  datatype ActorNode = ActorNode(name: string, movies: set<string>)

  /** A movie: its exact title and the keys of its actors. */
  datatype MovieNode = MovieNode(title: string, actors: set<string>)

  /** The two maps of Graph: normalised name to actor, exact title to movie. */
  datatype GraphState = GraphState(actorNodes: map<string, ActorNode>, movieNodes: map<string, MovieNode>)

  const EmptyGraph := GraphState(map[], map[])

  /**
   * The graph invariant: every actor-to-movie edge has its movie-to-actor twin and
   * vice versa, and a movie is filed under its own title.
   */
  ghost predicate Consistent(g: GraphState) {
    && (forall k, m :: k in g.actorNodes && m in g.actorNodes[k].movies ==>
          m in g.movieNodes && k in g.movieNodes[m].actors)
    && (forall m, k :: m in g.movieNodes && k in g.movieNodes[m].actors ==>
          k in g.actorNodes && m in g.actorNodes[k].movies)
    && (forall m :: m in g.movieNodes ==> g.movieNodes[m].title == m)
  }

  /** Every actor is filed under the normalised form of its display name. */
  ghost predicate KeyedByName(g: GraphState) {
    forall k :: k in g.actorNodes ==> NormalizeName(g.actorNodes[k].name) == k
  }

  /**
   * Graph.addActor: actorNodes.putIfAbsent(normalizeName(name), new ActorNode(name)).
   * A new key gets a node with the unnormalised name and no movies; an existing key
   * keeps its node (the first display name wins); the movie map is never touched.
   */
  function WithActor(g: GraphState, name: string): (r: GraphState)
    ensures r.movieNodes == g.movieNodes
    ensures forall k :: k in r.actorNodes <==> k in g.actorNodes || k == NormalizeName(name)
    ensures NormalizeName(name) in g.actorNodes ==> r == g
    ensures NormalizeName(name) !in g.actorNodes ==>
      r.actorNodes[NormalizeName(name)] == ActorNode(name, {})
    ensures forall k :: k in g.actorNodes ==> r.actorNodes[k] == g.actorNodes[k]
  {
    var key := NormalizeName(name);
    if key in g.actorNodes then g
    else g.(actorNodes := g.actorNodes[key := ActorNode(name, {})])
  }

  /**
   * Graph.addMovie for an actor already in the graph: creates the movie node only
   * if the exact title is new, then adds the edge on both sides, and nothing else.
   * Its contract is the lemma WithMovieEdges; stated here it makes AddMovie's proof slow.
   */
  function WithMovie(g: GraphState, actorName: string, title: string): GraphState
    requires NormalizeName(actorName) in g.actorNodes
  {
    var key := NormalizeName(actorName);
    var movie := if title in g.movieNodes then g.movieNodes[title] else MovieNode(title, {});
    var actor := g.actorNodes[key];
    GraphState(g.actorNodes[key := actor.(movies := actor.movies + {title})],
               g.movieNodes[title := movie.(actors := movie.actors + {key})])
  }

  /** Adding an actor keeps the graph consistent: the new key is the normalised display name. */
  lemma WithActorConsistent(g: GraphState, name: string)
    requires Consistent(g)
    ensures Consistent(WithActor(g, name))
  {
  }

  lemma WithActorKeyed(g: GraphState, name: string)
    requires KeyedByName(g)
    ensures KeyedByName(WithActor(g, name))
  {
  }

  lemma WithMovieKeyed(g: GraphState, actorName: string, title: string)
    requires KeyedByName(g)
    requires NormalizeName(actorName) in g.actorNodes
    ensures KeyedByName(WithMovie(g, actorName, title))
  {
    WithMovieEdges(g, actorName, title);
  }

  /**
   * What addMovie changes and what it leaves: the actor keys and display names stay,
   * the title joins the movie keys, exactly one edge is added on each side, and a
   * movie node keeps its title (a new one is filed under the title it was created with).
   */
  lemma WithMovieEdges(g: GraphState, actorName: string, title: string)
    requires NormalizeName(actorName) in g.actorNodes
    ensures var r := WithMovie(g, actorName, title);
      && (forall k :: k in r.actorNodes <==> k in g.actorNodes)
      && (forall m :: m in r.movieNodes <==> m in g.movieNodes || m == title)
      && (forall k :: k in r.actorNodes ==> r.actorNodes[k].name == g.actorNodes[k].name)
      && (forall k, m :: k in r.actorNodes ==>
            (m in r.actorNodes[k].movies <==> m in g.actorNodes[k].movies || (k == NormalizeName(actorName) && m == title)))
      && (forall m, k :: m in r.movieNodes ==>
            (k in r.movieNodes[m].actors <==>
              (m in g.movieNodes && k in g.movieNodes[m].actors) || (m == title && k == NormalizeName(actorName))))
      && (forall m :: m in g.movieNodes ==> r.movieNodes[m].title == g.movieNodes[m].title)
      && (title !in g.movieNodes ==> r.movieNodes[title].title == title)
  {
  }

  /** Adding an edge keeps the graph consistent: both halves of the edge are added together. */
  lemma WithMovieConsistent(g: GraphState, actorName: string, title: string)
    requires Consistent(g)
    requires NormalizeName(actorName) in g.actorNodes
    ensures Consistent(WithMovie(g, actorName, title))
  {
    WithMovieEdges(g, actorName, title);
  }

  /** Once added, an actor's display name survives any later addActor call. */
  lemma FirstNameWins(g: GraphState, first: string, later: string)
    requires NormalizeName(first) == NormalizeName(later)
    ensures WithActor(WithActor(g, first), later) == WithActor(g, first)
  {
  }
}
