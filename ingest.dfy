/**
 * KevinBaconGame.buildGraphFromFile: the file is a sequence of lines; a line
 * starting with <a> names an actor, who becomes the current actor, a line
 * starting with <t> is a movie of the current actor, and any other line is
 * skipped. Reading the file is not modelled: the lines are the input.
 */
module Ingest {
  import opened Wrappers
  import opened Names
  import opened Nodes
  import opened Graphs

  /** How the dispatch reads one line: the text after the three-character tag, trimmed. */
  datatype Line = ActorLine(name: string) | TitleLine(title: string) | OtherLine

  predicate HasTag(line: string, tag: string) {
    |tag| <= |line| && line[..|tag|] == tag
  }

  /**
   * line.startsWith("<a>") first, then line.startsWith("<t>"), each followed by
   * substring(3).trim(). The ensures read off the branches; the one fact they add
   * is that the else-branch order does not matter, since the two tags exclude
   * each other (a title line is exactly a line that starts with <t>).
   */
  function ClassifyLine(line: string): (r: Line)
    ensures r.ActorLine? <==> HasTag(line, "<a>")
    ensures r.TitleLine? <==> HasTag(line, "<t>")
    ensures r.ActorLine? ==> r.name == Trim(line[3..])
    ensures r.TitleLine? ==> r.title == Trim(line[3..])
  {
    if HasTag(line, "<a>") then ActorLine(Trim(line[3..]))
    else if HasTag(line, "<t>") then TitleLine(Trim(line[3..]))
    else OtherLine
  }

  /**
   * What the loop ends with: the graph and the current actor after the last line,
   * or the index of a <t> line met while no actor was current (the source then
   * throws a NullPointerException out of addMovie and no graph is returned).
   */
  datatype Outcome = Built(graph: GraphState, current: Option<string>) | TitleWithoutActor(line: nat)

  /** The current actor, when there is one, has a node. */
  predicate KeyPresent(g: GraphState, current: Option<string>) {
    current.Some? ==> NormalizeName(current.value) in g.actorNodes
  }

  /** The effect of lines[i..] on graph g with the given current actor. */
  function Replay(g: GraphState, current: Option<string>, lines: seq<string>, i: nat): (r: Outcome)
    requires KeyPresent(g, current) && i <= |lines|
    ensures r.TitleWithoutActor? ==> i <= r.line < |lines| && ClassifyLine(lines[r.line]).TitleLine?
    ensures r.Built? && current.Some? ==> r.current.Some?
    decreases |lines| - i
  {
    if i == |lines| then Built(g, current)
    else match ClassifyLine(lines[i])
      case ActorLine(name) => Replay(WithActor(g, name), Some(name), lines, i + 1)
      case TitleLine(title) =>
        if current.None? then TitleWithoutActor(i)
        else
          WithMovieEdges(g, current.value, title);
          Replay(WithMovie(g, current.value, title), current, lines, i + 1)
      case OtherLine => Replay(g, current, lines, i + 1)
  }

  /** The whole file, from the empty graph with no current actor. */
  function Decode(lines: seq<string>): (r: Outcome)
    ensures r.TitleWithoutActor? ==> r.line < |lines| && ClassifyLine(lines[r.line]).TitleLine?
  {
    Replay(EmptyGraph, None, lines, 0)
  }

  /**
   * buildGraphFromFile's loop over the lines: addActor on an <a> line (which
   * also makes it current), addMovie for the current actor on a <t> line.
   */
  method BuildGraph(lines: seq<string>) returns (graph: Graph, failedAt: Option<nat>)
    ensures fresh(graph) && graph.Valid()
    ensures Decode(lines).Built? ==> failedAt == None && graph.State() == Decode(lines).graph
    ensures Decode(lines).TitleWithoutActor? ==> failedAt == Some(Decode(lines).line)
  {
    graph := new Graph();
    var currentActor: Option<string> := None;
    var i := 0;
    while i < |lines|
      invariant i <= |lines|
      invariant fresh(graph) && graph.Valid()
      invariant KeyPresent(graph.State(), currentActor)
      invariant Replay(graph.State(), currentActor, lines, i) == Decode(lines)
      decreases |lines| - i
    {
      match ClassifyLine(lines[i]) {
        case ActorLine(name) =>
          currentActor := Some(name);
          graph.AddActor(name);
        case TitleLine(movieTitle) =>
          if currentActor.None? {
            return graph, Some(i);
          }
          graph.AddMovie(currentActor.value, movieTitle);
        case OtherLine =>
      }
      i := i + 1;
    }
    failedAt := None;
  }

  /** The keys of the actors the lines lines[i..] name. */
  function ActorKeys(lines: seq<string>, i: nat): set<string>
    requires i <= |lines|
    decreases |lines| - i
  {
    if i == |lines| then {}
    else match ClassifyLine(lines[i])
      case ActorLine(name) => {NormalizeName(name)} + ActorKeys(lines, i + 1)
      case _ => ActorKeys(lines, i + 1)
  }

  /** The display name of the first actor line in lines[i..] whose key is k. */
  function FirstName(lines: seq<string>, i: nat, k: string): Option<string>
    requires i <= |lines|
    decreases |lines| - i
  {
    if i == |lines| then None
    else match ClassifyLine(lines[i])
      case ActorLine(name) => if NormalizeName(name) == k then Some(name) else FirstName(lines, i + 1, k)
      case _ => FirstName(lines, i + 1, k)
  }

  /**
   * The (actor key, title) pairs of lines[i..]: each <t> line paired with the
   * actor of the nearest <a> line above it (or current, when there is none).
   */
  function Records(current: Option<string>, lines: seq<string>, i: nat): seq<(string, string)>
    requires i <= |lines|
    decreases |lines| - i
  {
    if i == |lines| then []
    else match ClassifyLine(lines[i])
      case ActorLine(name) => Records(Some(name), lines, i + 1)
      case TitleLine(title) =>
        (if current.Some? then [(NormalizeName(current.value), title)] else []) + Records(current, lines, i + 1)
      case OtherLine => Records(current, lines, i + 1)
  }

  /** Actor k plays in movie m, seen from the actor side. */
  ghost predicate HasEdge(g: GraphState, k: string, m: string) {
    k in g.actorNodes && m in g.actorNodes[k].movies
  }

  /** No <a> or <t> line in lines[i..j]. */
  predicate Untagged(lines: seq<string>, i: nat, j: nat)
    requires i <= j <= |lines|
  {
    forall k :: i <= k < j ==> ClassifyLine(lines[k]).OtherLine?
  }

  /** Replaying keeps the graph invariants. */
  lemma {:induction false} ReplayValid(g: GraphState, current: Option<string>, lines: seq<string>, i: nat)
    requires KeyPresent(g, current) && i <= |lines|
    requires Consistent(g) && KeyedByName(g)
    ensures Replay(g, current, lines, i).Built? ==>
      Consistent(Replay(g, current, lines, i).graph) && KeyedByName(Replay(g, current, lines, i).graph)
    decreases |lines| - i
  {
    if i < |lines| {
      match ClassifyLine(lines[i])
      case ActorLine(name) =>
        WithActorConsistent(g, name);
        WithActorKeyed(g, name);
        ReplayValid(WithActor(g, name), Some(name), lines, i + 1);
      case TitleLine(title) =>
        if current.Some? {
          WithMovieEdges(g, current.value, title);
          WithMovieConsistent(g, current.value, title);
          WithMovieKeyed(g, current.value, title);
          ReplayValid(WithMovie(g, current.value, title), current, lines, i + 1);
        }
      case OtherLine =>
        ReplayValid(g, current, lines, i + 1);
    }
  }

  /** Once an actor is current, every later line is accepted. */
  lemma {:induction false} ReplayWithActorBuilds(g: GraphState, current: Option<string>, lines: seq<string>, i: nat)
    requires KeyPresent(g, current) && i <= |lines| && current.Some?
    ensures Replay(g, current, lines, i).Built?
    decreases |lines| - i
  {
    if i < |lines| {
      match ClassifyLine(lines[i])
      case ActorLine(name) =>
        ReplayWithActorBuilds(WithActor(g, name), Some(name), lines, i + 1);
      case TitleLine(title) =>
        WithMovieEdges(g, current.value, title);
        ReplayWithActorBuilds(WithMovie(g, current.value, title), current, lines, i + 1);
      case OtherLine =>
        ReplayWithActorBuilds(g, current, lines, i + 1);
    }
  }

  /**
   * With no current actor, decoding fails at line j exactly when line j is the
   * first tagged line of lines[i..] and it is a <t> line.
   */
  lemma {:induction false} ReplayFailsAtFirstTitle(g: GraphState, lines: seq<string>, i: nat, j: nat)
    requires i <= |lines|
    ensures Replay(g, None, lines, i) == TitleWithoutActor(j) <==>
      i <= j < |lines| && ClassifyLine(lines[j]).TitleLine? && Untagged(lines, i, j)
    decreases |lines| - i
  {
    if i < |lines| {
      match ClassifyLine(lines[i])
      case ActorLine(name) =>
        ReplayWithActorBuilds(WithActor(g, name), Some(name), lines, i + 1);
      case TitleLine(title) =>
      case OtherLine =>
        ReplayFailsAtFirstTitle(g, lines, i + 1, j);
        if i < j <= |lines| && Untagged(lines, i + 1, j) {
          assert Untagged(lines, i, j);
        }
    }
  }

  /** The actor keys after replaying are the old keys and the keys of the actor lines. */
  lemma {:induction false} ReplayActorKeys(g: GraphState, current: Option<string>, lines: seq<string>, i: nat, k: string)
    requires KeyPresent(g, current) && i <= |lines|
    requires Replay(g, current, lines, i).Built?
    ensures k in Replay(g, current, lines, i).graph.actorNodes <==> k in g.actorNodes || k in ActorKeys(lines, i)
    decreases |lines| - i
  {
    if i < |lines| {
      match ClassifyLine(lines[i])
      case ActorLine(name) =>
        ReplayActorKeys(WithActor(g, name), Some(name), lines, i + 1, k);
      case TitleLine(title) =>
        WithMovieEdges(g, current.value, title);
        ReplayActorKeys(WithMovie(g, current.value, title), current, lines, i + 1, k);
      case OtherLine =>
        ReplayActorKeys(g, current, lines, i + 1, k);
    }
  }

  /** An actor keeps the display name it had, or else takes the one of the first actor line with its key. */
  lemma {:induction false} ReplayFirstNameWins(g: GraphState, current: Option<string>, lines: seq<string>, i: nat, k: string)
    requires KeyPresent(g, current) && i <= |lines|
    requires Replay(g, current, lines, i).Built?
    requires k in Replay(g, current, lines, i).graph.actorNodes
    ensures k in g.actorNodes ==> Replay(g, current, lines, i).graph.actorNodes[k].name == g.actorNodes[k].name
    ensures k !in g.actorNodes ==>
      FirstName(lines, i, k).Some? && Replay(g, current, lines, i).graph.actorNodes[k].name == FirstName(lines, i, k).value
    decreases |lines| - i
  {
    if i < |lines| {
      match ClassifyLine(lines[i])
      case ActorLine(name) =>
        ReplayFirstNameWins(WithActor(g, name), Some(name), lines, i + 1, k);
      case TitleLine(title) =>
        WithMovieEdges(g, current.value, title);
        ReplayFirstNameWins(WithMovie(g, current.value, title), current, lines, i + 1, k);
      case OtherLine =>
        ReplayFirstNameWins(g, current, lines, i + 1, k);
    }
  }

  /** The edges after replaying are the old edges and the records of the lines. */
  lemma {:induction false} ReplayEdges(g: GraphState, current: Option<string>, lines: seq<string>, i: nat, k: string, m: string)
    requires KeyPresent(g, current) && i <= |lines|
    requires Replay(g, current, lines, i).Built?
    ensures HasEdge(Replay(g, current, lines, i).graph, k, m) <==> HasEdge(g, k, m) || (k, m) in Records(current, lines, i)
    decreases |lines| - i
  {
    if i < |lines| {
      match ClassifyLine(lines[i])
      case ActorLine(name) =>
        ReplayEdges(WithActor(g, name), Some(name), lines, i + 1, k, m);
      case TitleLine(title) =>
        WithMovieEdges(g, current.value, title);
        ReplayEdges(WithMovie(g, current.value, title), current, lines, i + 1, k, m);
      case OtherLine =>
        ReplayEdges(g, current, lines, i + 1, k, m);
    }
  }

  /** The movie keys after replaying are the old ones and the titles of the records of the lines. */
  lemma {:induction false} ReplayMovieKeys(g: GraphState, current: Option<string>, lines: seq<string>, i: nat, m: string)
    requires KeyPresent(g, current) && i <= |lines|
    requires Replay(g, current, lines, i).Built?
    ensures m in Replay(g, current, lines, i).graph.movieNodes <==>
      m in g.movieNodes || exists a :: (a, m) in Records(current, lines, i)
    decreases |lines| - i
  {
    if i < |lines| {
      match ClassifyLine(lines[i])
      case ActorLine(name) =>
        ReplayMovieKeys(WithActor(g, name), Some(name), lines, i + 1, m);
      case TitleLine(title) =>
        WithMovieEdges(g, current.value, title);
        ReplayMovieKeys(WithMovie(g, current.value, title), current, lines, i + 1, m);
        var first := (NormalizeName(current.value), title);
        assert Records(current, lines, i) == [first] + Records(current, lines, i + 1);
        if m == title {
          assert (first.0, m) in Records(current, lines, i);
        }
        if exists a :: (a, m) in Records(current, lines, i + 1) {
          var a :| (a, m) in Records(current, lines, i + 1);
          assert (a, m) in Records(current, lines, i);
        }
      case OtherLine =>
        ReplayMovieKeys(g, current, lines, i + 1, m);
    }
  }

  /** A whole file that decodes gives a consistent graph whose actors, movies and edges come from its lines. */
  lemma DecodeBuilds(lines: seq<string>, k: string, m: string)
    requires Decode(lines).Built?
    ensures Consistent(Decode(lines).graph) && KeyedByName(Decode(lines).graph)
    ensures k in Decode(lines).graph.actorNodes <==> k in ActorKeys(lines, 0)
    ensures k in Decode(lines).graph.actorNodes ==>
      FirstName(lines, 0, k).Some? && Decode(lines).graph.actorNodes[k].name == FirstName(lines, 0, k).value
    ensures HasEdge(Decode(lines).graph, k, m) <==> (k, m) in Records(None, lines, 0)
    ensures m in Decode(lines).graph.movieNodes <==> exists a :: (a, m) in Records(None, lines, 0)
  {
    ReplayMovieKeys(EmptyGraph, None, lines, 0, m);
    ReplayValid(EmptyGraph, None, lines, 0);
    ReplayActorKeys(EmptyGraph, None, lines, 0, k);
    if k in Decode(lines).graph.actorNodes {
      ReplayFirstNameWins(EmptyGraph, None, lines, 0, k);
    }
    ReplayEdges(EmptyGraph, None, lines, 0, k, m);
  }

  /** A whole file fails exactly when its first tagged line is a <t> line, and it fails there. */
  lemma DecodeFails(lines: seq<string>, j: nat)
    ensures Decode(lines) == TitleWithoutActor(j) <==>
      j < |lines| && ClassifyLine(lines[j]).TitleLine? && Untagged(lines, 0, j)
  {
    ReplayFailsAtFirstTitle(EmptyGraph, lines, 0, j);
  }
}
