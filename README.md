# Kevin Bacon game: a verified model

The program reads a file of `<a>` actor lines and `<t>` movie lines and builds a
bipartite graph from it. Actors are filed under a normalised name: trimmed, with
apostrophes and double quotes removed. Movies are filed under their exact title.
The program then runs a breadth-first search from "Bacon, Kevin (I)". Given an
actor name, it walks that actor's parent pointers back to Kevin Bacon and prints
the movie/actor path and the number of steps.

The model has seven modules:

| file | module | what it holds |
|---|---|---|
| `names.dfy` | `Names` | `normalizeName`, i.e. `trim()` and then `replaceAll("['\"]", "")`, with its laws |
| `option.dfy` | `Wrappers` | `Option`, which stands for a Java reference that may be null |
| `nodes.dfy` | `Nodes` | `ActorNode`, `MovieNode` and the graph as a value; `addActor`/`addMovie` as functions on that value (`WithActor`, `WithMovie`); the graph invariant `Consistent` (every edge is recorded on both sides); `KeyedByName` (every actor sits under its normalised display name) |
| `paths.dfy` | `Paths` | chains of shared movies, reachability in n hops, parent maps; `BfsResult`, which states what `bfs` returns |
| `graph.dfy` | `Graphs` | class `Graph`: its two maps as fields, `AddActor`, `AddMovie` and the FIFO search `Bfs` |
| `ingest.dfy` | `Ingest` | the line-dispatch loop of `buildGraphFromFile`, over a sequence of lines |
| `render.dfy` | `Render` | `getPathToKevinBacon`: the lookup, the walk to the root and the two messages |

How Java constructs are modelled:

- **Object identity.** Identity of an `ActorNode` is its normalised key. `putIfAbsent` never replaces a node, so one key stands for one object for the life of the graph. `MovieNode.actors` is therefore a set of keys.
- **Parent map.** The parent map is `map<string, Option<string>>`; `None` is the `null` parent of the start.
- **Iteration order.** The order in which the search walks the two hash sets is arbitrary. So is the movie that `iterator().next()` picks. Each is chosen with `:|`, and every contract holds for any such choice.

Normalisation is not idempotent: the code trims before it strips quotes, so a quote can shield a blank. `NormalizeName("' x")` is `" x"`, whose own key is `"x"` (lemma `Names.NormalizeNotIdempotent`).

## Model

| member | source | states |
|---|---|---|
| `Names.Trim` | getPathToKevinBacon.java:118 | the trimmed string is never longer and has no character of code at most U+0020 at either end |
| `Names.TrimDropsOnlyOuterBlanks` | getPathToKevinBacon.java:118 | trim returns a contiguous slice of its input, and every character it drops lies at one of the ends and is a blank |
| `Names.TrimIdempotent` | getPathToKevinBacon.java:118 | trimming twice gives the same as trimming once |
| `Names.StripQuotes` | getPathToKevinBacon.java:118 | removing the quote characters leaves no apostrophe or double quote, never lengthens, and changes nothing when there is no quote |
| `Names.StripQuotesKeepsOthers` | getPathToKevinBacon.java:118 | a character survives exactly when it was present and is not a quote |
| `Names.NormalizeName` | getPathToKevinBacon.java:117-119 | a key has no quote characters and is never longer than the name |
| `Names.StripOne` | getPathToKevinBacon.java:118 | a single character is removed when it is an apostrophe or a double quote and kept otherwise |
| `Names.StripCons` | getPathToKevinBacon.java:118 | stripping a string that starts with a character is that character's own fate followed by the rest stripped |
| `Names.StripConsStep` | getPathToKevinBacon.java:118 | putting a character in front of a split that stripping respects keeps the split respected |
| `Names.StripConcat` | getPathToKevinBacon.java:118 | stripping a concatenation is concatenating the stripped parts, so the kept characters keep their order and their number |
| `Names.NormalizeKeepsOthers` | getPathToKevinBacon.java:117-119 | a key holds exactly the characters of the trimmed name other than quotes, in their order: for every cut of the trimmed name, the key is the stripped left part followed by the stripped right part |
| `Names.NormalizeFixedPoint` | getPathToKevinBacon.java:117-119 | a string is its own key if and only if it has no quote and no blank at either end |
| `Names.NormalizeNotIdempotent` | getPathToKevinBacon.java:117-119 | normalising `"' x"` gives `" x"`, and normalising that again gives `"x"`, so the function is not idempotent |
| `Nodes.WithActor` | getPathToKevinBacon.java:57-59 | putIfAbsent under the key: the key set grows by exactly the normalised name, a new key gets a node with the unnormalised name and no movies, an existing key leaves the graph unchanged, and the movie map is never touched |
| `Nodes.WithMovie` | getPathToKevinBacon.java:69-75 | addMovie for an actor already present, as a function on the graph value; it has no ensures of its own, and its full before/after relation is the lemma `Nodes.WithMovieEdges` |
| `Nodes.FirstNameWins` | getPathToKevinBacon.java:57-59 | adding a second name with the same key after a first one leaves the graph as the first addition left it |
| `Nodes.WithActorConsistent` | getPathToKevinBacon.java:57-59 | addActor keeps every edge recorded on both sides |
| `Nodes.WithActorKeyed` | getPathToKevinBacon.java:57-59 | addActor keeps every actor under the key of its display name |
| `Nodes.WithMovieEdges` | getPathToKevinBacon.java:69-75 | for an actor already present, addMovie leaves the actor keys and display names unchanged; the title joins the movie keys, and a movie node is created only for a new title, holding that title; the edge actor–title is added on both sides, and no other edge is added |
| `Nodes.WithMovieConsistent` | getPathToKevinBacon.java:69-75 | addMovie keeps every edge recorded on both sides |
| `Nodes.WithMovieKeyed` | getPathToKevinBacon.java:69-75 | addMovie keeps every actor under the key of its display name |
| `Graphs.Graph.constructor` | getPathToKevinBacon.java:48-49 | a new graph has two empty maps and satisfies the graph invariant |
| `Graphs.Graph.AddActor` | getPathToKevinBacon.java:57-59 | the maps become `WithActor` of the old ones, and the invariant is kept |
| `Graphs.Graph.AddMovie` | getPathToKevinBacon.java:69-75 | the maps become `WithMovie` of the old ones, and the invariant is kept |
| `Graphs.Graph.Bfs` | getPathToKevinBacon.java:85-108 | an unknown start gives the empty map; otherwise: the start maps to None and is the only key that does; every other key's parent is a key that shares a movie with it; following parents from any key reaches the start, in exactly the shortest hop count from the start; every actor reachable from the start is a key |
| `Graphs.Turn` | getPathToKevinBacon.java:95-106 | one poll of the queue and the scan of that actor's movies keep the search invariant: no actor is queued twice, the queue is in distance order spanning two levels, and the parent and distance facts of every visited actor hold; the loop measure falls |
| `Graphs.VisitMovies` | getPathToKevinBacon.java:97-105 | after scanning every movie of the polled actor, all its co-actors are visited, and the invariant still holds |
| `Graphs.ScanMovie` | getPathToKevinBacon.java:98-104 | after scanning one more movie, the cast of that movie is visited too |
| `Graphs.VisitCast` | getPathToKevinBacon.java:99-104 | the whole cast of the movie ends up in the map, no key is lost, the search invariant still holds and the loop measure does not grow |
| `Graphs.Discover` | getPathToKevinBacon.java:100-103 | putting a newly seen co-actor in the map one level further out and appending it to the queue keeps the invariant |
| `Graphs.NotReachedSooner` | getPathToKevinBacon.java:100-101 | an actor not yet in the map has no chain from the start short enough to have been found earlier |
| `Graphs.NextLevel` | getPathToKevinBacon.java:95-106 | once the polled actor is settled, the queue invariant holds for the next head |
| `Graphs.Begin` | getPathToKevinBacon.java:92-93 | the queue holding only the start, and the map holding only the start with no parent, satisfy the invariant |
| `Graphs.Poll` | getPathToKevinBacon.java:96 | taking the head off the queue gives the invariant of a scan of that head |
| `Graphs.Closed` | getPathToKevinBacon.java:95-106 | when every visited actor has all its co-actors visited, everything reachable from the start is visited |
| `Graphs.ReachedAtDist` | getPathToKevinBacon.java:100-101 | following parents from a visited actor reaches the start in as many steps as its distance, along a chain of shared movies |
| `Graphs.Finish` | getPathToKevinBacon.java:95-107 | with the queue empty, the search invariant implies what `Bfs` promises |
| `Paths.UnknownStart` | getPathToKevinBacon.java:88-90 | from a name without a node nothing is reachable, so the empty map is the right answer |
| `Paths.ParentChainIsChain` | getPathToKevinBacon.java:190-200 | in a parent tree, the pointer walk from a key is a chain of shared movies from the root to that key |
| `Paths.DepthUnique` | getPathToKevinBacon.java:190-200 | the pointer walk from a key has one length only |
| `Paths.CoActorsShare` | getPathToKevinBacon.java:97-99 | the actors of the movies of `a` are exactly the actors that share a movie with `a` |
| `Ingest.ClassifyLine` | getPathToKevinBacon.java:148-154 | a line is an actor line exactly when it starts with `<a>`, a title line exactly when it starts with `<t>`, and the payload is the trimmed text after the tag |
| `Ingest.Replay` | getPathToKevinBacon.java:147-155 | the effect of the remaining lines on a graph and a current actor; a failure is reported at a `<t>` line within those lines, and once an actor is current one stays current |
| `Ingest.Decode` | getPathToKevinBacon.java:142-157 | the whole file from an empty graph and no current actor; a failure names the index of a `<t>` line of the file |
| `Ingest.BuildGraph` | getPathToKevinBacon.java:141-158 | the loop's graph is the graph the lines decode to; it fails, at the decoded index, exactly when decoding fails; the graph invariant holds throughout |
| `Ingest.ReplayValid` | getPathToKevinBacon.java:147-155 | replaying lines keeps the graph invariant |
| `Ingest.ReplayWithActorBuilds` | getPathToKevinBacon.java:151-153 | once an actor is current, every remaining line is accepted |
| `Ingest.ReplayFailsAtFirstTitle` | getPathToKevinBacon.java:145-153 | with no current actor, decoding fails at line j if and only if line j is the first tagged line and it is a `<t>` line |
| `Ingest.ReplayActorKeys` | getPathToKevinBacon.java:148-150 | the actor keys afterwards are the earlier keys plus the keys of the actor lines |
| `Ingest.ReplayFirstNameWins` | getPathToKevinBacon.java:148-150 | an actor keeps its earlier display name, or else takes the name on the first actor line with its key |
| `Ingest.ReplayEdges` | getPathToKevinBacon.java:147-155 | an actor–movie edge exists afterwards if and only if it existed before or is a (current actor, title) record of the lines |
| `Ingest.DecodeBuilds` | getPathToKevinBacon.java:141-158 | a file that decodes gives a consistent graph; its actors are the keys of its actor lines, each with the display name of the first such line; its edges are exactly the records of its lines; its movies are exactly the titles of those records |
| `Ingest.ReplayMovieKeys` | getPathToKevinBacon.java:151-153 | the movie keys afterwards are the earlier ones plus the titles of the (current actor, title) records of the lines |
| `Ingest.DecodeFails` | getPathToKevinBacon.java:145-153 | a file fails exactly at its first tagged line, when that line is a `<t>` line |
| `Render.NatToString` | getPathToKevinBacon.java:204 | the steps are printed as a non-empty string of decimal digits with no leading zero |
| `Render.Concat` | getPathToKevinBacon.java:205 | `String.join("", path)`: joining one token gives that token |
| `Render.ConcatAppend` | getPathToKevinBacon.java:205 | joining two runs of tokens is joining each run and putting the results side by side, so the tokens appear in order with no separator |
| `Render.NotFoundMessage` | getPathToKevinBacon.java:177 | the not-found answer starts with the input exactly as typed, in double quotes |
| `Render.FoundMessage` | getPathToKevinBacon.java:202-205 | the found answer starts with the input exactly as typed, in double quotes, and ends with the joined path |
| `Render.NatToStringRoundTrip` | getPathToKevinBacon.java:204 | reading the printed digits back gives the number of steps |
| `Render.KevinBaconIsKey` | getPathToKevinBacon.java:190 | "Bacon, Kevin (I)" is its own normalised key |
| `Render.OnlyKevinIsNamedKevin` | getPathToKevinBacon.java:190 | in a graph keyed by display names, only Kevin Bacon's own node can carry his display name, so the walk stops early only at the root |
| `Render.GetPathToKevinBacon` | getPathToKevinBacon.java:173-206 | a name without a node, or without an entry in the map, yields the not-found message with the name exactly as typed; otherwise the result is the found message for a path that renders the parent chain from the root to the target |
| `Render.WalkToKevin` | getPathToKevinBacon.java:179-201 | the path starts with Kevin Bacon's token; each hop of the parent chain follows as one movie token and then the child's display name; the movie token names a movie the two actors share |
| `Render.ChainLinks` | getPathToKevinBacon.java:190-200 | along the parent chain each element's parent is the element before it, and only the first has none |
| `Render.HopsLength` | getPathToKevinBacon.java:196-197 | each hop adds exactly two tokens |
| `Render.StepsAreHops` | getPathToKevinBacon.java:201-202 | `path.size() / 2` is the number of hops of the rendered chain |
| `Render.RenderedPathIsShortest` | getPathToKevinBacon.java:173-206 | with the map that bfs from Kevin Bacon returns, the reported steps equal the depth of the target, which is the shortest hop count from Kevin Bacon; the rendered chain starts at Kevin Bacon and every hop shares a movie |
| `Render.BfsFeedsRender` | getPathToKevinBacon.java:225-231 | the map bfs returns for the literal "Bacon, Kevin (I)" is a search result rooted at Kevin Bacon, hence a parent tree as getPathToKevinBacon requires |
| `Render.FoundIffConnected` | getPathToKevinBacon.java:176 | with the map that bfs from Kevin Bacon returns, an actor has an entry if and only if Kevin Bacon reaches it |
| `Render.KevinIsZeroSteps` | getPathToKevinBacon.java:190-202 | any name of Kevin Bacon himself renders as his token alone, 0 steps |
| `Render.AnswersDiffer` | getPathToKevinBacon.java:177-205 | the found and the not-found answers for a name always differ |

## Left out

- `main`: the console loop, `Scanner`, the `quit` test and printing are not modelled.
- Reading the file with `BufferedReader` is not modelled. `BuildGraph` takes the lines as a sequence.
- Hash-set iteration order is not modelled. It is an arbitrary choice (`:|`), so the model does not fix which movie is printed, or which of several equally short parents wins. The contracts hold for every choice.
- `Nodes.WithMovie`: has no ensures of its own. Its contract is stated once, as the lemma `Nodes.WithMovieEdges`, because as ensures on the function it makes every proof that unfolds `WithMovie` much costlier.
- `Graphs.Graph.AddMovie`: requires the actor's key to be present. In the same case the source creates the movie node and then throws a NullPointerException at line 73.
- `Ingest.BuildGraph`: for a `<t>` line before any `<a>` line, `BuildGraph` returns `failedAt == Some(index)` (the index that `Decode` reports as `TitleWithoutActor(index)`), and the graph it returns then is unspecified. In the same case the source throws a NullPointerException out of `buildGraphFromFile`, so no graph reaches the caller.
- `Render.GetPathToKevinBacon`: requires the map to be a parent tree rooted at Kevin Bacon, which is what `Bfs` returns by its contract and what `main` passes (`Render.BfsFeedsRender`). For an arbitrary map the source can loop forever or throw.
- The Java `int` for the step count is modelled as an unbounded `nat`. The steps are the hop count (`Render.StepsAreHops`), the length of a shortest chain, which visits no actor twice; so the steps are at most the number of actors minus one and the `int` cannot overflow. That bound is not itself proved.
- Java `String` is UTF-16. Here a string is a sequence of `char`, and `trim()` drops characters whose code is at most U+0020, as Java does.
