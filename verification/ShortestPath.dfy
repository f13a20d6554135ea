/** Breadth-first shortest paths with a map of predecessors (retrieval/retriever.py). */
module ShortestPath {
  import opened Collections
  import opened JoinGraph

  ghost predicate Connected(g: Graph, u: string, v: string) {
    exists path :: IsPath(g, path, u, v)
  }

  /** A path no other is shorter than, or nothing when there is none. */
  ghost predicate IsShortest(g: Graph, u: string, v: string, path: seq<string>) {
    if path == [] then !Connected(g, u, v)
    else IsPath(g, path, u, v) && forall other :: IsPath(g, other, u, v) ==> |path| <= |other|
  }

  /** The frontier search and the path search agree: a table is within `h` joins exactly when the
      shortest path to it has at most `h` edges. */
  lemma {:induction false} NeighborsAgree(g: Graph, u: string, v: string, h: nat, path: seq<string>)
    requires IsShortest(g, u, v, path)
    ensures v in Ball(g, u, h) <==> path != [] && |path| - 1 <= h
  {
    if v in Ball(g, u, h) {
      var other := BallHasPath(g, u, v, h);
    }
    if path != [] && |path| - 1 <= h {
      PathInBall(g, path, u, v, h);
    }
  }

  // ----- the state of the search -----

  /** Discovered nodes with their predecessors; `depth` counts edges from the source. */
  ghost predicate Tree(g: Graph, src: string, prev: map<string, string>, depth: map<string, nat>) {
    && prev.Keys == depth.Keys && src in prev && depth[src] == 0
    && forall n :: n in prev && n != src ==>
         prev[n] in prev && n in Adjacent(g, prev[n]) && depth[n] == depth[prev[n]] + 1
  }

  /** The queue is in order of depth and spans at most two levels above `level`. */
  ghost predicate Ordered(depth: map<string, nat>, queue: seq<string>, level: nat) {
    && (forall i :: 0 <= i < |queue| ==> queue[i] in depth && level <= depth[queue[i]] <= level + 1)
    && forall i, j :: 0 <= i < j < |queue| ==> depth[queue[i]] <= depth[queue[j]]
  }

  /** A finished node leaves nothing undiscovered next to it. */
  ghost predicate Finished(g: Graph, depth: map<string, nat>, done: set<string>, level: nat) {
    forall x :: x in done ==>
      && x in depth && depth[x] <= level
      && forall y :: y in Adjacent(g, x) ==> y in depth && depth[y] <= depth[x] + 1
  }

  function Elements(queue: seq<string>): set<string> {
    set x | x in queue
  }

  /** A walk that stays among finished nodes up to `level` is discovered in time. */
  lemma {:induction false} PathDiscovered(g: Graph, src: string, prev: map<string, string>, depth: map<string, nat>,
                                          done: set<string>, open: set<string>, level: nat, path: seq<string>,
                                          v: string)
    requires Tree(g, src, prev, depth) && Finished(g, depth, done, level)
    requires prev.Keys == done + open && forall x :: x in open ==> depth[x] >= level
    requires IsPath(g, path, src, v) && |path| - 1 <= level
    ensures v in depth && depth[v] <= |path| - 1
  {
    if |path| > 1 {
      var before := path[..|path| - 1];
      var w := before[|before| - 1];
      assert IsPath(g, before, src, w);
      PathDiscovered(g, src, prev, depth, done, open, level, before, w);
      assert v in Adjacent(g, w);
      assert w in done;
    }
  }

  /** When nothing is left to explore, every reachable node was discovered. */
  lemma {:induction false} AllDiscovered(g: Graph, src: string, prev: map<string, string>, depth: map<string, nat>,
                                         level: nat, path: seq<string>, v: string)
    requires Tree(g, src, prev, depth) && Finished(g, depth, prev.Keys, level)
    requires IsPath(g, path, src, v)
    ensures v in depth
  {
    if |path| > 1 {
      var before := path[..|path| - 1];
      assert IsPath(g, before, src, before[|before| - 1]);
      AllDiscovered(g, src, prev, depth, level, before, before[|before| - 1]);
      assert v in Adjacent(g, before[|before| - 1]);
    }
  }

  // ----- reconstruction -----

  function Reversed(xs: seq<string>): (ys: seq<string>)
    ensures |ys| == |xs|
    ensures forall i :: 0 <= i < |xs| ==> ys[i] == xs[|xs| - 1 - i]
  {
    seq(|xs|, i requires 0 <= i < |xs| => xs[|xs| - 1 - i])
  }

  /** Follow predecessors from `dst` back to `src`. */
  method Reconstruct(g: Graph, prev: map<string, string>, ghost depth: map<string, nat>, src: string, dst: string)
    returns (path: seq<string>)
    requires Tree(g, src, prev, depth) && dst in prev
    ensures IsPath(g, path, src, dst) && |path| == depth[dst] + 1
  {
    var back := [dst];
    var cur := dst;
    while cur != src
      invariant cur in prev && |back| != 0 && back[0] == dst && back[|back| - 1] == cur
      invariant |back| + depth[cur] == depth[dst] + 1
      invariant forall i :: 0 <= i < |back| - 1 ==> back[i] in Adjacent(g, back[i + 1])
      decreases depth[cur]
    {
      cur := prev[cur];
      back := back + [cur];
    }
    path := Reversed(back);
    forall i | 0 <= i < |path| - 1
      ensures path[i + 1] in Adjacent(g, path[i])
    {
      assert back[|back| - 2 - i] in Adjacent(g, back[|back| - 2 - i + 1]);
    }
  }

  // ----- the search -----

  function Universe(g: Graph, src: string): set<string> {
    {src} + set u, v | u in g && v in g[u] :: v
  }

  /** Between two turns: what is discovered is finished or queued, never both, nothing queued twice. */
  ghost predicate Searching(g: Graph, src: string, prev: map<string, string>, depth: map<string, nat>,
                            done: set<string>, queue: seq<string>, level: nat) {
    && Tree(g, src, prev, depth) && Ordered(depth, queue, level) && Finished(g, depth, done, level)
    && prev.Keys == done + Elements(queue) && done !! Elements(queue) && Unique(queue)
  }

  lemma {:induction false} SearchShrinks(g: Graph, src: string, prev: map<string, string>, depth: map<string, nat>,
                                         done: set<string>, node: string)
    requires Tree(g, src, prev, depth) && node in prev && node !in done
    ensures |Universe(g, src) - (done + {node})| < |Universe(g, src) - done|
  {
    var all := Universe(g, src);
    assert node in all;
    assert all - done == (all - (done + {node})) + {node};
  }

  /** While a node of depth d is explored, an undiscovered node is more than d edges away. */
  lemma Undiscovered(g: Graph, src: string, prev: map<string, string>, depth: map<string, nat>, done: set<string>,
                     open: set<string>, level: nat, dst: string, path: seq<string>)
    requires Tree(g, src, prev, depth) && Finished(g, depth, done, level)
    requires prev.Keys == done + open && forall x :: x in open ==> depth[x] >= level
    requires dst !in prev && IsPath(g, path, src, dst)
    ensures |path| >= level + 2
  {
    if |path| - 1 <= level {
      PathDiscovered(g, src, prev, depth, done, open, level, path, dst);
    }
  }

  /** The state while one node is explored. */
  ghost predicate Exploring(g: Graph, src: string, prev: map<string, string>, depth: map<string, nat>,
                            done: set<string>, node: string, queue: seq<string>) {
    && Tree(g, src, prev, depth) && node in prev
    && Ordered(depth, queue, depth[node]) && Finished(g, depth, done, depth[node])
    && prev.Keys == done + {node} + Elements(queue) && done !! Elements(queue) && Unique(queue)
    && node !in done && node !in Elements(queue)
  }

  lemma TakeFirst(g: Graph, src: string, prev: map<string, string>, depth: map<string, nat>,
                  done: set<string>, queue: seq<string>, level: nat)
    requires Searching(g, src, prev, depth, done, queue, level) && |queue| != 0
    ensures Exploring(g, src, prev, depth, done, queue[0], queue[1..])
  {
    TailOrdered(depth, queue, level);
    TailElements(queue);
  }

  lemma TailElements(queue: seq<string>)
    requires |queue| != 0 && Unique(queue)
    ensures Elements(queue) == {queue[0]} + Elements(queue[1..]) && queue[0] !in Elements(queue[1..])
    ensures Unique(queue[1..])
  {
    assert queue == [queue[0]] + queue[1..];
    forall i, j | 0 <= i < j < |queue[1..]|
      ensures queue[1..][i] != queue[1..][j]
    {
      assert queue[i + 1] != queue[j + 1];
    }
  }

  lemma TailOrdered(depth: map<string, nat>, queue: seq<string>, level: nat)
    requires Ordered(depth, queue, level) && |queue| != 0
    ensures queue[0] in depth && Ordered(depth, queue[1..], depth[queue[0]])
  {
    assert forall i :: 0 <= i < |queue[1..]| ==> queue[1..][i] == queue[i + 1];
  }

  lemma TreeGrows(g: Graph, src: string, prev: map<string, string>, depth: map<string, nat>,
                  node: string, found: string)
    requires Tree(g, src, prev, depth) && node in prev && found in Adjacent(g, node) && found !in prev
    ensures Tree(g, src, prev[found := node], depth[found := depth[node] + 1])
  {
    var prev', depth' := prev[found := node], depth[found := depth[node] + 1];
    forall n | n in prev' && n != src
      ensures prev'[n] in prev' && n in Adjacent(g, prev'[n]) && depth'[n] == depth'[prev'[n]] + 1
    {
      if n != found {
        assert n in prev && prev[n] in prev;
      }
    }
  }

  lemma QueueGrows(depth: map<string, nat>, queue: seq<string>, level: nat, found: string)
    requires Ordered(depth, queue, level) && found !in depth && Unique(queue)
    ensures Ordered(depth[found := level + 1], queue + [found], level) && Unique(queue + [found])
    ensures Elements(queue + [found]) == Elements(queue) + {found}
  {
    forall i | 0 <= i < |queue|
      ensures queue[i] != found
    {
    }
  }

  lemma Discover(g: Graph, src: string, prev: map<string, string>, depth: map<string, nat>,
                 done: set<string>, node: string, queue: seq<string>, found: string)
    requires Exploring(g, src, prev, depth, done, node, queue) && found in Adjacent(g, node) && found !in prev
    ensures Exploring(g, src, prev[found := node], depth[found := depth[node] + 1], done, node, queue + [found])
  {
    TreeGrows(g, src, prev, depth, node, found);
    QueueGrows(depth, queue, depth[node], found);
    assert prev[found := node].Keys == prev.Keys + {found};
  }

  lemma FinishNode(g: Graph, src: string, prev: map<string, string>, depth: map<string, nat>,
                   done: set<string>, node: string, queue: seq<string>)
    requires Exploring(g, src, prev, depth, done, node, queue)
    requires Near(g, depth, node, {})
    ensures Searching(g, src, prev, depth, done + {node}, queue, depth[node])
  {
  }

  /** The neighbours of a node that are no longer pending are discovered, at most one level below it. */
  ghost predicate Near(g: Graph, depth: map<string, nat>, node: string, pending: set<string>) {
    && node in depth
    && forall y :: y in Adjacent(g, node) && y !in pending ==> y in depth && depth[y] <= depth[node] + 1
  }

  lemma NearKnown(g: Graph, depth: map<string, nat>, node: string, pending: set<string>, y: string)
    requires Near(g, depth, node, pending) && y in depth && depth[y] <= depth[node] + 1
    ensures Near(g, depth, node, pending - {y})
  {
  }

  lemma NearFound(g: Graph, depth: map<string, nat>, node: string, pending: set<string>, found: string)
    requires Near(g, depth, node, pending) && found !in depth
    ensures Near(g, depth[found := depth[node] + 1], node, pending - {found})
  {
  }

  /** What was known stays. */
  ghost predicate Kept(known: map<string, string>, prev: map<string, string>) {
    forall n :: n in known ==> n in prev && prev[n] == known[n]
  }

  lemma KeptFound(known: map<string, string>, prev: map<string, string>, found: string, node: string)
    requires Kept(known, prev) && found !in prev
    ensures Kept(known, prev[found := node])
  {
  }

  /** A discovered node is at most one level below the node explored. */
  lemma KnownDepth(g: Graph, src: string, prev: map<string, string>, depth: map<string, nat>,
                   done: set<string>, node: string, queue: seq<string>, y: string)
    requires Exploring(g, src, prev, depth, done, node, queue) && y in prev
    ensures depth[y] <= depth[node] + 1
  {
    if y in Elements(queue) {
      var i :| 0 <= i < |queue| && queue[i] == y;
    }
  }

  /** One turn: discover the undiscovered neighbours of a node, in whatever order they come. */
  method Explore(g: Graph, src: string, dst: string, node: string, known: map<string, string>, waiting: seq<string>,
                 ghost level: map<string, nat>, ghost done: set<string>)
    returns (prev: map<string, string>, queue: seq<string>, found: bool, ghost depth: map<string, nat>)
    requires Exploring(g, src, known, level, done, node, waiting) && dst !in known
    ensures found <==> dst in prev
    ensures Kept(known, prev)
    ensures found ==> Tree(g, src, prev, depth) && dst in prev && depth[dst] == level[node] + 1
    ensures !found ==> Searching(g, src, prev, depth, done + {node}, queue, level[node]) && dst !in prev
  {
    prev, queue, depth, found := known, waiting, level, false;
    var pending := Adjacent(g, node);
    while pending != {}
      invariant Exploring(g, src, prev, depth, done, node, queue) && dst !in prev && depth[node] == level[node]
      invariant pending <= Adjacent(g, node) && Kept(known, prev) && Near(g, depth, node, pending)
      decreases |pending|
    {
      var nbr :| nbr in pending;
      if nbr in prev {
        KnownDepth(g, src, prev, depth, done, node, queue, nbr);
        NearKnown(g, depth, node, pending, nbr);
        pending := pending - {nbr};
        continue;
      }
      Discover(g, src, prev, depth, done, node, queue, nbr);
      NearFound(g, depth, node, pending, nbr);
      KeptFound(known, prev, nbr, node);
      pending := pending - {nbr};
      prev := prev[nbr := node];
      depth := depth[nbr := depth[node] + 1];
      queue := queue + [nbr];
      if nbr == dst {
        found := true;
        return;
      }
    }
    FinishNode(g, src, prev, depth, done, node, queue);
  }

  lemma StartSearch(g: Graph, src: string)
    ensures Searching(g, src, map[src := src], map[src := 0], {}, [src], 0)
  {
  }

  lemma NothingLeft(g: Graph, src: string, dst: string, prev: map<string, string>, depth: map<string, nat>,
                    done: set<string>, queue: seq<string>, level: nat)
    requires Searching(g, src, prev, depth, done, queue, level) && |queue| == 0 && dst !in prev
    ensures IsShortest(g, src, dst, [])
  {
    assert Elements(queue) == {};
    assert done == prev.Keys;
    if path :| IsPath(g, path, src, dst) {
      AllDiscovered(g, src, prev, depth, level, path, dst);
    }
  }

  /** The first path found is a shortest one. */
  lemma FirstFoundIsShortest(g: Graph, src: string, dst: string, prev: map<string, string>, depth: map<string, nat>,
                             done: set<string>, node: string, queue: seq<string>, path: seq<string>)
    requires Exploring(g, src, prev, depth, done, node, queue) && dst !in prev
    requires IsPath(g, path, src, dst) && |path| == depth[node] + 2
    ensures IsShortest(g, src, dst, path)
  {
    forall other | IsPath(g, other, src, dst)
      ensures |path| <= |other|
    {
      var open := {node} + Elements(queue);
      assert prev.Keys == done + open;
      forall x | x in open
        ensures depth[x] >= depth[node]
      {
        if x in Elements(queue) {
          var i :| 0 <= i < |queue| && queue[i] == x;
        }
      }
      Undiscovered(g, src, prev, depth, done, open, depth[node], dst, other);
    }
  }

  method FindShortestPath(g: Graph, src: string, dst: string) returns (path: seq<string>)
    ensures IsShortest(g, src, dst, path)
  {
    if src == dst {
      assert IsPath(g, [src], src, dst);
      return [src];
    }
    path := Search(g, src, dst);
  }

  method Search(g: Graph, src: string, dst: string) returns (path: seq<string>)
    requires src != dst
    ensures IsShortest(g, src, dst, path)
  {
    var prev := map[src := src];
    var queue := [src];
    ghost var depth: map<string, nat> := map[src := 0];
    ghost var done: set<string> := {};
    ghost var level: nat := 0;
    StartSearch(g, src);
    while |queue| != 0
      invariant Searching(g, src, prev, depth, done, queue, level) && dst !in prev
      decreases |Universe(g, src) - done|
    {
      var node := queue[0];
      TakeFirst(g, src, prev, depth, done, queue, level);
      SearchShrinks(g, src, prev, depth, done, node);
      ghost var before, known, rest := prev, depth, queue[1..];
      var found;
      prev, queue, found, depth := Explore(g, src, dst, node, prev, queue[1..], depth, done);
      if found {
        path := Reconstruct(g, prev, depth, src, dst);
        FirstFoundIsShortest(g, src, dst, before, known, done, node, rest, path);
        return;
      }
      done := done + {node};
      level := known[node];
    }
    NothingLeft(g, src, dst, prev, depth, done, queue, level);
    return [];
  }
}
