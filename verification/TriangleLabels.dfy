// Which triangles of a mesh belong to one solid: union-find over vertex numbers, with
// path halving and no ranks at run time. Two triangles get the same label exactly when a
// chain of triangles sharing vertices links them.
module TriangleLabels {
  import opened Optional

  datatype Face = Face(a: nat, b: nat, c: nat)

  type Edge = (nat, nat)

  // ---- parents --------------------------------------------------------------

  /** The parent links go strictly up in rank, so they end at a root. */
  ghost predicate Forest(p: seq<nat>, rank: seq<nat>, top: nat) {
    && |rank| == |p|
    && (forall i :: 0 <= i < |p| ==> p[i] < |p|)
    && (forall i :: 0 <= i < |p| ==> rank[i] <= top)
    && (forall i :: 0 <= i < |p| && p[i] != i ==> rank[i] < rank[p[i]])
  }

  ghost function RootOf(p: seq<nat>, rank: seq<nat>, top: nat, i: nat): (r: nat)
    requires Forest(p, rank, top) && i < |p|
    ensures r < |p| && p[r] == r && rank[i] <= rank[r]
    decreases top - rank[i]
  {
    if p[i] == i then i else RootOf(p, rank, top, p[i])
  }

  /** The root does not depend on the ranks that show it exists. */
  lemma {:induction false} RootIgnoresRank(p: seq<nat>, rank: seq<nat>, top: nat, rank': seq<nat>, top': nat, i: nat)
    requires Forest(p, rank, top) && Forest(p, rank', top') && i < |p|
    ensures RootOf(p, rank, top, i) == RootOf(p, rank', top', i)
    decreases top - rank[i]
  {
    if p[i] != i { RootIgnoresRank(p, rank, top, rank', top', p[i]); }
  }

  /** Path halving at k: its parent becomes its grandparent. */
  lemma HalvingKeepsForest(p: seq<nat>, rank: seq<nat>, top: nat, k: nat)
    requires Forest(p, rank, top) && k < |p|
    ensures Forest(p[k := p[p[k]]], rank, top)
  {
  }

  lemma {:induction false} HalvingKeepsRoot(p: seq<nat>, rank: seq<nat>, top: nat, k: nat, i: nat)
    requires Forest(p, rank, top) && k < |p| && i < |p|
    ensures Forest(p[k := p[p[k]]], rank, top)
    ensures RootOf(p[k := p[p[k]]], rank, top, i) == RootOf(p, rank, top, i)
    decreases top - rank[i]
  {
    var q := p[k := p[p[k]]];
    HalvingKeepsForest(p, rank, top, k);
    if p[i] != i {
      HalvingKeepsRoot(p, rank, top, k, p[i]);
      if i == k && p[p[k]] != p[k] {
        HalvingKeepsRoot(p, rank, top, k, p[p[k]]);
        assert RootOf(p, rank, top, i) == RootOf(p, rank, top, p[p[k]]);
      }
    }
  }

  /** Hanging root b under root a, with a raised above everything. */
  lemma JoinKeepsForest(p: seq<nat>, rank: seq<nat>, top: nat, a: nat, b: nat)
    requires Forest(p, rank, top) && a < |p| && b < |p| && p[a] == a && p[b] == b && a != b
    ensures Forest(p[b := a], rank[a := top + 1], top + 1)
  {
  }

  /** It moves exactly the members of b's tree to a. */
  lemma {:induction false} JoinMovesRoot(p: seq<nat>, rank: seq<nat>, top: nat, a: nat, b: nat, i: nat)
    requires Forest(p, rank, top) && a < |p| && b < |p| && p[a] == a && p[b] == b && a != b && i < |p|
    requires Forest(p[b := a], rank[a := top + 1], top + 1)
    ensures var r := RootOf(p, rank, top, i);
            RootOf(p[b := a], rank[a := top + 1], top + 1, i) == if r == b then a else r
    decreases top - rank[i]
  {
    if p[i] != i { JoinMovesRoot(p, rank, top, a, b, p[i]); }
  }

  // ---- connection -----------------------------------------------------------

  predicate Adjacent(edges: seq<Edge>, u: nat, v: nat) {
    (u, v) in edges || (v, u) in edges
  }

  predicate Path(edges: seq<Edge>, path: seq<nat>) {
    path != [] && forall i :: 0 < i < |path| ==> Adjacent(edges, path[i - 1], path[i])
  }

  ghost predicate Connected(edges: seq<Edge>, u: nat, v: nat) {
    exists path :: Path(edges, path) && path[0] == u && path[|path| - 1] == v
  }

  lemma ConnectedToSelf(edges: seq<Edge>, u: nat)
    ensures Connected(edges, u, u)
  {
    assert Path(edges, [u]) && [u][0] == u;
  }

  lemma EdgeConnects(edges: seq<Edge>, e: Edge)
    requires e in edges
    ensures Connected(edges, e.0, e.1)
  {
    var path := [e.0, e.1];
    assert Path(edges, path) && path[0] == e.0 && path[|path| - 1] == e.1;
  }

  lemma ConnectionTurns(edges: seq<Edge>, u: nat, v: nat)
    requires Connected(edges, u, v)
    ensures Connected(edges, v, u)
  {
    var path :| Path(edges, path) && path[0] == u && path[|path| - 1] == v;
    var back := seq(|path|, i requires 0 <= i < |path| => path[|path| - 1 - i]);
    forall i | 0 < i < |back| ensures Adjacent(edges, back[i - 1], back[i]) {
      assert Adjacent(edges, path[|path| - 1 - i], path[|path| - i]);
    }
    assert Path(edges, back) && back[0] == v && back[|back| - 1] == u;
  }

  lemma ConnectionChains(edges: seq<Edge>, u: nat, v: nat, w: nat)
    requires Connected(edges, u, v) && Connected(edges, v, w)
    ensures Connected(edges, u, w)
  {
    var first :| Path(edges, first) && first[0] == u && first[|first| - 1] == v;
    var second :| Path(edges, second) && second[0] == v && second[|second| - 1] == w;
    var whole := first + second[1..];
    forall i | 0 < i < |whole| ensures Adjacent(edges, whole[i - 1], whole[i]) {
      if i < |first| {
        assert Adjacent(edges, first[i - 1], first[i]);
      } else {
        assert Adjacent(edges, second[i - |first|], second[i - |first| + 1]);
      }
    }
    assert Path(edges, whole) && whole[0] == u && whole[|whole| - 1] == w;
  }

  lemma MoreEdgesConnect(edges: seq<Edge>, e: Edge, u: nat, v: nat)
    requires Connected(edges, u, v)
    ensures Connected(edges + [e], u, v)
  {
    var path :| Path(edges, path) && path[0] == u && path[|path| - 1] == v;
    assert Path(edges + [e], path);
  }

  // ---- the invariant --------------------------------------------------------

  /** Vertex numbers in range. */
  predicate Inside(edges: seq<Edge>, n: nat) {
    forall e :: e in edges ==> e.0 < n && e.1 < n
  }

  ghost predicate Anchored(p: seq<nat>, rank: seq<nat>, top: nat, edges: seq<Edge>, i: nat)
    requires Forest(p, rank, top) && i < |p|
  {
    Connected(edges, i, RootOf(p, rank, top, i))
  }

  /** The trees are the connected components: everything is connected to its root, and the
      ends of every edge share theirs. */
  ghost predicate Partition(p: seq<nat>, rank: seq<nat>, top: nat, edges: seq<Edge>) {
    && Forest(p, rank, top) && Inside(edges, |p|)
    && (forall i :: 0 <= i < |p| ==> Anchored(p, rank, top, edges, i))
    && (forall e :: e in edges ==> RootOf(p, rank, top, e.0) == RootOf(p, rank, top, e.1))
  }

  lemma {:induction false} PathKeepsRoot(p: seq<nat>, rank: seq<nat>, top: nat, edges: seq<Edge>, path: seq<nat>)
    requires Partition(p, rank, top, edges) && Path(edges, path) && path[0] < |p|
    ensures path[|path| - 1] < |p|
    ensures RootOf(p, rank, top, path[0]) == RootOf(p, rank, top, path[|path| - 1])
    decreases |path|
  {
    hide Connected, Forest;
    if |path| > 1 {
      assert Adjacent(edges, path[0], path[1]);
      var rest := path[1..];
      assert forall i :: 0 < i < |rest| ==> Adjacent(edges, rest[i - 1], rest[i]) by {
        forall i | 0 < i < |rest| ensures Adjacent(edges, rest[i - 1], rest[i]) {
          assert Adjacent(edges, path[i], path[i + 1]);
        }
      }
      PathKeepsRoot(p, rank, top, edges, rest);
    }
  }

  /** In a partition, equal roots and connection are the same thing. */
  lemma SameRootMeansConnected(p: seq<nat>, rank: seq<nat>, top: nat, edges: seq<Edge>, u: nat, v: nat)
    requires Partition(p, rank, top, edges) && u < |p| && v < |p|
    ensures RootOf(p, rank, top, u) == RootOf(p, rank, top, v) <==> Connected(edges, u, v)
  {
    if RootOf(p, rank, top, u) == RootOf(p, rank, top, v) {
      assert Anchored(p, rank, top, edges, u) && Anchored(p, rank, top, edges, v);
      ConnectionTurns(edges, v, RootOf(p, rank, top, v));
      ConnectionChains(edges, u, RootOf(p, rank, top, u), v);
    }
    if Connected(edges, u, v) {
      var path :| Path(edges, path) && path[0] == u && path[|path| - 1] == v;
      PathKeepsRoot(p, rank, top, edges, path);
    }
  }

  lemma HalvingKeepsPartition(p: seq<nat>, rank: seq<nat>, top: nat, edges: seq<Edge>, k: nat)
    requires Partition(p, rank, top, edges) && k < |p|
    ensures Partition(p[k := p[p[k]]], rank, top, edges)
  {
    hide Connected;
    var q := p[k := p[p[k]]];
    HalvingKeepsForest(p, rank, top, k);
    forall i | 0 <= i < |p|
      ensures RootOf(q, rank, top, i) == RootOf(p, rank, top, i) && Anchored(q, rank, top, edges, i)
    {
      HalvingKeepsRoot(p, rank, top, k, i);
      assert Anchored(p, rank, top, edges, i);
    }
  }

  /** An edge whose ends already share a root changes nothing. */
  lemma KnownEdgeKeepsPartition(p: seq<nat>, rank: seq<nat>, top: nat, edges: seq<Edge>, x: nat, y: nat)
    requires Partition(p, rank, top, edges) && x < |p| && y < |p|
    requires RootOf(p, rank, top, x) == RootOf(p, rank, top, y)
    ensures Partition(p, rank, top, edges + [(x, y)])
  {
    hide Forest, Connected;
    forall i | 0 <= i < |p| ensures Anchored(p, rank, top, edges + [(x, y)], i) {
      assert Anchored(p, rank, top, edges, i);
      MoreEdgesConnect(edges, (x, y), i, RootOf(p, rank, top, i));
    }
  }

  /** Joining the roots of an edge's ends accounts for exactly that edge. */
  lemma JoinKeepsPartition(p: seq<nat>, rank: seq<nat>, top: nat, edges: seq<Edge>, x: nat, y: nat, a: nat, b: nat)
    requires Partition(p, rank, top, edges) && x < |p| && y < |p|
    requires a == RootOf(p, rank, top, x) && b == RootOf(p, rank, top, y) && a != b
    ensures Partition(p[b := a], rank[a := top + 1], top + 1, edges + [(x, y)])
  {
    hide Connected;
    var q, rank', top', all := p[b := a], rank[a := top + 1], top + 1, edges + [(x, y)];
    JoinKeepsForest(p, rank, top, a, b);
    forall i | 0 <= i < |p|
      ensures var r := RootOf(p, rank, top, i); RootOf(q, rank', top', i) == if r == b then a else r
    {
      JoinMovesRoot(p, rank, top, a, b, i);
    }
    assert Connected(all, b, a) by {
      assert Anchored(p, rank, top, edges, x) && Anchored(p, rank, top, edges, y);
      MoreEdgesConnect(edges, (x, y), x, a);
      MoreEdgesConnect(edges, (x, y), y, b);
      EdgeConnects(all, (x, y));
      ConnectionTurns(all, y, b);
      ConnectionTurns(all, x, y);
      ConnectionChains(all, b, y, x);
      ConnectionChains(all, b, x, a);
    }
    forall i | 0 <= i < |p| ensures Anchored(q, rank', top', all, i) {
      assert Anchored(p, rank, top, edges, i);
      var r := RootOf(p, rank, top, i);
      MoreEdgesConnect(edges, (x, y), i, r);
      if r == b { ConnectionChains(all, i, b, a); }
    }
  }

  // ---- triangles ------------------------------------------------------------

  function FaceEdges(faces: seq<Face>): seq<Edge>
    decreases |faces|
  {
    if faces == [] then []
    else
      var f := faces[|faces| - 1];
      FaceEdges(faces[..|faces| - 1]) + [(f.a, f.b), (f.a, f.c)]
  }

  predicate Corner(f: Face, v: nat) {
    v == f.a || v == f.b || v == f.c
  }

  ghost predicate Touching(f: Face, g: Face) {
    exists v :: Corner(f, v) && Corner(g, v)
  }

  /** Triangles by number, each sharing a vertex with the next. */
  ghost predicate Chain(faces: seq<Face>, chain: seq<nat>) {
    && chain != [] && (forall i :: 0 <= i < |chain| ==> chain[i] < |faces|)
    && forall i :: 0 < i < |chain| ==> Touching(faces[chain[i - 1]], faces[chain[i]])
  }

  ghost predicate OneSolid(faces: seq<Face>, i: nat, j: nat)
    requires i < |faces| && j < |faces|
  {
    exists chain :: Chain(faces, chain) && chain[0] == i && chain[|chain| - 1] == j
  }

  lemma {:induction false} EdgesOfFaces(faces: seq<Face>, e: Edge)
    ensures e in FaceEdges(faces) <==>
              exists k :: 0 <= k < |faces| && e.0 == faces[k].a && (e.1 == faces[k].b || e.1 == faces[k].c)
    decreases |faces|
  {
    if faces != [] {
      var init, f := faces[..|faces| - 1], faces[|faces| - 1];
      EdgesOfFaces(init, e);
      if e in FaceEdges(init) {
        var k :| 0 <= k < |init| && e.0 == init[k].a && (e.1 == init[k].b || e.1 == init[k].c);
        assert faces[k] == init[k];
      }
      if exists k :: 0 <= k < |faces| && e.0 == faces[k].a && (e.1 == faces[k].b || e.1 == faces[k].c) {
        var k :| 0 <= k < |faces| && e.0 == faces[k].a && (e.1 == faces[k].b || e.1 == faces[k].c);
        if k < |init| { assert faces[k] == init[k]; }
      }
    }
  }

  lemma CornersAreConnected(faces: seq<Face>, k: nat, u: nat, v: nat)
    requires k < |faces| && Corner(faces[k], u) && Corner(faces[k], v)
    ensures Connected(FaceEdges(faces), u, v)
  {
    hide Connected, FaceEdges;
    var edges, f := FaceEdges(faces), faces[k];
    EdgesOfFaces(faces, (f.a, f.b));
    EdgesOfFaces(faces, (f.a, f.c));
    EdgeConnects(edges, (f.a, f.b));
    EdgeConnects(edges, (f.a, f.c));
    ConnectedToSelf(edges, f.a);
    ConnectionTurns(edges, f.a, u);
    ConnectionChains(edges, u, f.a, v);
  }

  lemma {:induction false} ChainConnects(faces: seq<Face>, chain: seq<nat>)
    requires Chain(faces, chain)
    ensures Connected(FaceEdges(faces), faces[chain[0]].a, faces[chain[|chain| - 1]].a)
    decreases |chain|
  {
    hide Connected, FaceEdges;
    var edges, f := FaceEdges(faces), faces[chain[0]];
    if |chain| == 1 {
      ConnectedToSelf(edges, f.a);
    } else {
      var g := faces[chain[1]];
      assert Touching(faces[chain[0]], faces[chain[1]]);
      var v :| Corner(f, v) && Corner(g, v);
      CornersAreConnected(faces, chain[0], f.a, v);
      CornersAreConnected(faces, chain[1], v, g.a);
      ConnectionChains(edges, f.a, v, g.a);
      var rest := chain[1..];
      assert forall i :: 0 < i < |rest| ==> Touching(faces[rest[i - 1]], faces[rest[i]]) by {
        forall i | 0 < i < |rest| ensures Touching(faces[rest[i - 1]], faces[rest[i]]) {
          assert Touching(faces[chain[i]], faces[chain[i + 1]]);
        }
      }
      ChainConnects(faces, rest);
      ConnectionChains(edges, f.a, g.a, faces[chain[|chain| - 1]].a);
    }
  }

  /** A vertex path gives a triangle chain from any triangle at its start to any at its end. */
  lemma {:induction false} PathGivesChain(faces: seq<Face>, path: seq<nat>, i: nat, j: nat)
    requires Path(FaceEdges(faces), path) && i < |faces| && j < |faces|
    requires Corner(faces[i], path[0]) && Corner(faces[j], path[|path| - 1])
    ensures OneSolid(faces, i, j)
    decreases |path|
  {
    var edges := FaceEdges(faces);
    hide FaceEdges;
    if |path| == 1 {
      assert Touching(faces[i], faces[j]);
      var chain := [i, j];
      assert Chain(faces, chain) && chain[0] == i && chain[|chain| - 1] == j;
    } else {
      assert Adjacent(edges, path[0], path[1]);
      var k := FaceOfEdge(faces, path[0], path[1]);
      var rest := path[1..];
      assert Path(edges, rest) by {
        forall m | 0 < m < |rest| ensures Adjacent(edges, rest[m - 1], rest[m]) {
          assert Adjacent(edges, path[m], path[m + 1]);
        }
      }
      PathGivesChain(faces, rest, k, j);
      assert Touching(faces[i], faces[k]);
      ChainExtends(faces, i, k, j);
    }
  }

  lemma FaceOfEdge(faces: seq<Face>, u: nat, v: nat) returns (k: nat)
    requires Adjacent(FaceEdges(faces), u, v)
    ensures k < |faces| && Corner(faces[k], u) && Corner(faces[k], v)
  {
    hide FaceEdges;
    var e := if (u, v) in FaceEdges(faces) then (u, v) else (v, u);
    EdgesOfFaces(faces, e);
    k :| 0 <= k < |faces| && e.0 == faces[k].a && (e.1 == faces[k].b || e.1 == faces[k].c);
  }

  lemma ChainExtends(faces: seq<Face>, i: nat, k: nat, j: nat)
    requires i < |faces| && k < |faces| && j < |faces| && Touching(faces[i], faces[k]) && OneSolid(faces, k, j)
    ensures OneSolid(faces, i, j)
  {
    hide Touching;
    var chain :| Chain(faces, chain) && chain[0] == k && chain[|chain| - 1] == j;
    var longer := [i] + chain;
    forall m | 0 < m < |longer| ensures Touching(faces[longer[m - 1]], faces[longer[m]]) {
      if m > 1 { assert Touching(faces[chain[m - 2]], faces[chain[m - 1]]); }
    }
    assert Chain(faces, longer) && longer[0] == i && longer[|longer| - 1] == j;
  }

  /** First corners are connected exactly when the triangles are linked by a chain. */
  lemma ConnectedMeansOneSolid(faces: seq<Face>, i: nat, j: nat)
    requires i < |faces| && j < |faces|
    ensures Connected(FaceEdges(faces), faces[i].a, faces[j].a) <==> OneSolid(faces, i, j)
  {
    hide FaceEdges;
    if Connected(FaceEdges(faces), faces[i].a, faces[j].a) {
      var path :| Path(FaceEdges(faces), path) && path[0] == faces[i].a && path[|path| - 1] == faces[j].a;
      PathGivesChain(faces, path, i, j);
    }
    if OneSolid(faces, i, j) {
      var chain :| Chain(faces, chain) && chain[0] == i && chain[|chain| - 1] == j;
      ChainConnects(faces, chain);
    }
  }

  // ---- the algorithm --------------------------------------------------------

  /** Follows parents to the root, halving the path on the way. */
  method FindRoot(parent: array<nat>, start: nat, ghost rank: seq<nat>, ghost top: nat, ghost edges: seq<Edge>)
    returns (r: nat)
    requires Partition(parent[..], rank, top, edges) && start < parent.Length
    modifies parent
    ensures Partition(parent[..], rank, top, edges)
    ensures forall i :: 0 <= i < parent.Length ==> RootOf(parent[..], rank, top, i) == old(RootOf(parent[..], rank, top, i))
    ensures r == RootOf(parent[..], rank, top, start)
  {
    hide Connected;
    r := start;
    while parent[r] != r
      invariant r < parent.Length && Partition(parent[..], rank, top, edges)
      invariant forall i :: 0 <= i < parent.Length ==> RootOf(parent[..], rank, top, i) == old(RootOf(parent[..], rank, top, i))
      invariant RootOf(parent[..], rank, top, r) == RootOf(parent[..], rank, top, start)
      decreases top - rank[r]
    {
      ghost var p := parent[..];
      HalvingKeepsPartition(p, rank, top, edges, r);
      forall i | 0 <= i < |p| ensures RootOf(p[r := p[p[r]]], rank, top, i) == RootOf(p, rank, top, i) {
        HalvingKeepsRoot(p, rank, top, r, i);
      }
      parent[r] := parent[parent[r]];
      assert parent[..] == p[r := p[p[r]]];
      r := parent[r];
    }
  }

  /** One edge: joins the root `a` of x with the root of y. */
  method JoinEdge(parent: array<nat>, a: nat, x: nat, y: nat, ghost rank: seq<nat>, ghost top: nat, ghost edges: seq<Edge>)
    returns (ghost rank': seq<nat>, ghost top': nat)
    requires Partition(parent[..], rank, top, edges) && x < parent.Length && y < parent.Length
    requires a == RootOf(parent[..], rank, top, x)
    modifies parent
    ensures Partition(parent[..], rank', top', edges + [(x, y)])
    ensures a == RootOf(parent[..], rank', top', x)
  {
    hide Connected;
    var b := FindRoot(parent, y, rank, top, edges);
    ghost var p := parent[..];
    rank', top' := rank, top;
    if a != b {
      JoinKeepsPartition(p, rank, top, edges, x, y, a, b);
      JoinMovesRoot(p, rank, top, a, b, x);
      parent[b] := a;
      assert parent[..] == p[b := a];
      rank', top' := rank[a := top + 1], top + 1;
    } else {
      KnownEdgeKeepsPartition(p, rank, top, edges, x, y);
    }
  }

  predicate FacesInside(faces: seq<Face>, n: nat) {
    forall k :: 0 <= k < |faces| ==> faces[k].a < n && faces[k].b < n && faces[k].c < n
  }

  /** One more than the largest vertex number in use. */
  method VertexCount(faces: seq<Face>) returns (n: nat)
    ensures FacesInside(faces, n)
    ensures faces != [] ==> n > 0 && exists k :: 0 <= k < |faces| && Corner(faces[k], n - 1)
  {
    n := 0;
    ghost var largest := 0;
    for k := 0 to |faces|
      invariant FacesInside(faces[..k], n)
      invariant k == 0 ==> n == 0
      invariant k > 0 ==> n > 0 && 0 <= largest < k && Corner(faces[largest], n - 1)
    {
      var f := faces[k];
      var m := if f.a >= f.b && f.a >= f.c then f.a else if f.b >= f.c then f.b else f.c;
      assert faces[..k + 1] == faces[..k] + [f];
      if m + 1 > n {
        n, largest := m + 1, k;
      }
    }
    assert faces[..|faces|] == faces;
  }

  lemma SingletonsArePartition(p: seq<nat>)
    requires forall i :: 0 <= i < |p| ==> p[i] == i
    ensures Partition(p, seq(|p|, _ => 0), 0, [])
  {
    var zero := seq(|p|, _ => 0);
    forall i | 0 <= i < |p| ensures Anchored(p, zero, 0, [], i) {
      ConnectedToSelf([], i);
    }
  }

  /** Joins the corners of every triangle. */
  method JoinFaces(parent: array<nat>, faces: seq<Face>) returns (ghost rank: seq<nat>, ghost top: nat)
    requires FacesInside(faces, parent.Length) && forall i :: 0 <= i < parent.Length ==> parent[i] == i
    modifies parent
    ensures Partition(parent[..], rank, top, FaceEdges(faces))
  {
    hide Partition, Connected;
    rank, top := seq(parent.Length, _ => 0), 0;
    assert faces[..0] == [];
    SingletonsArePartition(parent[..]);
    for k := 0 to |faces|
      invariant Partition(parent[..], rank, top, FaceEdges(faces[..k]))
    {
      var f := faces[k];
      ghost var edges := FaceEdges(faces[..k]);
      var a := FindRoot(parent, f.a, rank, top, edges);
      rank, top := JoinEdge(parent, a, f.a, f.b, rank, top, edges);
      rank, top := JoinEdge(parent, a, f.a, f.c, rank, top, edges + [(f.a, f.b)]);
      assert faces[..k + 1][..k] == faces[..k];
      assert edges + [(f.a, f.b)] + [(f.a, f.c)] == FaceEdges(faces[..k + 1]);
    }
    assert faces[..|faces|] == faces;
  }

  /** The root of every triangle's first corner. */
  method FirstCornerRoots(parent: array<nat>, faces: seq<Face>, ghost rank: seq<nat>, ghost top: nat) returns (labels: seq<nat>)
    requires FacesInside(faces, parent.Length) && Partition(parent[..], rank, top, FaceEdges(faces))
    modifies parent
    ensures Partition(parent[..], rank, top, FaceEdges(faces))
    ensures |labels| == |faces|
    ensures forall k :: 0 <= k < |faces| ==> labels[k] == RootOf(parent[..], rank, top, faces[k].a)
  {
    hide Connected, FaceEdges;
    labels := [];
    for k := 0 to |faces|
      invariant Partition(parent[..], rank, top, FaceEdges(faces))
      invariant |labels| == k
      invariant forall j :: 0 <= j < k ==> labels[j] == RootOf(parent[..], rank, top, faces[j].a)
    {
      var r := FindRoot(parent, faces[k].a, rank, top, FaceEdges(faces));
      labels := labels + [r];
    }
  }

  /** Labels for all triangles, or none for an empty mesh, which the source cannot number.
      Two labels are equal exactly when a chain of triangles sharing vertices links them. */
  method ConnectedTriangleLabels(faces: seq<Face>) returns (labels: Option<seq<nat>>)
    ensures labels.None? <==> faces == []
    ensures labels.Some? ==> |labels.value| == |faces|
    ensures labels.Some? ==>
              forall i, j :: 0 <= i < |faces| && 0 <= j < |faces| ==>
                (labels.value[i] == labels.value[j] <==> OneSolid(faces, i, j))
  {
    hide Connected, FaceEdges, OneSolid;
    if faces == [] { return None; }
    var n := VertexCount(faces);
    var parent := new nat[n](i => i);
    ghost var rank, top := JoinFaces(parent, faces);
    var roots := FirstCornerRoots(parent, faces, rank, top);
    forall i, j | 0 <= i < |faces| && 0 <= j < |faces|
      ensures roots[i] == roots[j] <==> OneSolid(faces, i, j)
    {
      SameRootMeansConnected(parent[..], rank, top, FaceEdges(faces), faces[i].a, faces[j].a);
      ConnectedMeansOneSolid(faces, i, j);
    }
    labels := Some(roots);
  }
}
