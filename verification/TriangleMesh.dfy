// A mesh given by coordinates: corners that round to the same millionths are one vertex,
// vertices are numbered in the order of their rounded coordinates, and the triangles are
// labelled by union-find over those numbers.
module TriangleMesh {
  import opened Optional
  import opened TriangleLabels

  datatype Point = Point(x: real, y: real, z: real)

  datatype Triangle = Triangle(p: Point, q: Point, r: Point)

  /** A point in whole millionths. */
  datatype Key = Key(x: int, y: int, z: int)

  /** Nearest whole number, halves to the even one. */
  function Rint(v: real): int {
    var d := v - v.Floor as real;
    if d < 0.5 || (d == 0.5 && v.Floor % 2 == 0) then v.Floor else v.Floor + 1
  }

  function Rounded(p: Point): Key {
    Key(Rint(p.x * 1000000.0), Rint(p.y * 1000000.0), Rint(p.z * 1000000.0))
  }

  predicate Close(a: real, b: real) {
    -0.000001 <= a - b <= 0.000001
  }

  /** Rounding joins only corners that lie within a millionth of each other along each axis. */
  lemma RoundingJoinsSeams(a: Point, b: Point)
    ensures a == b ==> Rounded(a) == Rounded(b)
    ensures Rounded(a) == Rounded(b) ==> Close(a.x, b.x) && Close(a.y, b.y) && Close(a.z, b.z)
  {
    RintIsNearest(a.x * 1000000.0);
    RintIsNearest(a.y * 1000000.0);
    RintIsNearest(a.z * 1000000.0);
    RintIsNearest(b.x * 1000000.0);
    RintIsNearest(b.y * 1000000.0);
    RintIsNearest(b.z * 1000000.0);
  }

  lemma RintIsNearest(v: real)
    ensures -0.5 <= v - Rint(v) as real <= 0.5
    ensures v - Rint(v) as real == 0.5 || v - Rint(v) as real == -0.5 ==> Rint(v) % 2 == 0
  {
  }

  // ---- numbering ------------------------------------------------------------

  predicate Before(a: Key, b: Key) {
    a.x < b.x || (a.x == b.x && (a.y < b.y || (a.y == b.y && a.z < b.z)))
  }

  predicate Sorted(keys: seq<Key>) {
    forall i, j :: 0 <= i < j < |keys| ==> Before(keys[i], keys[j])
  }

  /** The key put in its place, unless it is there already. */
  function Insert(keys: seq<Key>, k: Key): (r: seq<Key>)
    decreases |keys|
  {
    if keys == [] || Before(k, keys[0]) then [k] + keys
    else if k == keys[0] then keys
    else [keys[0]] + Insert(keys[1..], k)
  }

  lemma {:induction false} InsertKeepsSorted(keys: seq<Key>, k: Key)
    requires Sorted(keys)
    ensures Sorted(Insert(keys, k))
    ensures forall x :: x in Insert(keys, k) <==> x in keys || x == k
    decreases |keys|
  {
    if keys != [] && !Before(k, keys[0]) && k != keys[0] {
      var rest := keys[1..];
      forall i, j | 0 <= i < j < |rest| ensures Before(rest[i], rest[j]) {
        assert Before(keys[i + 1], keys[j + 1]);
      }
      InsertKeepsSorted(rest, k);
      assert keys == [keys[0]] + rest;
      forall x | x in Insert(rest, k) ensures Before(keys[0], x) {
        if x in rest {
          var i :| 0 <= i < |rest| && rest[i] == x;
          assert Before(keys[0], keys[i + 1]);
        }
      }
      var r := Insert(keys, k);
      forall i, j | 0 <= i < j < |r| ensures Before(r[i], r[j]) {
        assert r[j] == Insert(rest, k)[j - 1] && r[j] in Insert(rest, k);
        if i > 0 { assert r[i] == Insert(rest, k)[i - 1]; }
      }
    }
  }

  /** The different keys, in order. */
  function Unique(keys: seq<Key>): (r: seq<Key>)
    decreases |keys|
  {
    if keys == [] then [] else Insert(Unique(keys[..|keys| - 1]), keys[|keys| - 1])
  }

  lemma {:induction false} UniqueIsSorted(keys: seq<Key>)
    ensures Sorted(Unique(keys))
    ensures forall x :: x in Unique(keys) <==> x in keys
    decreases |keys|
  {
    if keys != [] {
      var init, last := keys[..|keys| - 1], keys[|keys| - 1];
      UniqueIsSorted(init);
      InsertKeepsSorted(Unique(init), last);
      assert keys == init + [last];
    }
  }

  /** Position of a key among others. */
  function NumberOf(keys: seq<Key>, k: Key): (i: nat)
    requires k in keys
    ensures i < |keys| && keys[i] == k
    decreases |keys|
  {
    if keys[0] == k then 0 else 1 + NumberOf(keys[1..], k)
  }

  // ---- triangles that meet --------------------------------------------------

  function Corners(t: Triangle): seq<Key> {
    [Rounded(t.p), Rounded(t.q), Rounded(t.r)]
  }

  ghost predicate Meeting(s: Triangle, t: Triangle) {
    exists k :: k in Corners(s) && k in Corners(t)
  }

  /** Triangles by number, each meeting the next in a rounded corner. */
  ghost predicate Linked(ts: seq<Triangle>, chain: seq<nat>) {
    && chain != [] && (forall i :: 0 <= i < |chain| ==> chain[i] < |ts|)
    && forall i :: 0 < i < |chain| ==> Meeting(ts[chain[i - 1]], ts[chain[i]])
  }

  ghost predicate SameSolid(ts: seq<Triangle>, i: nat, j: nat)
    requires i < |ts| && j < |ts|
  {
    exists chain :: Linked(ts, chain) && chain[0] == i && chain[|chain| - 1] == j
  }

  function AllCorners(ts: seq<Triangle>): (keys: seq<Key>)
    decreases |ts|
  {
    if ts == [] then [] else AllCorners(ts[..|ts| - 1]) + Corners(ts[|ts| - 1])
  }

  lemma {:induction false} CornersAreThere(ts: seq<Triangle>, i: nat)
    requires i < |ts|
    ensures forall k :: k in Corners(ts[i]) ==> k in AllCorners(ts)
    decreases |ts|
  {
    if i < |ts| - 1 { CornersAreThere(ts[..|ts| - 1], i); }
  }

  predicate Numbered(keys: seq<Key>, t: Triangle) {
    forall k :: k in Corners(t) ==> k in keys
  }

  function FaceOf(keys: seq<Key>, t: Triangle): Face
    requires Numbered(keys, t)
  {
    assert Rounded(t.p) in Corners(t) && Rounded(t.q) in Corners(t) && Rounded(t.r) in Corners(t);
    Face(NumberOf(keys, Rounded(t.p)), NumberOf(keys, Rounded(t.q)), NumberOf(keys, Rounded(t.r)))
  }

  lemma CornersAreNumbers(keys: seq<Key>, t: Triangle, v: nat)
    requires Numbered(keys, t)
    ensures Corner(FaceOf(keys, t), v) ==> v < |keys| && keys[v] in Corners(t)
    ensures forall k :: k in Corners(t) ==> Corner(FaceOf(keys, t), NumberOf(keys, k))
  {
  }

  /** Faces touch exactly where their triangles meet. */
  lemma TouchingMeansMeeting(keys: seq<Key>, s: Triangle, t: Triangle)
    requires Numbered(keys, s) && Numbered(keys, t)
    ensures Touching(FaceOf(keys, s), FaceOf(keys, t)) <==> Meeting(s, t)
  {
    hide FaceOf, Corners;
    var f, g := FaceOf(keys, s), FaceOf(keys, t);
    if Touching(f, g) {
      var v: nat :| Corner(f, v) && Corner(g, v);
      CornersAreNumbers(keys, s, v);
      CornersAreNumbers(keys, t, v);
      assert keys[v] in Corners(s) && keys[v] in Corners(t);
    }
    if Meeting(s, t) {
      var k :| k in Corners(s) && k in Corners(t);
      CornersAreNumbers(keys, s, 0);
      CornersAreNumbers(keys, t, 0);
      assert Corner(f, NumberOf(keys, k)) && Corner(g, NumberOf(keys, k));
    }
  }

  /** The faces stand for the triangles, so their solids are the same. */
  lemma SolidsAreSolids(keys: seq<Key>, ts: seq<Triangle>, faces: seq<Face>, i: nat, j: nat)
    requires |faces| == |ts| && i < |ts| && j < |ts|
    requires forall k :: 0 <= k < |ts| ==> Numbered(keys, ts[k]) && faces[k] == FaceOf(keys, ts[k])
    ensures OneSolid(faces, i, j) <==> SameSolid(ts, i, j)
  {
    hide Touching, Meeting, FaceOf;
    if OneSolid(faces, i, j) {
      var chain :| Chain(faces, chain) && chain[0] == i && chain[|chain| - 1] == j;
      forall m | 0 < m < |chain| ensures Meeting(ts[chain[m - 1]], ts[chain[m]]) {
        TouchingMeansMeeting(keys, ts[chain[m - 1]], ts[chain[m]]);
      }
      assert Linked(ts, chain);
    }
    if SameSolid(ts, i, j) {
      var chain :| Linked(ts, chain) && chain[0] == i && chain[|chain| - 1] == j;
      forall m | 0 < m < |chain| ensures Touching(faces[chain[m - 1]], faces[chain[m]]) {
        TouchingMeansMeeting(keys, ts[chain[m - 1]], ts[chain[m]]);
      }
      assert Chain(faces, chain);
    }
  }

  /** Labels of a mesh's triangles: equal exactly when a chain of triangles, each meeting
      the next in a rounded corner, links them. An empty mesh cannot be numbered. */
  method LabelTriangles(ts: seq<Triangle>) returns (labels: Option<seq<nat>>)
    ensures labels.None? <==> ts == []
    ensures labels.Some? ==> |labels.value| == |ts|
    ensures labels.Some? ==>
              forall i, j :: 0 <= i < |ts| && 0 <= j < |ts| ==> (labels.value[i] == labels.value[j] <==> SameSolid(ts, i, j))
  {
    hide Unique, AllCorners, FaceOf, SameSolid, OneSolid, Corners;
    var keys := Unique(AllCorners(ts));
    UniqueIsSorted(AllCorners(ts));
    forall k | 0 <= k < |ts| ensures Numbered(keys, ts[k]) {
      CornersAreThere(ts, k);
    }
    var faces := seq(|ts|, k requires 0 <= k < |ts| => FaceOf(keys, ts[k]));
    labels := ConnectedTriangleLabels(faces);
    forall i, j | 0 <= i < |ts| && 0 <= j < |ts| ensures OneSolid(faces, i, j) <==> SameSolid(ts, i, j) {
      SolidsAreSolids(keys, ts, faces, i, j);
    }
  }

  /** Vertices are numbered in the order of their rounded coordinates, without gaps. */
  lemma NumbersFollowOrder(ts: seq<Triangle>, k: Key, m: Key)
    requires k in AllCorners(ts) && m in AllCorners(ts)
    ensures var keys := Unique(AllCorners(ts));
            && k in keys && m in keys && (NumberOf(keys, k) < NumberOf(keys, m) <==> Before(k, m))
            && forall n :: 0 <= n < |keys| ==> keys[n] in AllCorners(ts)
  {
    hide Unique, AllCorners;
    UniqueIsSorted(AllCorners(ts));
  }
}
