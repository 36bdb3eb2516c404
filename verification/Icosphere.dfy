/**
  The icosphere of scripts/generate_dome_glb.py: an icosahedron whose triangles are cut into
  four, level after level, with one new vertex per undirected edge.
  Only the topology is kept: a vertex is an index, a face three indices.
*/
module Icosphere {

  datatype Face = Face(a: nat, b: nat, c: nat)

  type Edge = (nat, nat)

  function Corner(f: Face, k: nat): nat
    requires k < 3
  {
    if k == 0 then f.a else if k == 1 then f.b else f.c
  }

  function Next(k: nat): (r: nat)
    requires k < 3
    ensures r < 3 && r != k
  {
    if k == 2 then 0 else k + 1
  }

  function Prev(k: nat): (r: nat)
    requires k < 3
    ensures r < 3 && r != k && Next(r) == k
  {
    if k == 0 then 2 else k - 1
  }

  /** The directed edge that leaves corner `k`. */
  function Side(f: Face, k: nat): Edge
    requires k < 3
  {
    (Corner(f, k), Corner(f, Next(k)))
  }

  function Flip(e: Edge): Edge {
    (e.1, e.0)
  }

  /** The cache key of an edge: its two ends, smaller first. */
  function Key(e: Edge): Edge {
    if e.0 < e.1 then e else Flip(e)
  }

  // ---------- Closed, consistently oriented surfaces ----------

  ghost predicate Proper(n: nat, f: Face) {
    && f.a < n && f.b < n && f.c < n
    && f.a != f.b && f.b != f.c && f.c != f.a
  }

  predicate Has(f: Face, v: nat) {
    v == f.a || v == f.b || v == f.c
  }

  predicate SameCorners(f: Face, g: Face) {
    Has(g, f.a) && Has(g, f.b) && Has(g, f.c)
  }

  ghost predicate AllProper(n: nat, faces: seq<Face>) {
    forall i :: 0 <= i < |faces| ==> Proper(n, faces[i])
  }

  /** A directed edge belongs to one side of one face. */
  ghost predicate OneFace(faces: seq<Face>) {
    forall i, s, j, t ::
      0 <= i < |faces| && 0 <= s < 3 && 0 <= j < |faces| && 0 <= t < 3 && Side(faces[i], s) == Side(faces[j], t)
      ==> i == j && s == t
  }

  predicate IsSide(faces: seq<Face>, e: Edge) {
    exists j, t :: 0 <= j < |faces| && 0 <= t < 3 && Side(faces[j], t) == e
  }

  /** Across every side lies a face that runs it backwards. */
  ghost predicate Paired(faces: seq<Face>) {
    forall i, s :: 0 <= i < |faces| && 0 <= s < 3 ==> IsSide(faces, Flip(Side(faces[i], s)))
  }

  /** No two faces stand on the same three corners, so no two of them share two edges. */
  ghost predicate Apart(faces: seq<Face>) {
    forall i, j :: 0 <= i < |faces| && 0 <= j < |faces| && SameCorners(faces[i], faces[j]) ==> i == j
  }

  ghost predicate Closed(n: nat, faces: seq<Face>) {
    AllProper(n, faces) && OneFace(faces) && Paired(faces) && Apart(faces)
  }

  /** The face across a side is another face. */
  lemma AcrossIsAnother(n: nat, faces: seq<Face>, i: nat, s: nat, j: nat, t: nat)
    requires Closed(n, faces) && i < |faces| && j < |faces| && s < 3 && t < 3
    requires Side(faces[j], t) == Flip(Side(faces[i], s))
    ensures i != j
  {
    assert Proper(n, faces[i]);
  }

  predicate IsSideOfOther(faces: seq<Face>, e: Edge, i: nat) {
    exists j, t :: 0 <= j < |faces| && 0 <= t < 3 && j != i && Side(faces[j], t) == e
  }

  /** Across every side lies another face that runs it backwards. */
  ghost predicate PairedWithOthers(faces: seq<Face>) {
    forall i, s :: 0 <= i < |faces| && 0 <= s < 3 ==> IsSideOfOther(faces, Flip(Side(faces[i], s)), i)
  }

  lemma AcrossAreOthers(n: nat, faces: seq<Face>)
    requires Closed(n, faces)
    ensures PairedWithOthers(faces)
  {
    hide Side;
    forall i, s | 0 <= i < |faces| && 0 <= s < 3 ensures IsSideOfOther(faces, Flip(Side(faces[i], s)), i) {
      assert IsSide(faces, Flip(Side(faces[i], s)));
      var j, t :| 0 <= j < |faces| && 0 <= t < 3 && Side(faces[j], t) == Flip(Side(faces[i], s));
      AcrossIsAnother(n, faces, i, s, j, t);
    }
  }

  // ---------- Cutting every face into four ----------

  /** Child `k` of a face whose midpoints are the corners of `core`: three corner pieces, then the core. */
  function Child(f: Face, core: Face, k: nat): Face
    requires k < 4
  {
    if k == 3 then core else Face(Corner(f, k), Corner(core, k), Corner(core, Prev(k)))
  }

  /** Face `i` is replaced by its four children, at places 4i to 4i + 3. */
  function Cut(faces: seq<Face>, cores: seq<Face>): (r: seq<Face>)
    requires |cores| == |faces|
    ensures |r| == 4 * |faces|
  {
    seq(4 * |faces|, j requires 0 <= j < 4 * |faces| => Child(faces[j / 4], cores[j / 4], j % 4))
  }

  /** Two sides lie on the same undirected edge. */
  predicate SameEdge(e: Edge, f: Edge) {
    e == f || e == Flip(f)
  }

  /** The midpoints are new vertices, one for each undirected edge. */
  ghost predicate Midpoints(n: nat, m: nat, faces: seq<Face>, cores: seq<Face>) {
    && |cores| == |faces|
    && (forall i, s :: 0 <= i < |faces| && 0 <= s < 3 ==> n <= Corner(cores[i], s) < m)
    && (forall i, s, j, t :: 0 <= i < |faces| && 0 <= s < 3 && 0 <= j < |faces| && 0 <= t < 3 ==>
          (Corner(cores[i], s) == Corner(cores[j], t) <==> SameEdge(Side(faces[i], s), Side(faces[j], t))))
  }

  /** One face meets an undirected edge on one side only. */
  lemma OneSide(n: nat, f: Face, s: nat, t: nat)
    requires Proper(n, f) && s < 3 && t < 3 && SameEdge(Side(f, s), Side(f, t))
    ensures s == t
  {
  }

  /** Faces that share two undirected edges are one face. */
  lemma TwoSharedEdges(n: nat, faces: seq<Face>, i: nat, s: nat, s': nat, j: nat, t: nat, t': nat)
    requires Closed(n, faces) && i < |faces| && j < |faces|
    requires s < 3 && s' < 3 && t < 3 && t' < 3 && s != s'
    requires SameEdge(Side(faces[i], s), Side(faces[j], t)) && SameEdge(Side(faces[i], s'), Side(faces[j], t'))
    ensures i == j && s == t && s' == t'
  {
    hide OneFace, Paired;
    assert Proper(n, faces[i]) && Proper(n, faces[j]);
    assert SameCorners(faces[i], faces[j]) by {
      hide Apart, AllProper;
      assert forall k :: 0 <= k < 3 ==> Has(faces[j], Corner(faces[i], k));
    }
    OneSide(n, faces[i], s, t);
    OneSide(n, faces[i], s', t');
  }

  /** Equal midpoints from the same end come from one directed edge, hence one side of one face. */
  lemma SameHalf(n: nat, faces: seq<Face>, i: nat, s: nat, j: nat, t: nat)
    requires Closed(n, faces) && i < |faces| && j < |faces| && s < 3 && t < 3
    requires SameEdge(Side(faces[i], s), Side(faces[j], t))
    requires Side(faces[i], s).0 == Side(faces[j], t).0 || Side(faces[i], s).1 == Side(faces[j], t).1
    ensures i == j && s == t
  {
    hide Paired, Apart;
    assert Proper(n, faces[i]) && Proper(n, faces[j]);
    assert Side(faces[i], s) == Side(faces[j], t);
  }

  lemma CutOneFace(n: nat, m: nat, faces: seq<Face>, cores: seq<Face>, i: nat, k: nat, s: nat, j: nat, l: nat, t: nat)
    requires Closed(n, faces) && Midpoints(n, m, faces, cores)
    requires i < |faces| && j < |faces| && k < 4 && l < 4 && s < 3 && t < 3
    requires Side(Child(faces[i], cores[i], k), s) == Side(Child(faces[j], cores[j], l), t)
    ensures i == j && k == l && s == t
  {
    hide OneFace, Paired, Apart, SameEdge;
    assert Proper(n, faces[i]) && Proper(n, faces[j]);
    var e := Side(Child(faces[i], cores[i], k), s);
    if e.0 < n {
      assert s == 0 && k < 3 && t == 0 && l < 3;
      SameHalf(n, faces, i, k, j, l);
    } else if e.1 < n {
      assert s == 2 && k < 3 && t == 2 && l < 3;
      SameHalf(n, faces, i, Prev(k), j, Prev(l));
    } else {
      var p, q := if k == 3 then s else k, if k == 3 then Next(s) else Prev(k);
      var u, v := if l == 3 then t else l, if l == 3 then Next(t) else Prev(l);
      assert e == (Corner(cores[i], p), Corner(cores[i], q)) == (Corner(cores[j], u), Corner(cores[j], v));
      TwoSharedEdges(n, faces, i, p, q, j, u, v);
    }
  }

  lemma CutPaired(n: nat, m: nat, faces: seq<Face>, cores: seq<Face>, i: nat, k: nat, s: nat)
    requires Closed(n, faces) && Midpoints(n, m, faces, cores)
    requires i < |faces| && k < 4 && s < 3
    ensures IsSide(Cut(faces, cores), Flip(Side(Child(faces[i], cores[i], k), s)))
  {
    hide OneFace, Apart, Cut;
    var e := Side(Child(faces[i], cores[i], k), s);
    var across := if s == 0 then k else if k < 3 then Prev(k) else 0;
    if k == 3 {
      CutHas(faces, cores, i, Next(s), 1);
    } else if s == 1 {
      CutHas(faces, cores, i, 3, Prev(k));
    } else {
      assert IsSide(faces, Flip(Side(faces[i], across)));
      var j, t :| 0 <= j < |faces| && 0 <= t < 3 && Side(faces[j], t) == Flip(Side(faces[i], across));
      assert SameEdge(Side(faces[j], t), Side(faces[i], across));
      assert Corner(cores[j], t) == Corner(cores[i], across);
      CutHas(faces, cores, j, if s == 0 then Next(t) else t, if s == 0 then 2 else 0);
    }
  }

  lemma CutHas(faces: seq<Face>, cores: seq<Face>, i: nat, k: nat, s: nat)
    requires |cores| == |faces| && i < |faces| && k < 4 && s < 3
    ensures IsSide(Cut(faces, cores), Side(Child(faces[i], cores[i], k), s))
  {
    assert Cut(faces, cores)[4 * i + k] == Child(faces[i], cores[i], k);
  }

  lemma CutApart(n: nat, m: nat, faces: seq<Face>, cores: seq<Face>, i: nat, k: nat, j: nat, l: nat)
    requires Closed(n, faces) && Midpoints(n, m, faces, cores)
    requires i < |faces| && j < |faces| && k < 4 && l < 4
    requires SameCorners(Child(faces[i], cores[i], k), Child(faces[j], cores[j], l))
    ensures i == j && k == l
  {
    hide OneFace, Paired, Apart, SameEdge;
    assert Proper(n, faces[i]) && Proper(n, faces[j]);
    CoresDiffer(n, m, faces, cores, i);
    var f, g := Child(faces[i], cores[i], k), Child(faces[j], cores[j], l);
    // Two midpoints of the first child are midpoints of the second.
    var p, q := if k == 3 then 0 else k, if k == 3 then 1 else Prev(k);
    var x, y := Corner(cores[i], p), Corner(cores[i], q);
    assert Has(f, x) && Has(f, y) && Has(g, x) && Has(g, y) && x >= n && y >= n;
    assert exists u :: 0 <= u < 3 && Corner(cores[j], u) == x by { MidpointOf(n, faces[j], cores[j], l, x); }
    assert exists v :: 0 <= v < 3 && Corner(cores[j], v) == y by { MidpointOf(n, faces[j], cores[j], l, y); }
    var u :| 0 <= u < 3 && Corner(cores[j], u) == x;
    var v :| 0 <= v < 3 && Corner(cores[j], v) == y;
    TwoSharedEdges(n, faces, i, p, q, j, u, v);
    assert n <= Corner(cores[i], 0) && n <= Corner(cores[i], 1) && n <= Corner(cores[i], 2);
  }

  lemma MidpointOf(n: nat, f: Face, core: Face, l: nat, x: nat)
    requires l < 4 && Proper(n, f) && n <= x && Has(Child(f, core, l), x)
    ensures exists u :: 0 <= u < 3 && Corner(core, u) == x
  {
    assert x == Corner(core, 0) || x == Corner(core, 1) || x == Corner(core, 2);
  }

  lemma CoresDiffer(n: nat, m: nat, faces: seq<Face>, cores: seq<Face>, i: nat)
    requires AllProper(n, faces) && Midpoints(n, m, faces, cores) && i < |faces|
    ensures Proper(m, cores[i])
  {
    assert Proper(n, faces[i]);
    forall s, t | 0 <= s < t < 3
      ensures Corner(cores[i], s) != Corner(cores[i], t)
    {
      if Corner(cores[i], s) == Corner(cores[i], t) {
        OneSide(n, faces[i], s, t);
      }
    }
    assert Corner(cores[i], 0) != Corner(cores[i], 1) && Corner(cores[i], 1) != Corner(cores[i], 2);
    assert Corner(cores[i], 0) != Corner(cores[i], 2) && Corner(cores[i], 0) < m && Corner(cores[i], 1) < m;
    assert Corner(cores[i], 2) < m;
  }

  lemma CutProper(n: nat, m: nat, faces: seq<Face>, cores: seq<Face>, i: nat, k: nat)
    requires AllProper(n, faces) && Midpoints(n, m, faces, cores) && i < |faces| && k < 4
    ensures Proper(m, Child(faces[i], cores[i], k))
  {
    CoresDiffer(n, m, faces, cores, i);
    assert Proper(n, faces[i]);
    assert n <= Corner(cores[i], 0) && n <= Corner(cores[i], 1) && n <= Corner(cores[i], 2);
  }

  /** Cutting a closed surface gives a closed surface. */
  lemma CutKeepsClosed(n: nat, m: nat, faces: seq<Face>, cores: seq<Face>)
    requires Closed(n, faces) && Midpoints(n, m, faces, cores)
    ensures Closed(m, Cut(faces, cores))
  {
    var r := Cut(faces, cores);
    assert AllProper(m, r) by {
      forall j | 0 <= j < |r| ensures Proper(m, r[j]) {
        hide Closed, Midpoints, Proper;
        CutProper(n, m, faces, cores, j / 4, j % 4);
      }
    }
    assert OneFace(r) by { CutOneFaceAll(n, m, faces, cores); }
    assert Paired(r) by {
      forall j, s | 0 <= j < |r| && 0 <= s < 3 ensures IsSide(r, Flip(Side(r[j], s))) {
        hide Closed, Midpoints, IsSide;
        CutPaired(n, m, faces, cores, j / 4, j % 4, s);
      }
    }
    assert Apart(r) by { CutApartAll(n, m, faces, cores); }
  }

  lemma CutOneFaceAll(n: nat, m: nat, faces: seq<Face>, cores: seq<Face>)
    requires Closed(n, faces) && Midpoints(n, m, faces, cores)
    ensures OneFace(Cut(faces, cores))
  {
    var r := Cut(faces, cores);
    forall i, s, j, t | 0 <= i < |r| && 0 <= s < 3 && 0 <= j < |r| && 0 <= t < 3 && Side(r[i], s) == Side(r[j], t)
      ensures i == j && s == t
    {
      hide Closed, Midpoints, Child, Side;
      CutOneFace(n, m, faces, cores, i / 4, i % 4, s, j / 4, j % 4, t);
    }
  }

  lemma CutApartAll(n: nat, m: nat, faces: seq<Face>, cores: seq<Face>)
    requires Closed(n, faces) && Midpoints(n, m, faces, cores)
    ensures Apart(Cut(faces, cores))
  {
    var r := Cut(faces, cores);
    forall i, j | 0 <= i < |r| && 0 <= j < |r| && SameCorners(r[i], r[j])
      ensures i == j
    {
      hide Closed, Midpoints, Child, SameCorners;
      CutApart(n, m, faces, cores, i / 4, i % 4, j / 4, j % 4);
    }
  }

  // ---------- Numbering the new vertices ----------

  function Visit(order: seq<Edge>, e: Edge): seq<Edge> {
    if Key(e) in order then order else order + [Key(e)]
  }

  function VisitFace(order: seq<Edge>, f: Face): seq<Edge> {
    Visit(Visit(Visit(order, Side(f, 0)), Side(f, 1)), Side(f, 2))
  }

  /** The undirected edges in the order the loop first meets them. */
  function EdgesOf(faces: seq<Face>): seq<Edge> {
    if |faces| == 0 then [] else VisitFace(EdgesOf(faces[..|faces| - 1]), faces[|faces| - 1])
  }

  ghost predicate Distinct<T>(s: seq<T>) {
    forall i, j :: 0 <= i < j < |s| ==> s[i] != s[j]
  }

  function Place(order: seq<Edge>, key: Edge): (r: nat)
    requires key in order
    ensures r < |order| && order[r] == key
  {
    if order[|order| - 1] == key then |order| - 1 else Place(order[..|order| - 1], key)
  }

  /** The vertex in the middle of an edge, when `n` vertices existed before the level. */
  function Middle(n: nat, order: seq<Edge>, e: Edge): nat
    requires Key(e) in order
  {
    n + Place(order, Key(e))
  }

  predicate Covers(order: seq<Edge>, f: Face) {
    forall k :: 0 <= k < 3 ==> Key(Side(f, k)) in order
  }

  function Core(n: nat, order: seq<Edge>, f: Face): Face
    requires Covers(order, f)
  {
    Face(Middle(n, order, Side(f, 0)), Middle(n, order, Side(f, 1)), Middle(n, order, Side(f, 2)))
  }

  predicate OnFace(f: Face, key: Edge) {
    exists k :: 0 <= k < 3 && Key(Side(f, k)) == key
  }

  ghost predicate OnSome(faces: seq<Face>, key: Edge) {
    exists i :: 0 <= i < |faces| && OnFace(faces[i], key)
  }

  lemma VisitAdds(order: seq<Edge>, f: Face, k: nat)
    requires Distinct(order) && k < 3
    ensures var r := Visit(order, Side(f, k));
      && Distinct(r) && order <= r && Key(Side(f, k)) in r
      && (forall p :: |order| <= p < |r| ==> OnFace(f, r[p]))
  {
  }

  lemma VisitFaceAdds(order: seq<Edge>, f: Face)
    requires Distinct(order)
    ensures var r := VisitFace(order, f);
      && Distinct(r) && order <= r && Covers(r, f)
      && (forall p :: |order| <= p < |r| ==> OnFace(f, r[p]))
  {
    hide Visit, Distinct, OnFace, Side, Key;
    VisitAdds(order, f, 0);
    var first := Visit(order, Side(f, 0));
    VisitAdds(first, f, 1);
    var second := Visit(first, Side(f, 1));
    VisitAdds(second, f, 2);
  }

  lemma {:induction false} EdgesAreSides(faces: seq<Face>)
    ensures Distinct(EdgesOf(faces))
    ensures forall i :: 0 <= i < |faces| ==> Covers(EdgesOf(faces), faces[i])
    ensures forall p :: 0 <= p < |EdgesOf(faces)| ==> OnSome(faces, EdgesOf(faces)[p])
  {
    hide VisitFace, OnFace, Side, Key;
    if |faces| == 0 {
    } else {
      var rest, f := faces[..|faces| - 1], faces[|faces| - 1];
      EdgesAreSides(rest);
      VisitFaceAdds(EdgesOf(rest), f);
      var order := EdgesOf(faces);
      forall i | 0 <= i < |faces| ensures Covers(order, faces[i]) {
        if i < |rest| {
          assert Covers(EdgesOf(rest), rest[i]);
        }
      }
      forall p | 0 <= p < |order|
        ensures OnSome(faces, order[p])
      {
        if p < |EdgesOf(rest)| {
          assert order[p] == EdgesOf(rest)[p];
          var i :| 0 <= i < |rest| && OnFace(rest[i], order[p]);
          assert OnFace(faces[i], order[p]);
        } else {
          assert OnFace(faces[|rest|], order[p]);
        }
      }
    }
  }

  /** The core triangles of all faces, over the numbering of the level. */
  function Cores(n: nat, faces: seq<Face>): (r: seq<Face>)
    ensures |r| == |faces|
  {
    EdgesAreSides(faces);
    seq(|faces|, i requires 0 <= i < |faces| => Core(n, EdgesOf(faces), faces[i]))
  }

  lemma SameKey(e: Edge, f: Edge)
    ensures Key(e) == Key(f) <==> SameEdge(e, f)
  {
  }

  lemma CoreCorner(n: nat, order: seq<Edge>, f: Face, s: nat)
    requires Covers(order, f) && s < 3
    ensures Key(Side(f, s)) in order && Corner(Core(n, order, f), s) == Middle(n, order, Side(f, s))
  {
  }

  lemma CoreOf(n: nat, faces: seq<Face>, i: nat, s: nat)
    requires i < |faces| && s < 3
    ensures Key(Side(faces[i], s)) in EdgesOf(faces)
    ensures Corner(Cores(n, faces)[i], s) == Middle(n, EdgesOf(faces), Side(faces[i], s))
  {
    hide EdgesOf, Covers, Core, Corner;
    EdgesAreSides(faces);
    CoreCorner(n, EdgesOf(faces), faces[i], s);
  }

  /** The cores sit on fresh vertices, one per undirected edge. */
  lemma CoresAreMidpoints(n: nat, faces: seq<Face>)
    ensures Midpoints(n, n + |EdgesOf(faces)|, faces, Cores(n, faces))
  {
    hide EdgesOf, Key, SameEdge, Covers, Side, Core, Cores, Corner;
    var order, cores := EdgesOf(faces), Cores(n, faces);
    forall i, s | 0 <= i < |faces| && 0 <= s < 3
      ensures n <= Corner(cores[i], s) < n + |order|
    {
      CoreOf(n, faces, i, s);
    }
    forall i, s, j, t | 0 <= i < |faces| && 0 <= s < 3 && 0 <= j < |faces| && 0 <= t < 3
      ensures Corner(cores[i], s) == Corner(cores[j], t) <==> SameEdge(Side(faces[i], s), Side(faces[j], t))
    {
      CoreOf(n, faces, i, s);
      CoreOf(n, faces, j, t);
      SameKey(Side(faces[i], s), Side(faces[j], t));
    }
  }

  // ---------- Three undirected edges for every two faces ----------

  function DirectedEdges(faces: seq<Face>): set<Edge> {
    if |faces| == 0 then {}
    else var f := faces[|faces| - 1];
      DirectedEdges(faces[..|faces| - 1]) + {Side(f, 0), Side(f, 1), Side(f, 2)}
  }

  lemma {:induction false} DirectedEdgesAreSides(faces: seq<Face>, e: Edge)
    ensures e in DirectedEdges(faces) <==> IsSide(faces, e)
  {
    if |faces| == 0 {
    } else {
      var rest, f := faces[..|faces| - 1], faces[|faces| - 1];
      DirectedEdgesAreSides(rest, e);
      if IsSide(rest, e) {
        var j, t :| 0 <= j < |rest| && 0 <= t < 3 && Side(rest[j], t) == e;
        assert Side(faces[j], t) == e;
      }
      if IsSide(faces, e) {
        var j, t :| 0 <= j < |faces| && 0 <= t < 3 && Side(faces[j], t) == e;
        assert j < |rest| ==> Side(rest[j], t) == e;
      }
      if e in {Side(f, 0), Side(f, 1), Side(f, 2)} {
        assert Side(faces[|rest|], if e == Side(f, 0) then 0 else if e == Side(f, 1) then 1 else 2) == e;
      }
    }
  }

  lemma {:induction false} ThreeSidesEach(faces: seq<Face>)
    requires OneFace(faces)
    ensures |DirectedEdges(faces)| == 3 * |faces|
  {
    if |faces| == 0 {
    } else {
      var rest, f := faces[..|faces| - 1], faces[|faces| - 1];
      assert OneFace(rest) by {
        forall i, s, j, t | 0 <= i < |rest| && 0 <= s < 3 && 0 <= j < |rest| && 0 <= t < 3
          && Side(rest[i], s) == Side(rest[j], t)
          ensures i == j && s == t
        {
          assert Side(faces[i], s) == Side(faces[j], t);
        }
      }
      ThreeSidesEach(rest);
      var a, b, c := Side(faces[|rest|], 0), Side(faces[|rest|], 1), Side(faces[|rest|], 2);
      assert a != b && b != c && c != a;
      forall k | 0 <= k < 3 ensures Side(f, k) !in DirectedEdges(rest) {
        DirectedEdgesAreSides(rest, Side(f, k));
        forall j, t | 0 <= j < |rest| && 0 <= t < 3 ensures Side(rest[j], t) != Side(f, k) {
          assert Side(faces[j], t) == Side(rest[j], t) && Side(faces[|rest|], k) == Side(f, k);
        }
      }
      assert |{a, b, c}| == 3;
      assert Side(f, 0) == a && Side(f, 1) == b && Side(f, 2) == c;
      assert DirectedEdges(rest) !! {a, b, c};
    }
  }

  function Flips(s: set<Edge>): set<Edge> {
    set e <- s :: Flip(e)
  }

  lemma {:induction false} FlipsCount(s: set<Edge>)
    ensures |Flips(s)| == |s|
  {
    if s == {} {
    } else {
      var e :| e in s;
      FlipsCount(s - {e});
      assert Flip(e) !in Flips(s - {e});
      assert Flips(s) == Flips(s - {e}) + {Flip(e)};
    }
  }

  function Upward(s: set<Edge>): set<Edge> {
    set e <- s | e.0 < e.1
  }

  function Elements<T(==)>(s: seq<T>): set<T> {
    set x <- s
  }

  ghost predicate Symmetric(s: set<Edge>) {
    forall e :: e in s ==> Flip(e) in s && e.0 != e.1
  }

  lemma HalfPointUp(s: set<Edge>)
    requires Symmetric(s)
    ensures |s| == 2 * |Upward(s)|
  {
    var up := Upward(s);
    var down := set e <- s | e.1 < e.0;
    assert s == up + down;
    assert Flips(up) == down by {
      forall e | e in down ensures e in Flips(up) {
        assert Flip(e) in up && Flip(Flip(e)) == e;
      }
    }
    FlipsCount(up);
  }

  lemma {:induction false} DistinctCount<T>(s: seq<T>)
    requires Distinct(s)
    ensures |Elements(s)| == |s|
  {
    if |s| == 0 {
    } else {
      var rest := s[..|s| - 1];
      DistinctCount(rest);
      assert s[|s| - 1] !in Elements(rest);
      assert Elements(s) == Elements(rest) + {s[|s| - 1]};
    }
  }

  /** The undirected edges met are the directed ones that point up. */
  lemma UpwardEdges(faces: seq<Face>)
    requires Symmetric(DirectedEdges(faces))
    ensures Upward(DirectedEdges(faces)) == Elements(EdgesOf(faces))
  {
    hide EdgesOf, DirectedEdges, Covers;
    EdgesAreSides(faces);
    var order, directed := EdgesOf(faces), DirectedEdges(faces);
    forall e | e in directed && e.0 < e.1 ensures e in order {
      DirectedEdgesAreSides(faces, e);
      var j, t :| 0 <= j < |faces| && 0 <= t < 3 && Side(faces[j], t) == e;
      SideCovered(order, faces[j], t);
    }
    forall p | 0 <= p < |order| ensures order[p] in directed && order[p].0 < order[p].1 {
      assert OnSome(faces, order[p]);
      var i :| 0 <= i < |faces| && OnFace(faces[i], order[p]);
      var k :| 0 <= k < 3 && Key(Side(faces[i], k)) == order[p];
      assert IsSide(faces, Side(faces[i], k));
      DirectedEdgesAreSides(faces, Side(faces[i], k));
    }
  }

  lemma SideCovered(order: seq<Edge>, f: Face, k: nat)
    requires Covers(order, f) && k < 3
    ensures Key(Side(f, k)) in order
  {
  }

  lemma SidesAreSymmetric(n: nat, faces: seq<Face>)
    requires Closed(n, faces)
    ensures Symmetric(DirectedEdges(faces))
  {
    hide DirectedEdges, Apart, OneFace;
    forall e | e in DirectedEdges(faces) ensures Flip(e) in DirectedEdges(faces) && e.0 != e.1 {
      DirectedEdgesAreSides(faces, e);
      var j, t :| 0 <= j < |faces| && 0 <= t < 3 && Side(faces[j], t) == e;
      assert Proper(n, faces[j]);
      assert IsSide(faces, Flip(Side(faces[j], t)));
      DirectedEdgesAreSides(faces, Flip(e));
    }
  }

  /** Every undirected edge of a closed surface lies between two faces. */
  lemma EdgeCount(n: nat, faces: seq<Face>)
    requires Closed(n, faces)
    ensures 2 * |EdgesOf(faces)| == 3 * |faces|
  {
    hide EdgesOf, DirectedEdges, Upward, Elements, Covers, OnSome, Symmetric;
    SidesAreSymmetric(n, faces);
    ThreeSidesEach(faces);
    HalfPointUp(DirectedEdges(faces));
    UpwardEdges(faces);
    EdgesAreSides(faces);
    DistinctCount(EdgesOf(faces));
  }

  // ---------- The icosahedron ----------

  function Icosahedron(): (r: seq<Face>)
    ensures |r| == 20
  {
    [
      Face(0, 11, 5), Face(0, 5, 1), Face(0, 1, 7), Face(0, 7, 10), Face(0, 10, 11),
      Face(1, 5, 9), Face(5, 11, 4), Face(11, 10, 2), Face(10, 7, 6), Face(7, 1, 8),
      Face(3, 9, 4), Face(3, 4, 2), Face(3, 2, 6), Face(3, 6, 8), Face(3, 8, 9),
      Face(4, 9, 5), Face(2, 4, 11), Face(6, 2, 10), Face(8, 6, 7), Face(9, 8, 1)
    ]
  }

  /**
    Where the icosahedron keeps the edge from x to y: three times the face plus the side; 60 when it has no such edge.
  */
  function Slot(x: nat, y: nat): nat {
    if x == 0 then if y == 1 then 6 else if y == 5 then 3 else if y == 7 then 9 else if y == 10 then 12 else if y == 11
      then 0 else 60
    else if x == 1 then if y == 0 then 5 else if y == 5 then 15 else if y == 7 then 7 else if y == 8 then 28
      else if y == 9 then 59 else 60
    else if x == 2 then if y == 3 then 35 else if y == 4 then 48 else if y == 6 then 37 else if y == 10 then 52
      else if y == 11 then 23 else 60
    else if x == 3 then if y == 2 then 36 else if y == 4 then 33 else if y == 6 then 39 else if y == 8 then 42
      else if y == 9 then 30 else 60
    else if x == 4 then if y == 2 then 34 else if y == 3 then 32 else if y == 5 then 20 else if y == 9 then 45
      else if y == 11 then 49 else 60
    else if x == 5 then if y == 0 then 2 else if y == 1 then 4 else if y == 4 then 47 else if y == 9 then 16
      else if y == 11 then 18 else 60
    else if x == 6 then if y == 2 then 51 else if y == 3 then 38 else if y == 7 then 55 else if y == 8 then 40
      else if y == 10 then 26 else 60
    else if x == 7 then if y == 0 then 8 else if y == 1 then 27 else if y == 6 then 25 else if y == 8 then 56
      else if y == 10 then 10 else 60
    else if x == 8 then if y == 1 then 58 else if y == 3 then 41 else if y == 6 then 54 else if y == 7 then 29
      else if y == 9 then 43 else 60
    else if x == 9 then if y == 1 then 17 else if y == 3 then 44 else if y == 4 then 31 else if y == 5 then 46
      else if y == 8 then 57 else 60
    else if x == 10 then if y == 0 then 11 else if y == 2 then 22 else if y == 6 then 53 else if y == 7 then 24
      else if y == 11 then 13 else 60
    else if x == 11 then if y == 0 then 14 else if y == 2 then 50 else if y == 4 then 19 else if y == 5 then 1
      else if y == 10 then 21 else 60
    else 60
  }

  /** The three sides of face `i` are in their slots, and their reverses are in slots of different faces. */
  predicate Kept(i: nat, f: Face) {
    && f.a < 12 && f.b < 12 && f.c < 12 && f.a != f.b && f.b != f.c && f.c != f.a
    && Slot(f.a, f.b) == 3 * i && Slot(f.b, f.c) == 3 * i + 1 && Slot(f.c, f.a) == 3 * i + 2
    && Slot(f.b, f.a) < 60 && Slot(f.c, f.b) < 60 && Slot(f.a, f.c) < 60
    && Slot(f.b, f.a) / 3 != Slot(f.c, f.b) / 3
  }

  lemma FirstTenKept()
    ensures
      && Kept(0, Face(0, 11, 5)) && Kept(1, Face(0, 5, 1)) && Kept(2, Face(0, 1, 7)) && Kept(3, Face(0, 7, 10))
           && Kept(4, Face(0, 10, 11))
      && Kept(5, Face(1, 5, 9)) && Kept(6, Face(5, 11, 4)) && Kept(7, Face(11, 10, 2)) && Kept(8, Face(10, 7, 6))
           && Kept(9, Face(7, 1, 8))
  {
  }

  lemma LastTenKept()
    ensures
      && Kept(10, Face(3, 9, 4)) && Kept(11, Face(3, 4, 2)) && Kept(12, Face(3, 2, 6)) && Kept(13, Face(3, 6, 8))
           && Kept(14, Face(3, 8, 9))
      && Kept(15, Face(4, 9, 5)) && Kept(16, Face(2, 4, 11)) && Kept(17, Face(6, 2, 10)) && Kept(18, Face(8, 6, 7))
           && Kept(19, Face(9, 8, 1))
  {
  }

  lemma AllKept(i: nat)
    requires i < 20
    ensures Kept(i, Icosahedron()[i])
  {
    hide Slot, Kept;
    FirstTenKept();
    LastTenKept();
    var r := Icosahedron();
    assert r[0] == Face(0, 11, 5) && r[1] == Face(0, 5, 1) && r[2] == Face(0, 1, 7) && r[3] == Face(0, 7, 10)
      && r[4] == Face(0, 10, 11);
    assert r[5] == Face(1, 5, 9) && r[6] == Face(5, 11, 4) && r[7] == Face(11, 10, 2) && r[8] == Face(10, 7, 6)
      && r[9] == Face(7, 1, 8);
    assert r[10] == Face(3, 9, 4) && r[11] == Face(3, 4, 2) && r[12] == Face(3, 2, 6) && r[13] == Face(3, 6, 8)
      && r[14] == Face(3, 8, 9);
    assert r[15] == Face(4, 9, 5) && r[16] == Face(2, 4, 11) && r[17] == Face(6, 2, 10) && r[18] == Face(8, 6, 7)
      && r[19] == Face(9, 8, 1);
  }

  /** Side `s` of face `i` is kept in slot 3i + s, and its reverse has a slot too. */
  lemma SideKept(i: nat, s: nat)
    requires i < 20 && s < 3
    ensures var e := Side(Icosahedron()[i], s); Slot(e.0, e.1) == 3 * i + s && Slot(e.1, e.0) < 60
  {
    hide Slot, Icosahedron;
    AllKept(i);
  }

  /** What a slot stands for is there. */
  lemma SlotIsSide(x: nat, y: nat)
    requires Slot(x, y) < 60
    ensures var q := Slot(x, y); Side(Icosahedron()[q / 3], q % 3) == (x, y)
  {
    hide Slot, Icosahedron;
    if x < 6 {
      LowSlotIsSide(x, y);
    } else {
      HighSlotIsSide(x, y);
    }
  }

  lemma LowSlotIsSide(x: nat, y: nat)
    requires Slot(x, y) < 60 && x < 6
    ensures var q := Slot(x, y); Side(Icosahedron()[q / 3], q % 3) == (x, y)
  {
  }

  lemma HighSlotIsSide(x: nat, y: nat)
    requires Slot(x, y) < 60 && x >= 6
    ensures var q := Slot(x, y); Side(Icosahedron()[q / 3], q % 3) == (x, y)
  {
  }

  lemma SameCornersSameFace(i: nat, j: nat)
    requires i < 20 && j < 20 && SameCorners(Icosahedron()[i], Icosahedron()[j])
    ensures i == j
  {
    hide Slot, Icosahedron;
    AllKept(i);
    AllKept(j);
  }

  lemma IcosahedronIsClosed()
    ensures Closed(12, Icosahedron())
  {
    hide Slot, Icosahedron, SameCorners;
    var faces := Icosahedron();
    forall i | 0 <= i < 20 ensures Proper(12, faces[i]) {
      AllKept(i);
    }
    forall i, s, j, t | 0 <= i < 20 && 0 <= s < 3 && 0 <= j < 20 && 0 <= t < 3 && Side(faces[i], s) == Side(faces[j], t)
      ensures i == j && s == t
    {
      hide Side;
      SideKept(i, s);
      SideKept(j, t);
    }
    forall i, s | 0 <= i < 20 && 0 <= s < 3 ensures IsSide(faces, Flip(Side(faces[i], s))) {
      SideKept(i, s);
      var e := Side(faces[i], s);
      SlotIsSide(e.1, e.0);
    }
    forall i, j | 0 <= i < 20 && 0 <= j < 20 && SameCorners(faces[i], faces[j]) ensures i == j {
      SameCornersSameFace(i, j);
    }
  }

  // ---------- Level after level ----------

  datatype Mesh = Mesh(vertices: nat, faces: seq<Face>)

  function Refined(m: Mesh): Mesh {
    Mesh(m.vertices + |EdgesOf(m.faces)|, Cut(m.faces, Cores(m.vertices, m.faces)))
  }

  function MeshAt(level: nat): Mesh {
    if level == 0 then Mesh(12, Icosahedron()) else Refined(MeshAt(level - 1))
  }

  function Power4(n: nat): nat {
    if n == 0 then 1 else 4 * Power4(n - 1)
  }

  /** At every level: a closed, consistently oriented surface with 10 * 4^n + 2 vertices and 20 * 4^n faces. */
  lemma {:induction false} EveryLevelIsClosed(level: nat)
    ensures Closed(MeshAt(level).vertices, MeshAt(level).faces)
    ensures PairedWithOthers(MeshAt(level).faces)
    ensures MeshAt(level).vertices == 10 * Power4(level) + 2
    ensures |MeshAt(level).faces| == 20 * Power4(level)
  {
    hide Closed, Icosahedron, Cut, Cores, EdgesOf, Midpoints, PairedWithOthers;
    if level == 0 {
      IcosahedronIsClosed();
    } else {
      EveryLevelIsClosed(level - 1);
      var m := MeshAt(level - 1);
      EdgeCount(m.vertices, m.faces);
      CoresAreMidpoints(m.vertices, m.faces);
      CutKeepsClosed(m.vertices, Refined(m).vertices, m.faces, Cores(m.vertices, m.faces));
    }
    AcrossAreOthers(MeshAt(level).vertices, MeshAt(level).faces);
  }

  /** The surface is a sphere's: vertices minus edges plus faces is two. */
  lemma EulerCharacteristic(level: nat)
    ensures var m := MeshAt(level); m.vertices - |EdgesOf(m.faces)| + |m.faces| == 2
  {
    hide Closed, MeshAt, EdgesOf;
    EveryLevelIsClosed(level);
    EdgeCount(MeshAt(level).vertices, MeshAt(level).faces);
  }
}
