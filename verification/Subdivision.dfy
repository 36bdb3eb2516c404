/**
  build_icosphere of scripts/generate_dome_glb.py as the program runs it: faces in a loop, midpoints
  through a cache that is emptied at every level, vertices appended as they are first needed.
*/
module Subdivision {
  import opened Icosphere

  lemma PlaceStays(order: seq<Edge>, longer: seq<Edge>, key: Edge)
    requires Distinct(longer) && order <= longer && key in order
    ensures Place(longer, key) == Place(order, key)
  {
    var p, q := Place(order, key), Place(longer, key);
    assert longer[p] == key == longer[q];
  }

  lemma CoreStays(n: nat, order: seq<Edge>, longer: seq<Edge>, f: Face)
    requires Distinct(longer) && order <= longer && Covers(order, f)
    ensures Covers(longer, f) && Core(n, longer, f) == Core(n, order, f)
  {
    hide Distinct, Place, Key;
    forall k | 0 <= k < 3
      ensures Key(Side(f, k)) in longer && Middle(n, longer, Side(f, k)) == Middle(n, order, Side(f, k))
    {
      assert Key(Side(f, k)) in order;
      PlaceStays(order, longer, Key(Side(f, k)));
    }
  }

  lemma VisitGrows(order: seq<Edge>, e: Edge)
    requires Distinct(order)
    ensures Distinct(Visit(order, e)) && order <= Visit(order, e) && Key(e) in Visit(order, e)
  {
  }

  /** Asking for the three midpoints one after the other gives the core of the face. */
  lemma VisitFaceCore(n: nat, order: seq<Edge>, f: Face)
    requires Distinct(order)
    ensures
      var first := Visit(order, (f.a, f.b));
      var second := Visit(first, (f.b, f.c));
      var last := Visit(second, (f.c, f.a));
      && last == VisitFace(order, f) && order <= last && Covers(last, f)
      && Key((f.a, f.b)) in first && Key((f.b, f.c)) in second && Key((f.c, f.a)) in last
      && Core(n, last, f) == Face(Middle(n, first, (f.a, f.b)), Middle(n, second, (f.b, f.c)),
           Middle(n, last, (f.c, f.a)))
  {
    hide Distinct, Visit, Key;
    VisitFaceAdds(order, f);
    var first := Visit(order, (f.a, f.b));
    var second := Visit(first, (f.b, f.c));
    var last := Visit(second, (f.c, f.a));
    VisitGrows(order, Side(f, 0));
    VisitGrows(first, Side(f, 1));
    VisitGrows(second, Side(f, 2));
    PlaceStays(first, last, Key(Side(f, 0)));
    PlaceStays(second, last, Key(Side(f, 1)));
  }

  ghost predicate IsMiddle<P>(middle: (P, P) -> P, points: seq<P>, e: Edge, point: P) {
    e.0 < |points| && e.1 < |points|
    && (point == middle(points[e.0], points[e.1]) || point == middle(points[e.1], points[e.0]))
  }

  /** The vertex list and the midpoint cache of one level. */
  class Midpoints<P> {
    const middle: (P, P) -> P
    var vertices: seq<P>
    var cache: map<Edge, nat>
    /** The vertices at the start of the level, and the edges met since. */
    ghost var original: seq<P>
    ghost var order: seq<Edge>

    constructor (middle: (P, P) -> P, corners: seq<P>)
      ensures Valid() && this.middle == middle
      ensures vertices == original == corners && order == []
    {
      this.middle := middle;
      vertices, cache := corners, map[];
      original, order := corners, [];
    }

    ghost predicate Valid()
      reads this
    {
      && Distinct(order)
      && |vertices| == |original| + |order|
      && vertices[..|original|] == original
      && (forall p :: 0 <= p < |order| ==> IsMiddle(middle, original, order[p], vertices[|original| + p]))
      && (forall key :: key in cache <==> key in order)
      && (forall key :: key in cache ==> cache[key] == |original| + Place(order, key))
    }

    method StartLevel()
      requires Valid()
      modifies this
      ensures Valid() && vertices == original == old(vertices) && order == []
    {
      cache := map[];
      original, order := vertices, [];
    }

    /** The middle vertex of an edge: the cached one, or a new one at the end of the list. */
    method Midpoint(left: nat, right: nat) returns (index: nat)
      requires Valid() && left < |original| && right < |original|
      modifies this`vertices, this`cache, this`order
      ensures Valid() && order == Visit(old(order), (left, right))
      ensures index == Middle(|original|, order, (left, right))
      ensures old(vertices) <= vertices
    {
      var key := Key((left, right));
      if key in cache {
        return cache[key];
      }
      var point := middle(vertices[left], vertices[right]);
      index := |vertices|;
      ghost var before := order;
      order := order + [key];
      assert order[|order| - 1] == key;
      forall k | k in before ensures Place(order, k) == Place(before, k) {
        PlaceStays(before, order, k);
      }
      vertices := vertices + [point];
      cache := cache[key := index];
      assert point == middle(original[left], original[right]);
    }

    /** The three midpoints of a face, in the order of its sides. */
    method CutFace(f: Face) returns (core: Face)
      requires Valid() && Proper(|original|, f)
      modifies this`vertices, this`cache, this`order
      ensures Valid() && order == VisitFace(old(order), f)
      ensures old(order) <= order && Covers(order, f) && core == Core(|original|, order, f)
      ensures old(vertices) <= vertices
    {
      hide Valid, Distinct, Visit, VisitFace, Key, Core, Covers, Middle;
      ghost var n, before := |original|, order;
      ValidOrder();
      VisitFaceCore(n, before, f);
      var ab := Midpoint(f.a, f.b);
      var bc := Midpoint(f.b, f.c);
      var ca := Midpoint(f.c, f.a);
      core := Face(ab, bc, ca);
    }

    lemma ValidOrder()
      requires Valid()
      ensures Distinct(order)
    {
    }

    /** The vertices of a level are built from middles when those before it were. */
    lemma LevelIsBuilt(corners: nat)
      requires Valid() && corners <= |original| && BuiltFromMiddles(middle, corners, original)
      ensures BuiltFromMiddles(middle, corners, vertices)
    {
      forall p | corners <= p < |vertices|
        ensures HasMiddle(middle, vertices, p)
      {
        if p < |original| {
          assert HasMiddle(middle, original, p);
          assert vertices[..p] == original[..p] && vertices[p] == original[p];
        } else {
          var e := order[p - |original|];
          assert IsMiddle(middle, original, e, vertices[|original| + (p - |original|)]);
          assert IsMiddle(middle, vertices[..p], e, vertices[p]);
        }
      }
    }

    /** One level: every face is replaced by its four children. */
    method CutAll(faces: seq<Face>) returns (next: seq<Face>)
      requires Valid() && order == [] && AllProper(|original|, faces)
      modifies this`vertices, this`cache, this`order
      ensures Valid() && order == EdgesOf(faces)
      ensures next == Cut(faces, Cores(|original|, faces))
    {
      hide Valid, VisitFace, Covers, Core, Child, Proper;
      ghost var n := |original|;
      next := [];
      assert EdgesOf(faces[..0]) == [];
      for i := 0 to |faces|
        invariant Valid() && order == EdgesOf(faces[..i])
        invariant |next| == 4 * i
        invariant forall t :: 0 <= t < i ==> Covers(order, faces[t])
        invariant forall j :: 0 <= j < 4 * i ==> next[j] == Child(faces[j / 4], Core(n, order, faces[j / 4]), j % 4)
      {
        var f := faces[i];
        ghost var before := order;
        assert Proper(n, faces[i]);
        var core := CutFace(f);
        ValidOrder();
        forall t | 0 <= t < i ensures Covers(order, faces[t]) && Core(n, order, faces[t]) == Core(n, before, faces[t]) {
          CoreStays(n, before, order, faces[t]);
        }
        next := next + Children(f, core);
        assert faces[..i + 1][..i] == faces[..i] && faces[..i + 1][i] == f;
      }
      assert faces[..|faces|] == faces;
      EdgesAreSides(faces);
    }
  }

  /** The four children written out, as the loop appends them. */
  function Children(f: Face, core: Face): (r: seq<Face>)
    ensures |r| == 4 && forall k :: 0 <= k < 4 ==> r[k] == Child(f, core, k)
  {
    var (a, b, c) := (f.a, f.b, f.c);
    var (ab, bc, ca) := (core.a, core.b, core.c);
    [Face(a, ab, ca), Face(b, bc, ab), Face(c, ca, bc), Face(ab, bc, ca)]
  }

  ghost predicate HasMiddle<P>(middle: (P, P) -> P, vertices: seq<P>, p: nat)
    requires p < |vertices|
  {
    exists e: Edge :: e.0 < p && e.1 < p && IsMiddle(middle, vertices[..p], e, vertices[p])
  }

  /** Every vertex after the corners is the middle of two vertices before it. */
  ghost predicate BuiltFromMiddles<P>(middle: (P, P) -> P, corners: nat, vertices: seq<P>) {
    forall p :: corners <= p < |vertices| ==> HasMiddle(middle, vertices, p)
  }

  /** The whole program: `level` times over, starting from the icosahedron. */
  method BuildIcosphere<P>(level: nat, middle: (P, P) -> P, corners: seq<P>)
      returns (vertices: seq<P>, faces: seq<Face>)
    requires |corners| == 12
    ensures faces == MeshAt(level).faces && |vertices| == MeshAt(level).vertices
    ensures corners <= vertices && BuiltFromMiddles(middle, 12, vertices)
  {
    hide Icosahedron, Cut, Cores, EdgesOf, IsMiddle;
    var midpoints := new Midpoints<P>(middle, corners);
    faces := Icosahedron();
    for k := 0 to level
      invariant fresh(midpoints) && midpoints.Valid() && midpoints.middle == middle
      invariant faces == MeshAt(k).faces && |midpoints.vertices| == MeshAt(k).vertices
      invariant corners <= midpoints.vertices && BuiltFromMiddles(middle, 12, midpoints.vertices)
    {
      EveryLevelIsClosed(k);
      midpoints.StartLevel();
      faces := midpoints.CutAll(faces);
      midpoints.LevelIsBuilt(12);
    }
    vertices := midpoints.vertices;
  }
}
