/**
  The binary container build_glb writes (scripts/generate_dome_glb.py), against a reader that
  follows section 4.4 of the glTF 2.0 specification (Binary glTF Layout).
*/
module Glb {
  import opened Icosphere
  import opened Market
  import Subdivision

  type byte = x: int | 0 <= x < 256

  /** A vertex: three floats, each already its four little-endian bytes. */
  type Position = s: seq<byte> | |s| == 12 witness [0, 0, 0, 0, 0, 0, 0, 0, 0, 0, 0, 0]

  const WORDS: nat := 0x1_0000_0000
  const HALVES: nat := 0x1_0000

  // ---------- Little-endian numbers ----------

  function Half(v: nat): (r: seq<byte>)
    requires v < HALVES
    ensures |r| == 2
  {
    [v % 256, v / 256]
  }

  function Word(v: nat): (r: seq<byte>)
    requires v < WORDS
    ensures |r| == 4
  {
    Half(v % HALVES) + Half(v / HALVES)
  }

  function ReadHalf(b: seq<byte>, at: nat): nat
    requires at + 2 <= |b|
  {
    b[at] as nat + 256 * (b[at + 1] as nat)
  }

  function ReadWord(b: seq<byte>, at: nat): nat
    requires at + 4 <= |b|
  {
    ReadHalf(b, at) + HALVES * ReadHalf(b, at + 2)
  }

  lemma HalfIsRead(v: nat, b: seq<byte>, at: nat)
    requires v < HALVES && at + 2 <= |b| && b[at..at + 2] == Half(v)
    ensures ReadHalf(b, at) == v
  {
    assert b[at] == b[at..at + 2][0] && b[at + 1] == b[at..at + 2][1];
  }

  lemma WordIsRead(v: nat, b: seq<byte>, at: nat)
    requires v < WORDS && at + 4 <= |b| && b[at..at + 4] == Word(v)
    ensures ReadWord(b, at) == v
  {
    hide Half, ReadHalf;
    assert b[at..at + 2] == b[at..at + 4][..2] == Half(v % HALVES);
    assert b[at + 2..at + 4] == b[at..at + 4][2..] == Half(v / HALVES);
    HalfIsRead(v % HALVES, b, at);
    HalfIsRead(v / HALVES, b, at + 2);
  }

  // ---------- What goes into the buffer ----------

  function Flat(faces: seq<Face>): (r: seq<nat>)
    ensures |r| == 3 * |faces|
  {
    if |faces| == 0 then []
    else var f := faces[|faces| - 1]; Flat(faces[..|faces| - 1]) + [f.a, f.b, f.c]
  }

  function PackHalves(s: seq<nat>): (r: seq<byte>)
    requires forall k :: 0 <= k < |s| ==> s[k] < HALVES
    ensures |r| == 2 * |s|
  {
    if |s| == 0 then [] else PackHalves(s[..|s| - 1]) + Half(s[|s| - 1])
  }

  function PackPositions(s: seq<Position>): (r: seq<byte>)
    ensures |r| == 12 * |s|
  {
    if |s| == 0 then [] else PackPositions(s[..|s| - 1]) + s[|s| - 1]
  }

  lemma {:induction false} FlatAt(faces: seq<Face>, i: nat)
    requires i < |faces|
    ensures Flat(faces)[3 * i..3 * i + 3] == [faces[i].a, faces[i].b, faces[i].c]
  {
    if i < |faces| - 1 {
      FlatAt(faces[..|faces| - 1], i);
    }
  }

  lemma SliceOfSlice<T>(s: seq<T>, at: nat, size: nat, p: nat, q: nat)
    requires p <= q <= size && at + size <= |s|
    ensures s[at..at + size][p..q] == s[at + p..at + q]
  {
    var whole := s[at..at + size];
    forall k | p <= k < q ensures whole[k] == s[at + k] {
    }
    assert whole[p..q] == s[at + p..at + q];
  }

  lemma FlatIndex(faces: seq<Face>, i: nat)
    requires i < |faces|
    ensures Flat(faces)[3 * i] == faces[i].a && Flat(faces)[3 * i + 1] == faces[i].b
      && Flat(faces)[3 * i + 2] == faces[i].c
  {
    hide Flat;
    FlatAt(faces, i);
    var at, flat := 3 * i, Flat(faces);
    var triple := flat[at..at + 3];
    assert triple[0] == flat[at] && triple[1] == flat[at + 1] && triple[2] == flat[at + 2];
  }

  lemma {:induction false} HalvesAt(s: seq<nat>, k: nat)
    requires (forall j :: 0 <= j < |s| ==> s[j] < HALVES) && k < |s|
    ensures PackHalves(s)[2 * k..2 * k + 2] == Half(s[k])
  {
    hide Half;
    if k < |s| - 1 {
      HalvesAt(s[..|s| - 1], k);
    }
  }

  lemma {:induction false} PositionsAt(s: seq<Position>, k: nat)
    requires k < |s|
    ensures PackPositions(s)[12 * k..12 * k + 12] == s[k]
  {
    if k < |s| - 1 {
      PositionsAt(s[..|s| - 1], k);
    }
  }

  function Fill(count: nat, fill: byte): (r: seq<byte>)
    ensures |r| == count && forall k :: 0 <= k < count ==> r[k] == fill
  {
    seq(count, _ => fill)
  }

  /** Bytes up to the next multiple of four. */
  function Missing(n: nat): (r: nat)
    ensures r < 4 && (n + r) % 4 == 0
  {
    (4 - n % 4) % 4
  }

  function Padded(b: seq<byte>, fill: byte): (r: seq<byte>)
    ensures |r| % 4 == 0 && b <= r && |r| < |b| + 4
    ensures forall k :: |b| <= k < |r| ==> r[k] == fill
  {
    b + Fill(Missing(|b|), fill)
  }

  function Binary(vertices: seq<Position>, indices: seq<nat>): seq<byte>
    requires forall k :: 0 <= k < |indices| ==> indices[k] < HALVES
  {
    Padded(PackPositions(vertices) + PackPositions(vertices) + PackHalves(indices), 0)
  }

  // ---------- The document ----------

  const FLOAT: nat := 5126
  const UNSIGNED_SHORT: nat := 5123
  const ARRAY_BUFFER: nat := 34962
  const ELEMENT_ARRAY_BUFFER: nat := 34963

  datatype Accessor = Accessor(view: nat, componentType: nat, count: nat, components: nat)

  datatype View = View(byteOffset: nat, byteLength: nat, target: nat)

  datatype Document = Document(accessors: seq<Accessor>, views: seq<View>, bufferLength: nat)

  function DocumentOf(vertices: nat, indices: nat, bufferLength: nat): Document {
    Document(
      [Accessor(0, FLOAT, vertices, 3), Accessor(1, FLOAT, vertices, 3), Accessor(2, UNSIGNED_SHORT, indices, 1)],
      [View(0, 12 * vertices, ARRAY_BUFFER),
       View(12 * vertices, 12 * vertices, ARRAY_BUFFER),
       View(24 * vertices, 2 * indices, ELEMENT_ARRAY_BUFFER)],
      bufferLength)
  }

  function ComponentSize(componentType: nat): nat {
    if componentType == FLOAT then 4 else 2
  }

  /** Each view starts where the one before it ends, and only padding follows the last. */
  ghost predicate Tiles(d: Document) {
    && |d.views| > 0 && d.views[0].byteOffset == 0
    && (forall i :: 0 < i < |d.views| ==>
         d.views[i].byteOffset == d.views[i - 1].byteOffset + d.views[i - 1].byteLength)
    && var last := d.views[|d.views| - 1];
       last.byteOffset + last.byteLength <= d.bufferLength < last.byteOffset + last.byteLength + 4
  }

  /** The accessor fills its view exactly and starts on a multiple of its component's size. */
  ghost predicate FillsView(d: Document, a: Accessor) {
    && a.view < |d.views|
    && a.count * (a.components * ComponentSize(a.componentType)) == d.views[a.view].byteLength
    && d.views[a.view].byteOffset % ComponentSize(a.componentType) == 0
  }

  ghost predicate Accessible(d: Document) {
    forall k :: 0 <= k < |d.accessors| ==> FillsView(d, d.accessors[k])
  }

  lemma DocumentTiles(vertices: nat, indices: nat, bufferLength: nat)
    requires 24 * vertices + 2 * indices <= bufferLength < 24 * vertices + 2 * indices + 4
    ensures Tiles(DocumentOf(vertices, indices, bufferLength))
  {
  }

  lemma ViewIsFilled(d: Document, a: Accessor, size: nat)
    requires a.view < |d.views| && size == a.components * ComponentSize(a.componentType)
    requires size * a.count == d.views[a.view].byteLength
    requires d.views[a.view].byteOffset % ComponentSize(a.componentType) == 0
    ensures FillsView(d, a)
  {
  }

  lemma DocumentAccessible(vertices: nat, indices: nat, bufferLength: nat)
    ensures Accessible(DocumentOf(vertices, indices, bufferLength))
  {
    hide FillsView;
    var d := DocumentOf(vertices, indices, bufferLength);
    ViewIsFilled(d, Accessor(0, FLOAT, vertices, 3), 12);
    ViewIsFilled(d, Accessor(1, FLOAT, vertices, 3), 12);
    ViewIsFilled(d, Accessor(2, UNSIGNED_SHORT, indices, 1), 2);
  }

  // ---------- Reading the container back ----------

  function Magic(): (r: seq<byte>)
    ensures |r| == 4
  {
    [0x67, 0x6C, 0x54, 0x46]
  }

  function JsonType(): (r: seq<byte>)
    ensures |r| == 4
  {
    [0x4A, 0x53, 0x4F, 0x4E]
  }

  function BinType(): (r: seq<byte>)
    ensures |r| == 4
  {
    [0x42, 0x49, 0x4E, 0x00]
  }

  datatype Chunk = Chunk(data: seq<byte>, next: nat)

  /** One chunk: length, type, data, all inside the container, the data a multiple of four bytes. */
  function ReadChunk(b: seq<byte>, at: nat, kind: seq<byte>): Option<Chunk>
    requires |kind| == 4
  {
    if |b| < at + 8 then None
    else var n := ReadWord(b, at);
      if n % 4 != 0 || |b| < at + 8 + n || b[at + 4..at + 8] != kind then None
      else Some(Chunk(b[at + 8..at + 8 + n], at + 8 + n))
  }

  datatype Container = Container(json: seq<byte>, binary: seq<byte>)

  /** A version 2 container of one JSON and one binary chunk, its stated length its real one. */
  function ReadGlb(b: seq<byte>): Option<Container> {
    if |b| < 12 || b[..4] != Magic() || ReadWord(b, 4) != 2 || ReadWord(b, 8) != |b| then None
    else
      var json := ReadChunk(b, 12, JsonType());
      if json.None? then None
      else
        var binary := ReadChunk(b, json.value.next, BinType());
        if binary.None? || binary.value.next != |b| then None
        else Some(Container(json.value.data, binary.value.data))
  }

  function WriteChunk(data: seq<byte>, kind: seq<byte>): (r: seq<byte>)
    requires |data| < WORDS && |kind| == 4
    ensures |r| == 8 + |data|
  {
    Word(|data|) + kind + data
  }

  function Header(total: nat): (r: seq<byte>)
    requires total < WORDS
    ensures |r| == 12
  {
    Magic() + Word(2) + Word(total)
  }

  lemma ChunkIsRead(before: seq<byte>, data: seq<byte>, kind: seq<byte>, after: seq<byte>)
    requires |data| < WORDS && |data| % 4 == 0 && |kind| == 4
    ensures ReadChunk(before + WriteChunk(data, kind) + after, |before|, kind)
      == Some(Chunk(data, |before| + 8 + |data|))
  {
    hide Word, ReadWord;
    var b, at := before + WriteChunk(data, kind) + after, |before|;
    assert b[at..at + 4] == Word(|data|);
    WordIsRead(|data|, b, at);
    assert b[at + 4..at + 8] == kind;
    assert b[at + 8..at + 8 + |data|] == data;
  }

  /** What is written is read back: both chunks, and a header that states the real length. */
  lemma GlbIsRead(json: seq<byte>, binary: seq<byte>)
    requires |json| % 4 == 0 && |binary| % 4 == 0 && 28 + |json| + |binary| < WORDS
    ensures ReadGlb(Header(28 + |json| + |binary|) + WriteChunk(json, JsonType()) + WriteChunk(binary, BinType()))
         == Some(Container(json, binary))
  {
    hide Word, ReadWord, ReadChunk, WriteChunk, Magic, JsonType, BinType;
    var total := 28 + |json| + |binary|;
    var first, second := WriteChunk(json, JsonType()), WriteChunk(binary, BinType());
    var b := Header(total) + first + second;
    assert b[..4] == Magic() && b[4..8] == Word(2) && b[8..12] == Word(total);
    WordIsRead(2, b, 4);
    WordIsRead(total, b, 8);
    ChunkIsRead(Header(total), json, JsonType(), second);
    ChunkIsRead(Header(total) + first, binary, BinType(), []);
    assert b == Header(total) + first + second + [];
  }

  // ---------- Reading the mesh back ----------

  datatype Model = Model(positions: seq<Position>, normals: seq<Position>, faces: seq<Face>)

  function ReadPositions(b: seq<byte>, at: nat, count: nat): seq<Position>
    requires at + 12 * count <= |b|
  {
    seq(count, i requires 0 <= i < count => b[at + 12 * i..at + 12 * i + 12])
  }

  function ReadFace(b: seq<byte>, at: nat): Face
    requires at + 6 <= |b|
  {
    Face(ReadHalf(b, at), ReadHalf(b, at + 2), ReadHalf(b, at + 4))
  }

  function ReadFaces(b: seq<byte>, at: nat, count: nat): seq<Face>
    requires at + 6 * count <= |b|
  {
    seq(count, i requires 0 <= i < count => ReadFace(b, at + 6 * i))
  }

  /** The mesh as a viewer finds it: through the views, the accessors' counts, the mode-4 triangles. */
  function ReadModel(d: Document, b: seq<byte>): Option<Model> {
    if |d.views| != 3 || |d.accessors| != 3 then None
    else
      var p, n, x := d.views[0].byteOffset, d.views[1].byteOffset, d.views[2].byteOffset;
      var count, indices := d.accessors[0].count, d.accessors[2].count;
      if |b| < p + 12 * count || |b| < n + 12 * count || |b| < x + 2 * indices || indices % 3 != 0 then None
      else Some(Model(ReadPositions(b, p, count), ReadPositions(b, n, count), ReadFaces(b, x, indices / 3)))
  }

  ghost predicate Addressable(faces: seq<Face>) {
    forall i :: 0 <= i < |faces| ==> faces[i].a < HALVES && faces[i].b < HALVES && faces[i].c < HALVES
  }

  lemma {:induction false} FlatFits(faces: seq<Face>)
    requires Addressable(faces)
    ensures forall k :: 0 <= k < |Flat(faces)| ==> Flat(faces)[k] < HALVES
  {
    if |faces| == 0 {
    } else {
      FlatFits(faces[..|faces| - 1]);
    }
  }

  lemma PositionIsRead(vertices: seq<Position>, b: seq<byte>, at: nat, i: nat)
    requires at + 12 * |vertices| <= |b| && b[at..at + 12 * |vertices|] == PackPositions(vertices) && i < |vertices|
    ensures b[at + 12 * i..at + 12 * i + 12] == vertices[i]
  {
    hide PackPositions;
    PositionsAt(vertices, i);
    SliceOfSlice(b, at, 12 * |vertices|, 12 * i, 12 * i + 12);
  }

  lemma PositionsAreRead(vertices: seq<Position>, b: seq<byte>, at: nat)
    requires at + 12 * |vertices| <= |b| && b[at..at + 12 * |vertices|] == PackPositions(vertices)
    ensures ReadPositions(b, at, |vertices|) == vertices
  {
    hide PackPositions;
    forall i | 0 <= i < |vertices| ensures b[at + 12 * i..at + 12 * i + 12] == vertices[i] {
      PositionIsRead(vertices, b, at, i);
    }
    assert |ReadPositions(b, at, |vertices|)| == |vertices|;
  }

  lemma IndexIsRead(indices: seq<nat>, b: seq<byte>, at: nat, k: nat)
    requires (forall j :: 0 <= j < |indices| ==> indices[j] < HALVES) && k < |indices|
    requires at + 2 * |indices| <= |b| && b[at..at + 2 * |indices|] == PackHalves(indices)
    ensures ReadHalf(b, at + 2 * k) == indices[k]
  {
    hide PackHalves, Half, ReadHalf;
    HalvesAt(indices, k);
    SliceOfSlice(b, at, 2 * |indices|, 2 * k, 2 * k + 2);
    HalfIsRead(indices[k], b, at + 2 * k);
  }

  lemma FacesAreRead(faces: seq<Face>, b: seq<byte>, at: nat)
    requires (forall j :: 0 <= j < |Flat(faces)| ==> Flat(faces)[j] < HALVES)
    requires at + 6 * |faces| <= |b| && b[at..at + 6 * |faces|] == PackHalves(Flat(faces))
    ensures ReadFaces(b, at, |faces|) == faces
  {
    hide PackHalves, Flat, ReadHalf;
    forall i | 0 <= i < |faces| ensures ReadFace(b, at + 6 * i) == faces[i] {
      FlatIndex(faces, i);
      IndexIsRead(Flat(faces), b, at, 3 * i);
      IndexIsRead(Flat(faces), b, at, 3 * i + 1);
      IndexIsRead(Flat(faces), b, at, 3 * i + 2);
    }
  }

  lemma ThreePieces(v: seq<byte>, x: seq<byte>, b: seq<byte>)
    requires v + v + x <= b
    ensures b[0..0 + |v|] == v && b[|v|..|v| + |v|] == v && b[2 * |v|..2 * |v| + |x|] == x
  {
    var whole := v + v + x;
    forall k | 0 <= k < |whole| ensures b[k] == whole[k] {
    }
  }

  /** The buffer and its document give back every vertex, the normals, and every face. */
  lemma ModelIsRead(vertices: seq<Position>, faces: seq<Face>)
    requires forall j :: 0 <= j < |Flat(faces)| ==> Flat(faces)[j] < HALVES
    ensures var b := Binary(vertices, Flat(faces));
      ReadModel(DocumentOf(|vertices|, 3 * |faces|, |b|), b) == Some(Model(vertices, vertices, faces))
  {
    hide PackPositions, PackHalves, Flat, ReadPositions, ReadFaces, Padded;
    var b := Binary(vertices, Flat(faces));
    var v, x := PackPositions(vertices), PackHalves(Flat(faces));
    assert v + v + x <= b;
    ThreePieces(v, x, b);
    PositionsAreRead(vertices, b, 0);
    PositionsAreRead(vertices, b, |v|);
    FacesAreRead(faces, b, 2 * |v|);
  }

  // ---------- Building ----------

  datatype Error = UnexpectedTopology | TooManyVertices | IndexOutOfRange | LengthOutOfRange

  datatype Result = Built(glb: seq<byte>, vertices: nat, faces: nat, binaryBytes: nat) | Failed(error: Error)

  const ZERO: byte := 0x00
  const SPACE: byte := 0x20

  method Pad(b: seq<byte>, fill: byte) returns (r: seq<byte>)
    ensures r == Padded(b, fill)
  {
    r := b;
    while |r| % 4 != 0
      invariant b <= r && |r| <= |b| + Missing(|b|)
      invariant forall k :: |b| <= k < |r| ==> r[k] == fill
      decreases |b| + Missing(|b|) - |r|
    {
      r := r + [fill];
    }
    assert |r| == |b| + Missing(|b|);
    assert r[|b|..] == Fill(Missing(|b|), fill);
  }

  /** What the container must give back: the document it was written with, and the whole mesh. */
  ghost predicate Faithful(glb: seq<byte>, vertices: seq<Position>, faces: seq<Face>, write: Document -> seq<byte>) {
    var c := ReadGlb(glb);
    && c.Some?
    && var d := DocumentOf(|vertices|, 3 * |faces|, |c.value.binary|);
       && Tiles(d) && Accessible(d)
       && c.value.json == Padded(write(d), SPACE)
       && ReadModel(d, c.value.binary) == Some(Model(vertices, vertices, faces))
  }

  predicate AllFit(indices: seq<nat>) {
    forall k :: 0 <= k < |indices| ==> indices[k] < HALVES
  }

  /** The length the header would state. */
  function TotalLength(vertices: nat, faces: nat, write: Document -> seq<byte>): nat {
    var buffer := 24 * vertices + 6 * faces;
    var binary := buffer + Missing(buffer);
    28 + |Padded(write(DocumentOf(vertices, 3 * faces, binary)), SPACE)| + binary
  }

  lemma BinaryLength(vertices: seq<Position>, faces: seq<Face>)
    requires AllFit(Flat(faces))
    ensures var buffer := 24 * |vertices| + 6 * |faces|;
      |Binary(vertices, Flat(faces))| == buffer + Missing(buffer)
  {
  }

  lemma BuiltIsFaithful(vertices: seq<Position>, faces: seq<Face>, write: Document -> seq<byte>)
    requires AllFit(Flat(faces)) && TotalLength(|vertices|, |faces|, write) < WORDS
    ensures
      var binary := Binary(vertices, Flat(faces));
      var json := Padded(write(DocumentOf(|vertices|, 3 * |faces|, |binary|)), SPACE);
      && 28 + |json| + |binary| == TotalLength(|vertices|, |faces|, write)
      && Faithful(Header(28 + |json| + |binary|) + WriteChunk(json, JsonType()) + WriteChunk(binary, BinType()),
           vertices, faces, write)
  {
    hide Flat, Header, WriteChunk, ReadGlb, ReadModel, DocumentOf, Tiles, Accessible, JsonType, BinType;
    hide PackPositions, PackHalves;
    BinaryLength(vertices, faces);
    var binary := Binary(vertices, Flat(faces));
    var json := Padded(write(DocumentOf(|vertices|, 3 * |faces|, |binary|)), SPACE);
    GlbIsRead(json, binary);
    ModelIsRead(vertices, faces);
    DocumentTiles(|vertices|, 3 * |faces|, |binary|);
    DocumentAccessible(|vertices|, 3 * |faces|, |binary|);
  }

  lemma {:induction false} FitsWhenAddressable(faces: seq<Face>)
    ensures Addressable(faces) <==> AllFit(Flat(faces))
  {
    hide Flat;
    if Addressable(faces) {
      FlatFits(faces);
    }
    if AllFit(Flat(faces)) {
      forall i | 0 <= i < |faces| ensures faces[i].a < HALVES && faces[i].b < HALVES && faces[i].c < HALVES {
        FlatIndex(faces, i);
      }
    }
  }

  /** Builds the container for a mesh of the given level, or says which of its checks or packings failed. */
  method BuildGlb(level: nat, vertices: seq<Position>, faces: seq<Face>, write: Document -> seq<byte>)
      returns (r: Result)
    ensures var expected := |vertices| == 10 * Power4(level) + 2 && |faces| == 20 * Power4(level);
      && (r == Failed(UnexpectedTopology) <==> !expected)
      && (r == Failed(TooManyVertices) <==> expected && |vertices| > HALVES)
      && (r == Failed(IndexOutOfRange) <==> expected && |vertices| <= HALVES && !Addressable(faces))
      && (r == Failed(LengthOutOfRange) <==>
            expected && |vertices| <= HALVES && Addressable(faces) && TotalLength(|vertices|, |faces|, write) >= WORDS)
    ensures r.Built? ==>
      && Faithful(r.glb, vertices, faces, write)
      && |r.glb| == TotalLength(|vertices|, |faces|, write)
      && r.vertices == |vertices| <= HALVES && r.faces == |faces| && Addressable(faces)
  {
    hide Flat, Header, WriteChunk, Faithful, DocumentOf, JsonType, BinType, Binary, Padded, Power4, Addressable;
    hide TotalLength;
    if |vertices| != 10 * Power4(level) + 2 || |faces| != 20 * Power4(level) {
      return Failed(UnexpectedTopology);
    }
    if |vertices| > HALVES {
      return Failed(TooManyVertices);
    }
    var positionBytes := PackPositions(vertices);
    var indices := Flat(faces);
    FitsWhenAddressable(faces);
    if !AllFit(indices) {
      return Failed(IndexOutOfRange);
    }
    var binary := Pad(positionBytes + positionBytes + PackHalves(indices), ZERO);
    assert binary == Binary(vertices, indices) by { BinaryIs(vertices, indices); }
    var json := Pad(write(DocumentOf(|vertices|, |indices|, |binary|)), SPACE);
    var total := 12 + 8 + |json| + 8 + |binary|;
    LengthIs(vertices, faces, write);
    if total >= WORDS {
      return Failed(LengthOutOfRange);
    }
    BuiltIsFaithful(vertices, faces, write);
    var glb := Header(total);
    glb := glb + WriteChunk(json, JsonType());
    glb := glb + WriteChunk(binary, BinType());
    return Built(glb, |vertices|, |faces|, |binary|);
  }

  lemma BinaryIs(vertices: seq<Position>, indices: seq<nat>)
    requires AllFit(indices)
    ensures Binary(vertices, indices)
      == Padded(PackPositions(vertices) + PackPositions(vertices) + PackHalves(indices), ZERO)
  {
  }

  lemma LengthIs(vertices: seq<Position>, faces: seq<Face>, write: Document -> seq<byte>)
    requires AllFit(Flat(faces))
    ensures var binary := Binary(vertices, Flat(faces));
      28 + |Padded(write(DocumentOf(|vertices|, 3 * |faces|, |binary|)), SPACE)| + |binary|
        == TotalLength(|vertices|, |faces|, write)
  {
    hide Flat, Binary, Padded, DocumentOf;
    BinaryLength(vertices, faces);
  }

  /** Sixteen bits number the vertices up to level 6. */
  lemma {:induction false} LastLevel(level: nat)
    ensures 10 * Power4(level) + 2 <= HALVES <==> level <= 6
    decreases if level < 7 then 6 - level else level
  {
    if level > 7 {
      LastLevel(level - 1);
    } else if level < 6 {
      LastLevel(level + 1);
    } else {
      assert Power4(1) == 4 && Power4(2) == 16 && Power4(3) == 64 && Power4(4) == 256 && Power4(5) == 1024;
      assert Power4(6) == 4096 && Power4(7) == 16384;
    }
  }

  /**
    The whole generator. With 16-bit indices it works up to level 6, and only there; the topology check never fails.
  */
  method GenerateDome<P>(level: nat, middle: (P, P) -> P, corners: seq<P>, round: P -> Position,
      write: Document -> seq<byte>)
    returns (r: Result)
    requires |corners| == 12
    ensures level > 6 ==> r == Failed(TooManyVertices)
    ensures level <= 6 ==>
      var m := MeshAt(level);
      && (r == Failed(LengthOutOfRange) <==> TotalLength(m.vertices, |m.faces|, write) >= WORDS)
      && (r != Failed(LengthOutOfRange) ==>
           r.Built? && exists vertices :: |vertices| == m.vertices && Faithful(r.glb, vertices, m.faces, write))
  {
    hide Faithful, MeshAt, TotalLength, Closed;
    EveryLevelIsClosed(level);
    LastLevel(level);
    var vertices, faces := Subdivision.BuildIcosphere(level, middle, corners);
    var positions := seq(|vertices|, i requires 0 <= i < |vertices| => round(vertices[i]));
    r := BuildGlb(level, positions, faces, write);
    ClosedIsAddressable(|positions|, faces);
    assert r.Failed? ==>
        r.error == UnexpectedTopology || r.error == TooManyVertices || r.error == IndexOutOfRange
          || r.error == LengthOutOfRange;
  }

  lemma ClosedIsAddressable(n: nat, faces: seq<Face>)
    requires Closed(n, faces)
    ensures n <= HALVES ==> Addressable(faces)
  {
    forall i | 0 <= i < |faces| ensures Proper(n, faces[i]) {
    }
  }
}
