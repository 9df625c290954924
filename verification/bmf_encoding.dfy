/** A BMF writer: the inverse the decoder is checked against.

    The writer is not part of the viewer (meshes are produced elsewhere); it
    lays out an indexed mesh exactly as the decoder reads it, and defines
    what decoding that layout should give. */
module BmfEncoding {
  import opened Wrappers
  import opened Bytes
  import opened BmfLoader

  // ---------------------------------------------------------------------
  // Words

  /** The little-endian bytes of one word, least significant first. */
  function U32Bytes(w: u32): (r: seq<byte>)
    ensures |r| == 4
  {
    [w % 256, w / 256 % 256, w / 256 / 256 % 256, w / 256 / 256 / 256]
  }

  /** Reading back the four bytes of a word gives the word. */
  lemma WordOfU32Bytes(w: u32)
    ensures WordAt(U32Bytes(w), 0) == w
  {
    var w1 := w / 256;
    var w2 := w1 / 256;
    assert w == w % 256 + 256 * w1;
    assert w1 == w1 % 256 + 256 * w2;
    assert w2 == w2 % 256 + 256 * (w2 / 256);
  }

  /** Consecutive little-endian words. */
  function Words(ws: seq<u32>): (r: seq<byte>)
    ensures |r| == 4 * |ws|
  {
    if |ws| == 0 then [] else U32Bytes(ws[0]) + Words(ws[1..])
  }

  // ---------------------------------------------------------------------
  // The writer

  /** An indexed group as a mesh tool would hold it. */
  datatype RawGroup = RawGroup(
    name: Option<seq<byte>>,
    indices: seq<u32>,
    uvs: Option<seq<u32>>,
    normals: Option<seq<u32>>)

  /** An indexed mesh: shared vertices (and colours), then groups. */
  datatype RawMesh = RawMesh(positions: seq<u32>, colors: Option<seq<u32>>, groups: seq<RawGroup>)

  /** The triangle count fits the faces block's count word. */
  predicate FacesFit(g: RawGroup) {
    |g.indices| / 3 < 0x1_0000_0000
  }

  /** When the group has UVs or normals, their count word (one item per
      triangle vertex) fits a word as well. */
  predicate AttributesFit(g: RawGroup) {
    g.uvs.Some? || g.normals.Some? ==> |g.indices| < 0x1_0000_0000
  }

  predicate GroupWellFormed(g: RawGroup, numVerts: nat) {
    && |g.indices| % 3 == 0
    && FacesFit(g) && AttributesFit(g)
    && (g.name.Some? ==> |g.name.value| < 0x1_0000_0000)
    && (g.uvs.Some? ==> |g.uvs.value| == UVs.Words(|g.indices|))
    && (g.normals.Some? ==> |g.normals.value| == Normals.Words(|g.indices|))
    && AllIndicesInRange(g.indices, numVerts)
  }

  predicate WellFormed(m: RawMesh) {
    && |m.positions| % 3 == 0
    && |m.positions| / 3 < 0x1_0000_0000
    && (m.colors.Some? ==> |m.colors.value| == |m.positions|)
    && GroupsWellFormed(m.groups, |m.positions| / 3)
  }

  /** Every group is well formed against `numVerts` vertices. */
  predicate GroupsWellFormed(gs: seq<RawGroup>, numVerts: nat) {
    |gs| == 0 || (GroupWellFormed(gs[0], numVerts) && GroupsWellFormed(gs[1..], numVerts))
  }

  function BlockSize(payload: seq<u32>): nat {
    12 + 4 * |payload|
  }

  function OptionalSize(payload: Option<seq<u32>>): nat {
    match payload
    case None => 0
    case Some(p) => BlockSize(p)
  }

  function NameSize(name: Option<seq<byte>>): nat {
    match name
    case None => 0
    case Some(b) => 8 + |b|
  }

  /** start token, count, payload words, end token. */
  function EncodeBlock(start: u32, count: u32, payload: seq<u32>, end: u32): (r: seq<byte>)
    ensures |r| == BlockSize(payload)
  {
    U32Bytes(start) + U32Bytes(count) + Words(payload) + U32Bytes(end)
  }

  /** A block that is written only when present. */
  function EncodeOptional(start: u32, count: nat, payload: Option<seq<u32>>, end: u32): (r: seq<byte>)
    requires payload.Some? ==> count < 0x1_0000_0000
    ensures |r| == OptionalSize(payload)
  {
    match payload
    case None => []
    case Some(p) => EncodeBlock(start, count, p, end)
  }

  function EncodeAttribute(kind: Attribute, count: nat, items: Option<seq<u32>>): (r: seq<byte>)
    requires items.Some? ==> count < 0x1_0000_0000
    ensures |r| == OptionalSize(items)
  {
    EncodeOptional(kind.StartToken(), count, items, kind.EndToken())
  }

  function EncodeName(name: Option<seq<byte>>): (r: seq<byte>)
    requires name.Some? ==> |name.value| < 0x1_0000_0000
    ensures |r| == NameSize(name)
  {
    match name
    case None => []
    case Some(b) => U32Bytes(kMaterialName) + U32Bytes(|b|) + b
  }

  // Offsets of the parts of a group body, from the word after kStartGroup.

  function FacesOffset(g: RawGroup): nat {
    NameSize(g.name)
  }

  function UVsOffset(g: RawGroup): nat {
    FacesOffset(g) + BlockSize(g.indices)
  }

  function NormalsOffset(g: RawGroup): nat {
    UVsOffset(g) + OptionalSize(g.uvs)
  }

  function EndGroupOffset(g: RawGroup): nat {
    NormalsOffset(g) + OptionalSize(g.normals)
  }

  /** The optional material name and the faces block. */
  function GroupHead(g: RawGroup): (r: seq<byte>)
    requires g.name.Some? ==> |g.name.value| < 0x1_0000_0000
    requires FacesFit(g)
    ensures |r| == UVsOffset(g)
  {
    EncodeName(g.name) + EncodeBlock(kStartFaces, |g.indices| / 3, g.indices, kEndFaces)
  }

  /** The optional UVs and normals, then kEndGroup. */
  function GroupTail(g: RawGroup): (r: seq<byte>)
    requires AttributesFit(g)
    ensures |r| == EndGroupOffset(g) + 4 - UVsOffset(g)
  {
    EncodeAttribute(UVs, |g.indices|, g.uvs)
    + EncodeAttribute(Normals, |g.indices|, g.normals)
    + U32Bytes(kEndGroup)
  }

  /** Everything between a group's kStartGroup and the token after it. */
  function GroupBody(g: RawGroup): (r: seq<byte>)
    requires g.name.Some? ==> |g.name.value| < 0x1_0000_0000
    requires FacesFit(g) && AttributesFit(g)
    ensures |r| == EndGroupOffset(g) + 4
  {
    GroupHead(g) + GroupTail(g)
  }

  function EncodeGroups(gs: seq<RawGroup>, numVerts: nat): (r: seq<byte>)
    requires GroupsWellFormed(gs, numVerts)
    ensures 4 <= |r|
  {
    if |gs| == 0 then U32Bytes(kEndBmf)
    else
      U32Bytes(kStartGroup) + GroupBody(gs[0]) + EncodeGroups(gs[1..], numVerts)
  }

  function Encode(m: RawMesh): seq<byte>
    requires WellFormed(m)
  {
    var n: u32 := |m.positions| / 3;
    U32Bytes(kStartBmf)
    + EncodeBlock(kStartVertices, n, m.positions, kEndVertices)
    + EncodeOptional(kStartRGBs, n, m.colors, kEndRGBs)
    + EncodeGroups(m.groups, n)
  }

  function ColorsOffset(m: RawMesh): nat {
    4 + BlockSize(m.positions)
  }

  /** Offset of the first group (or of kEndBmf) in an encoding. */
  function GroupsOffset(m: RawMesh): nat {
    ColorsOffset(m) + OptionalSize(m.colors)
  }

  // ---------------------------------------------------------------------
  // What decoding should give

  function NameString(name: Option<seq<byte>>): string {
    match name
    case None => ""
    case Some(b) => seq(|b|, j requires 0 <= j < |b| => b[j] as char)
  }

  function Vertices(m: RawMesh): (v: VertexBlock)
    requires WellFormed(m)
    ensures |v.positions| == 3 * v.count
    ensures v.colors.Some? ==> |v.colors.value| == 3 * v.count
  {
    VertexBlock(|m.positions| / 3, m.positions, m.colors)
  }

  /** A group expanded against the mesh's vertices. */
  function Expanded(g: RawGroup, verts: VertexBlock): MeshGroup
    requires |verts.positions| == 3 * verts.count
    requires verts.colors.Some? ==> |verts.colors.value| == 3 * verts.count
    requires AllIndicesInRange(g.indices, verts.count)
  {
    var colors := match verts.colors
      case None => None
      case Some(c) => Some(Expand(g.indices, c));
    MeshGroup(NameString(g.name), Expand(g.indices, verts.positions), g.normals, g.uvs, colors)
  }

  function ExpandedAll(gs: seq<RawGroup>, verts: VertexBlock): (r: seq<MeshGroup>)
    requires |verts.positions| == 3 * verts.count
    requires verts.colors.Some? ==> |verts.colors.value| == 3 * verts.count
    requires GroupsWellFormed(gs, verts.count)
    ensures |r| == |gs|
  {
    if |gs| == 0 then []
    else
      [Expanded(gs[0], verts)] + ExpandedAll(gs[1..], verts)
  }
}
