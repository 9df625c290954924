/** The decoder inverts the writer, block by block and then group by group.

    Each lemma starts at the offset `p` of a block's first word, which the
    decoder has already consumed as its current token, and ends at the token
    `t` found at `pN`, just after the block. */
module BmfRoundTrip {
  import opened Wrappers
  import opened Bytes
  import opened BmfLoader
  import opened BmfEncoding
  import opened BmfLayout

  // ---------------------------------------------------------------------
  // Blocks

  lemma ParseColorsAt(buf: seq<byte>, p: nat, colors: Option<seq<u32>>, numVerts: u32, t: u32, pN: nat)
    requires colors.Some? ==> |colors.value| == 3 * numVerts
    requires pN == p + OptionalSize(colors)
    requires OptionalAt(buf, p, kStartRGBs, numVerts, colors, kEndRGBs)
    requires TokenAt(buf, pN, t) && t != kStartRGBs
    ensures p + 4 <= |buf|
    ensures ParseColors(buf, p + 4, WordAt(buf, p), numVerts) == Success(At((colors, t), pN + 4))
  {
  }

  lemma ParseAttributeAt(buf: seq<byte>, p: nat, kind: Attribute, numTriangles: u32, items: Option<seq<u32>>,
                         t: u32, pN: nat)
    requires items.Some? ==> 3 * numTriangles < 0x1_0000_0000
    requires items.Some? ==> |items.value| == kind.Words(3 * numTriangles)
    requires pN == p + OptionalSize(items)
    requires AttributeAt(buf, p, kind, 3 * numTriangles, items)
    requires TokenAt(buf, pN, t) && t != kind.StartToken()
    ensures p + 4 <= |buf|
    ensures ParseAttribute(buf, p + 4, WordAt(buf, p), kind, numTriangles) == Success(At((items, t), pN + 4))
  {
  }

  lemma ParseMaterialNameAt(buf: seq<byte>, p: nat, name: Option<seq<byte>>, t: u32, pN: nat)
    requires pN == p + NameSize(name)
    requires NameAt(buf, p, name)
    requires TokenAt(buf, pN, t) && t != kMaterialName
    ensures p + 4 <= |buf|
    ensures ParseMaterialName(buf, p + 4, WordAt(buf, p)) == Success(At((NameString(name), t), pN + 4))
  {
  }

  lemma ParseFacesAt(buf: seq<byte>, p: nat, indices: seq<u32>, t: u32, pN: nat)
    requires |indices| % 3 == 0 && |indices| / 3 < 0x1_0000_0000
    requires pN == p + BlockSize(indices)
    requires BlockAt(buf, p, kStartFaces, |indices| / 3, indices, kEndFaces)
    requires TokenAt(buf, pN, t)
    ensures ParseFaces(buf, p + 4, kStartFaces) == Success(At((indices, t), pN + 4))
  {
  }

  // ---------------------------------------------------------------------
  // One group.  Offsets inside a group body starting at `p`: the faces at
  // `pF`, the UVs at `pU`, the normals at `pV`, kEndGroup at `pE`.

  lemma ParseGroupHeadAt(buf: seq<byte>, p: nat, g: RawGroup, t: u32, pF: nat, pU: nat)
    requires |g.indices| % 3 == 0 && FacesFit(g) && AttributesFit(g)
    requires pF == p + FacesOffset(g) && pU == p + UVsOffset(g)
    requires NameAt(buf, p, g.name)
    requires BlockAt(buf, pF, kStartFaces, |g.indices| / 3, g.indices, kEndFaces)
    requires TokenAt(buf, pU, t)
    ensures ParseGroupHead(buf, p) == Success(At((NameString(g.name), g.indices, t), pU + 4))
  {
    ParseMaterialNameAt(buf, p, g.name, kStartFaces, pF);
    ParseFacesAt(buf, pF, g.indices, t, pU);
    ParseGroupHeadOfParts(buf, p, pF, pU, NameString(g.name), g.indices, t);
  }

  lemma ParseGroupHeadOfParts(buf: seq<byte>, p: nat, pF: nat, pU: nat, name: string, indices: seq<u32>, t: u32)
    requires p + 4 <= |buf|
    requires ParseMaterialName(buf, p + 4, WordAt(buf, p)) == Success(At((name, kStartFaces), pF + 4))
    requires ParseFaces(buf, pF + 4, kStartFaces) == Success(At((indices, t), pU + 4))
    ensures ParseGroupHead(buf, p) == Success(At((name, indices, t), pU + 4))
  {
  }

  lemma ParseGroupTailOfParts(buf: seq<byte>, pU: nat, pV: nat, pE: nat, pN: nat, numTriangles: u32,
                              uvs: Option<seq<u32>>, normals: Option<seq<u32>>, t: u32)
    requires pU + 4 <= |buf| && pV + 4 <= |buf| && pN == pE + 4 && TokenAt(buf, pN, t)
    requires ParseAttribute(buf, pU + 4, WordAt(buf, pU), UVs, numTriangles) == Success(At((uvs, WordAt(buf, pV)), pV + 4))
    requires ParseAttribute(buf, pV + 4, WordAt(buf, pV), Normals, numTriangles) == Success(At((normals, kEndGroup), pN))
    ensures ParseGroupTail(buf, pU + 4, WordAt(buf, pU), numTriangles) == Success(At((uvs, normals, t), pN + 4))
  {
  }

  lemma ParseGroupTailAt(buf: seq<byte>, g: RawGroup, t: u32, pU: nat, pV: nat, pE: nat, pN: nat)
    requires |g.indices| % 3 == 0 && FacesFit(g) && AttributesFit(g)
    requires g.uvs.Some? ==> |g.uvs.value| == UVs.Words(|g.indices|)
    requires g.normals.Some? ==> |g.normals.value| == Normals.Words(|g.indices|)
    requires pV == pU + OptionalSize(g.uvs) && pE == pV + OptionalSize(g.normals) && pN == pE + 4
    requires AttributeAt(buf, pU, UVs, |g.indices|, g.uvs)
    requires AttributeAt(buf, pV, Normals, |g.indices|, g.normals)
    requires TokenAt(buf, pE, kEndGroup)
    requires TokenAt(buf, pN, t)
    ensures pU + 4 <= |buf|
    ensures ParseGroupTail(buf, pU + 4, WordAt(buf, pU), |g.indices| / 3) == Success(At((g.uvs, g.normals, t), pN + 4))
  {
    var numTriangles: u32 := |g.indices| / 3;
    var afterUVs := if g.normals.Some? then kStartNormals else kEndGroup;
    ParseAttributeAt(buf, pV, Normals, numTriangles, g.normals, kEndGroup, pE);
    ParseAttributeAt(buf, pU, UVs, numTriangles, g.uvs, afterUVs, pV);
    ParseGroupTailOfParts(buf, pU, pV, pE, pN, numTriangles, g.uvs, g.normals, t);
  }

  /** A well-formed group passes the index check and expands as expected. */
  lemma ExpandGroupOf(g: RawGroup, verts: VertexBlock)
    requires |verts.positions| == 3 * verts.count
    requires verts.colors.Some? ==> |verts.colors.value| == 3 * verts.count
    requires GroupWellFormed(g, verts.count)
    ensures ExpandGroup(NameString(g.name), g.indices, g.normals, g.uvs, verts) == Success(Expanded(g, verts))
  {
  }

  lemma ParseGroupOfParts(buf: seq<byte>, p: nat, pT: nat, pN: nat, verts: VertexBlock,
                          name: string, indices: seq<u32>, t1: u32,
                          uvs: Option<seq<u32>>, normals: Option<seq<u32>>, t: u32, group: MeshGroup)
    requires |verts.positions| == 3 * verts.count
    requires verts.colors.Some? ==> |verts.colors.value| == 3 * verts.count
    requires 4 <= pT
    requires ParseGroupHead(buf, p) == Success(At((name, indices, t1), pT))
    requires ParseGroupTail(buf, pT, t1, |indices| / 3) == Success(At((uvs, normals, t), pN))
    requires ExpandGroup(name, indices, normals, uvs, verts) == Success(group)
    ensures ParseGroup(buf, p, verts) == Success(At((group, t), pN))
  {
  }

  /** A group whose head and tail decode to the parts of `g` decodes to `g`
      expanded against the vertices. */
  lemma ParseGroupOfHeadAndTail(buf: seq<byte>, p: nat, pU: nat, q: nat, g: RawGroup,
                                verts: VertexBlock, t: u32)
    requires |verts.positions| == 3 * verts.count
    requires verts.colors.Some? ==> |verts.colors.value| == 3 * verts.count
    requires GroupWellFormed(g, verts.count) && pU + 4 <= |buf|
    requires ParseGroupHead(buf, p) == Success(At((NameString(g.name), g.indices, WordAt(buf, pU)), pU + 4))
    requires ParseGroupTail(buf, pU + 4, WordAt(buf, pU), |g.indices| / 3) == Success(At((g.uvs, g.normals, t), q + 4))
    ensures ParseGroup(buf, p, verts) == Success(At((Expanded(g, verts), t), q + 4))
  {
    ExpandGroupOf(g, verts);
    ParseGroupOfParts(buf, p, pU + 4, q + 4, verts, NameString(g.name), g.indices, WordAt(buf, pU),
                      g.uvs, g.normals, t, Expanded(g, verts));
  }

  /** The head and the tail of a group body laid out at `p`, followed by the
      token `t` at `q`, decode to the group's parts. */
  lemma ParseGroupPartsAt(buf: seq<byte>, p: nat, g: RawGroup, t: u32,
                          pF: nat, pU: nat, pV: nat, pE: nat, q: nat)
    requires |g.indices| % 3 == 0 && FacesFit(g) && AttributesFit(g)
    requires g.uvs.Some? ==> |g.uvs.value| == UVs.Words(|g.indices|)
    requires g.normals.Some? ==> |g.normals.value| == Normals.Words(|g.indices|)
    requires pF == p + FacesOffset(g) && pU == p + UVsOffset(g)
    requires pV == p + NormalsOffset(g) && pE == p + EndGroupOffset(g) && q == pE + 4
    requires GroupAt(buf, p, g)
    requires TokenAt(buf, q, t)
    ensures pU + 4 <= |buf|
    ensures ParseGroupHead(buf, p) == Success(At((NameString(g.name), g.indices, WordAt(buf, pU)), pU + 4))
    ensures ParseGroupTail(buf, pU + 4, WordAt(buf, pU), |g.indices| / 3) == Success(At((g.uvs, g.normals, t), q + 4))
  {
    GroupAtParts(buf, p, g, pF, pU, pV, pE);
    ParseGroupTailAt(buf, g, t, pU, pV, pE, q);
    ParseGroupHeadAt(buf, p, g, WordAt(buf, pU), pF, pU);
  }

  /** The pieces of a group body laid out at `p`, at their own offsets. */
  lemma GroupAtParts(buf: seq<byte>, p: nat, g: RawGroup, pF: nat, pU: nat, pV: nat, pE: nat)
    requires pF == p + FacesOffset(g) && pU == p + UVsOffset(g)
    requires pV == p + NormalsOffset(g) && pE == p + EndGroupOffset(g)
    requires GroupAt(buf, p, g)
    ensures pV == pU + OptionalSize(g.uvs) && pE == pV + OptionalSize(g.normals)
    ensures NameAt(buf, p, g.name) && BlockAt(buf, pF, kStartFaces, |g.indices| / 3, g.indices, kEndFaces)
    ensures AttributeAt(buf, pU, UVs, |g.indices|, g.uvs) && AttributeAt(buf, pV, Normals, |g.indices|, g.normals)
    ensures TokenAt(buf, pE, kEndGroup)
  {
  }

  /** A whole group body laid out at `p`, followed by the token `t` at `q`,
      decodes to the group expanded against the vertices. */
  lemma ParseGroupAt(buf: seq<byte>, p: nat, g: RawGroup, verts: VertexBlock, t: u32, q: nat)
    requires |verts.positions| == 3 * verts.count
    requires verts.colors.Some? ==> |verts.colors.value| == 3 * verts.count
    requires GroupWellFormed(g, verts.count)
    requires q == p + EndGroupOffset(g) + 4
    requires GroupAt(buf, p, g)
    requires TokenAt(buf, q, t)
    ensures ParseGroup(buf, p, verts) == Success(At((Expanded(g, verts), t), q + 4))
  {
    var pF, pU := p + FacesOffset(g), p + UVsOffset(g);
    var pV, pE := p + NormalsOffset(g), p + EndGroupOffset(g);
    ParseGroupPartsAt(buf, p, g, t, pF, pU, pV, pE, q);
    ParseGroupOfHeadAndTail(buf, p, pU, q, g, verts, t);
  }
}
