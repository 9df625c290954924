/** Where the groups and the whole mesh sit in an encoding. */
module BmfMeshLayout {
  import opened Wrappers
  import opened Bytes
  import opened BmfLoader
  import opened BmfEncoding
  import opened BmfLayout

  /** The first group of an encoded list, then the rest of the list. */
  lemma EncodeGroupsCons(gs: seq<RawGroup>, numVerts: nat)
    requires |gs| > 0 && GroupsWellFormed(gs, numVerts)
    ensures GroupWellFormed(gs[0], numVerts) && GroupsWellFormed(gs[1..], numVerts)
    ensures EncodeGroups(gs, numVerts) == U32Bytes(kStartGroup) + GroupBody(gs[0]) + EncodeGroups(gs[1..], numVerts)
    ensures |U32Bytes(kStartGroup)| == 4 && |U32Bytes(kStartGroup) + GroupBody(gs[0])| == 4 + EndGroupOffset(gs[0]) + 4
  {
  }

  lemma {:induction false} GroupsOfPrefix(buf: seq<byte>, p: nat, gs: seq<RawGroup>, numVerts: nat)
    requires GroupsWellFormed(gs, numVerts)
    requires Prefix(buf, p, EncodeGroups(gs, numVerts))
    ensures GroupsAt(buf, p, gs)
    decreases |gs|
  {
    if |gs| == 0 {
      WordOfPrefix(buf, p, kEndBmf);
    } else {
      var g, p' := gs[0], p + 4;
      var q := p' + EndGroupOffset(g) + 4;
      EncodeGroupsCons(gs, numVerts);
      PrefixSplit(buf, p, U32Bytes(kStartGroup) + GroupBody(g), EncodeGroups(gs[1..], numVerts), q);
      PrefixSplit(buf, p, U32Bytes(kStartGroup), GroupBody(g), p');
      WordOfPrefix(buf, p, kStartGroup);
      GroupOfPrefix(buf, p', g);
      GroupsOfPrefix(buf, q, gs[1..], numVerts);
      GroupsAtCons(buf, p, gs, p', q);
    }
  }

  /** The parts of an encoded mesh and where each one starts. */
  lemma EncodeParts(m: RawMesh)
    requires WellFormed(m)
    ensures var n: u32 := |m.positions| / 3;
      var S := U32Bytes(kStartBmf);
      var B := EncodeBlock(kStartVertices, n, m.positions, kEndVertices);
      var C := EncodeOptional(kStartRGBs, n, m.colors, kEndRGBs);
      && Encode(m) == S + B + C + EncodeGroups(m.groups, n)
      && |S| == 4 && |S + B| == ColorsOffset(m) && |S + B + C| == GroupsOffset(m)
  {
  }

  lemma MeshOfPrefix(buf: seq<byte>, m: RawMesh)
    requires WellFormed(m)
    requires Prefix(buf, 0, Encode(m))
    ensures TokenAt(buf, 0, kStartBmf)
    ensures BlockAt(buf, 4, kStartVertices, |m.positions| / 3, m.positions, kEndVertices)
    ensures OptionalAt(buf, ColorsOffset(m), kStartRGBs, |m.positions| / 3, m.colors, kEndRGBs)
    ensures GroupsAt(buf, GroupsOffset(m), m.groups)
  {
    var n: u32 := |m.positions| / 3;
    var S := U32Bytes(kStartBmf);
    var B := EncodeBlock(kStartVertices, n, m.positions, kEndVertices);
    var C := EncodeOptional(kStartRGBs, n, m.colors, kEndRGBs);
    var G := EncodeGroups(m.groups, n);
    var pC, pG := ColorsOffset(m), GroupsOffset(m);
    EncodeParts(m);
    PrefixSplit(buf, 0, S + B + C, G, pG);
    PrefixSplit(buf, 0, S + B, C, pC);
    PrefixSplit(buf, 0, S, B, 4);
    WordOfPrefix(buf, 0, kStartBmf);
    BlockOfPrefix(buf, 4, kStartVertices, n, m.positions, kEndVertices);
    OptionalOfPrefix(buf, pC, kStartRGBs, n, m.colors, kEndRGBs);
    GroupsOfPrefix(buf, pG, m.groups, n);
  }
}
