/** Decoding a whole encoded mesh: the group loop, then the buffer. */
module BmfMeshRoundTrip {
  import opened Wrappers
  import opened Bytes
  import opened BmfLoader
  import opened BmfEncoding
  import opened BmfLayout
  import opened BmfMeshLayout
  import opened BmfRoundTrip

  /** The list of groups laid out at `p`, taken apart at its first group. */
  lemma GroupsAtUncons(buf: seq<byte>, p: nat, gs: seq<RawGroup>, p': nat, q: nat)
    requires |gs| > 0 && p' == p + 4 && q == p + 4 + EndGroupOffset(gs[0]) + 4
    requires GroupsAt(buf, p, gs)
    ensures TokenAt(buf, p, kStartGroup)
    ensures GroupAt(buf, p', gs[0])
    ensures GroupsAt(buf, q, gs[1..])
  {
  }

  lemma ExpandedAllCons(gs: seq<RawGroup>, verts: VertexBlock)
    requires |verts.positions| == 3 * verts.count
    requires verts.colors.Some? ==> |verts.colors.value| == 3 * verts.count
    requires |gs| > 0 && GroupsWellFormed(gs, verts.count)
    ensures GroupWellFormed(gs[0], verts.count) && GroupsWellFormed(gs[1..], verts.count)
    ensures ExpandedAll(gs, verts) == [Expanded(gs[0], verts)] + ExpandedAll(gs[1..], verts)
  {
  }

  /** One turn of the group loop: a group, then whatever the rest decodes to. */
  lemma ParseGroupsCons(buf: seq<byte>, p: nat, p': nat, q: nat, verts: VertexBlock,
                        group: MeshGroup, rest: seq<MeshGroup>, all: seq<MeshGroup>)
    requires |verts.positions| == 3 * verts.count
    requires verts.colors.Some? ==> |verts.colors.value| == 3 * verts.count
    requires p' == p + 4 && TokenAt(buf, p, kStartGroup) && q + 4 <= |buf|
    requires ParseGroup(buf, p', verts) == Success(At((group, WordAt(buf, q)), q + 4))
    requires ParseGroups(buf, q + 4, WordAt(buf, q), verts) == Success(rest)
    requires all == [group] + rest
    ensures ParseGroups(buf, p', WordAt(buf, p), verts) == Success(all)
  {
  }

  /** Groups laid out from `p` (whose first token the decoder has read)
      decode to the expanded groups, in order. */
  lemma {:induction false} ParseGroupsAt(buf: seq<byte>, p: nat, gs: seq<RawGroup>, verts: VertexBlock)
    requires |verts.positions| == 3 * verts.count
    requires verts.colors.Some? ==> |verts.colors.value| == 3 * verts.count
    requires GroupsWellFormed(gs, verts.count)
    requires GroupsAt(buf, p, gs)
    ensures p + 4 <= |buf|
    ensures ParseGroups(buf, p + 4, WordAt(buf, p), verts) == Success(ExpandedAll(gs, verts))
    decreases |gs|
  {
    if |gs| > 0 {
      var g, p' := gs[0], p + 4;
      var q := p' + EndGroupOffset(g) + 4;
      GroupsAtUncons(buf, p, gs, p', q);
      ExpandedAllCons(gs, verts);
      ParseGroupsAt(buf, q, gs[1..], verts);
      ParseGroupAt(buf, p', g, verts, WordAt(buf, q), q);
      ParseGroupsCons(buf, p, p', q, verts, Expanded(g, verts), ExpandedAll(gs[1..], verts), ExpandedAll(gs, verts));
    }
  }

  lemma ParseVerticesOfParts(buf: seq<byte>, n: u32, positions: seq<u32>, pE: nat, pC: nat)
    requires TokenAt(buf, 0, kStartBmf) && TokenAt(buf, 4, kStartVertices) && TokenAt(buf, 8, n)
    requires ReadWords(buf, 12, 3 * n) == Success(At(positions, pE))
    requires TokenAt(buf, pE, kEndVertices) && pC == pE + 4
    ensures ParseVertices(buf) == Success(At((n, positions), pC))
  {
  }

  /** The decoder's top level, given what each of its parts returns. */
  lemma ParseBinaryOfParts(buf: seq<byte>, n: u32, positions: seq<u32>, pC: nat,
                           colors: Option<seq<u32>>, first: u32, pG: nat, groups: seq<MeshGroup>)
    requires ParseVertices(buf) == Success(At((n, positions), pC)) && pC + 4 <= |buf|
    requires ParseColors(buf, pC + 4, WordAt(buf, pC), n) == Success(At((colors, first), pG + 4))
    requires colors.Some? ==> |colors.value| == 3 * n
    requires ParseGroups(buf, pG + 4, first, VertexBlock(n, positions, colors)) == Success(groups)
    ensures ParseBinary(buf) == Success(groups)
  {
    var v := ParseVertices(buf);
    assert v.value.next == pC;
    var t := ReadU32(buf, pC);
    assert t == Success(At(WordAt(buf, pC), pC + 4));
    var c := ParseColors(buf, t.value.next, t.value.value, v.value.value.0);
    assert c.value.next == pG + 4;
  }

  /** The decoder's top level over a buffer whose parts sit at named offsets. */
  lemma ParseBinaryOfLayout(buf: seq<byte>, n: u32, positions: seq<u32>, colors: Option<seq<u32>>,
                            gs: seq<RawGroup>, pE: nat, pC: nat, pG: nat)
    requires |positions| == 3 * n && (colors.Some? ==> |colors.value| == 3 * n)
    requires GroupsWellFormed(gs, n)
    requires TokenAt(buf, 0, kStartBmf) && TokenAt(buf, 4, kStartVertices) && TokenAt(buf, 8, n)
    requires ReadWords(buf, 12, 3 * n) == Success(At(positions, pE))
    requires TokenAt(buf, pE, kEndVertices) && pC == pE + 4
    requires OptionalAt(buf, pC, kStartRGBs, n, colors, kEndRGBs) && pG == pC + OptionalSize(colors)
    requires GroupsAt(buf, pG, gs)
    ensures ParseBinary(buf) == Success(ExpandedAll(gs, VertexBlock(n, positions, colors)))
  {
    var verts := VertexBlock(n, positions, colors);
    ParseVerticesOfParts(buf, n, positions, pE, pC);
    ParseGroupsAt(buf, pG, gs, verts);
    var first := WordAt(buf, pG);
    assert first != kStartRGBs by {
      if |gs| == 0 { assert first == kEndBmf; } else { assert first == kStartGroup; }
    }
    ParseColorsAt(buf, pC, colors, n, first, pG);
    ParseBinaryOfParts(buf, n, positions, pC, colors, first, pG, ExpandedAll(gs, verts));
  }

  lemma ParseBinaryAt(buf: seq<byte>, m: RawMesh)
    requires WellFormed(m)
    requires TokenAt(buf, 0, kStartBmf)
    requires BlockAt(buf, 4, kStartVertices, |m.positions| / 3, m.positions, kEndVertices)
    requires OptionalAt(buf, ColorsOffset(m), kStartRGBs, |m.positions| / 3, m.colors, kEndRGBs)
    requires GroupsAt(buf, GroupsOffset(m), m.groups)
    ensures ParseBinary(buf) == Success(ExpandedAll(m.groups, Vertices(m)))
  {
    ParseBinaryOfBlocks(buf, |m.positions| / 3, m.positions, m.colors, m.groups, ColorsOffset(m), GroupsOffset(m));
  }

  lemma ParseBinaryOfBlocks(buf: seq<byte>, n: u32, positions: seq<u32>, colors: Option<seq<u32>>, gs: seq<RawGroup>,
                            pC: nat, pG: nat)
    requires |positions| == 3 * n && (colors.Some? ==> |colors.value| == 3 * n)
    requires GroupsWellFormed(gs, n)
    requires TokenAt(buf, 0, kStartBmf)
    requires BlockAt(buf, 4, kStartVertices, n, positions, kEndVertices)
    requires pC == 4 + BlockSize(positions) && OptionalAt(buf, pC, kStartRGBs, n, colors, kEndRGBs)
    requires pG == pC + OptionalSize(colors) && GroupsAt(buf, pG, gs)
    ensures ParseBinary(buf) == Success(ExpandedAll(gs, VertexBlock(n, positions, colors)))
  {
    var pE := 12 + 4 * |positions|;
    assert ReadWords(buf, 12, 3 * n) == Success(At(positions, pE));
    ParseBinaryOfLayout(buf, n, positions, colors, gs, pE, pC, pG);
  }

  /** Decoding inverts encoding: a well-formed mesh, written out and followed
      by any bytes at all, decodes to its groups expanded against its
      vertices, in order. */
  lemma DecodeEncode(m: RawMesh, tail: seq<byte>)
    requires WellFormed(m)
    ensures ParseBinary(Encode(m) + tail) == Success(ExpandedAll(m.groups, Vertices(m)))
  {
    PrefixOfAppend(Encode(m), tail);
    MeshOfPrefix(Encode(m) + tail, m);
    ParseBinaryAt(Encode(m) + tail, m);
  }
}
