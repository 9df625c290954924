/** Where each part of an encoding sits: byte prefixes of a buffer and the
    word-level facts a reader finds at each offset of an encoded mesh. */
module BmfLayout {
  import opened Wrappers
  import opened Bytes
  import opened BmfLoader
  import opened BmfEncoding

  // ---------------------------------------------------------------------
  // Byte prefixes

  /** `bytes` occurs in `buf` starting at offset `pos`. */
  predicate Prefix(buf: seq<byte>, pos: nat, bytes: seq<byte>)
    decreases |bytes|, 1
  {
    && pos + |bytes| <= |buf|
    && PrefixBytes(buf, pos, bytes)
  }

  /** The bytes of a prefix, first byte first.  Kept apart from `Prefix` so
      that a prefix fact shows its length, and its bytes only when a proof
      asks for them. */
  predicate PrefixBytes(buf: seq<byte>, pos: nat, bytes: seq<byte>)
    decreases |bytes|, 0
  {
    |bytes| == 0 || (pos < |buf| && buf[pos] == bytes[0] && Prefix(buf, pos + 1, bytes[1..]))
  }

  /** A prefix made of two parts: the second starts at `mid`. */
  lemma {:induction false} PrefixSplit(buf: seq<byte>, pos: nat, a: seq<byte>, b: seq<byte>, mid: nat)
    requires mid == pos + |a|
    requires Prefix(buf, pos, a + b)
    ensures Prefix(buf, pos, a) && Prefix(buf, mid, b)
    decreases |a|
  {
    if |a| == 0 {
      assert a + b == b;
    } else {
      assert (a + b)[1..] == a[1..] + b;
      PrefixSplit(buf, pos + 1, a[1..], b, mid);
    }
  }

  /** Every sequence occurs where it was taken from. */
  lemma {:induction false} PrefixOfSlice(buf: seq<byte>, pos: nat, n: nat)
    requires pos + n <= |buf|
    ensures Prefix(buf, pos, buf[pos..pos + n])
    decreases n
  {
    if n > 0 {
      assert buf[pos..pos + n][1..] == buf[pos + 1..pos + 1 + (n - 1)];
      PrefixOfSlice(buf, pos + 1, n - 1);
    }
  }

  lemma PrefixOfAppend(a: seq<byte>, tail: seq<byte>)
    ensures Prefix(a + tail, 0, a)
  {
    PrefixOfSlice(a + tail, 0, |a|);
    assert (a + tail)[0..|a|] == a;
  }

  lemma {:induction false} PrefixAt(buf: seq<byte>, pos: nat, bytes: seq<byte>, i: nat)
    requires Prefix(buf, pos, bytes) && i < |bytes|
    ensures buf[pos + i] == bytes[i]
    decreases i
  {
    if i > 0 {
      PrefixAt(buf, pos + 1, bytes[1..], i - 1);
    }
  }

  lemma WordOfPrefix(buf: seq<byte>, pos: nat, w: u32)
    requires Prefix(buf, pos, U32Bytes(w))
    ensures pos + 4 <= |buf| && WordAt(buf, pos) == w
  {
    var b := U32Bytes(w);
    WordOfU32Bytes(w);
    PrefixAt(buf, pos, b, 0);
    PrefixAt(buf, pos, b, 1);
    PrefixAt(buf, pos, b, 2);
    PrefixAt(buf, pos, b, 3);
    assert WordAt(buf, pos) == WordAt(b, 0);
  }

  /** Reading `|ws|` words where `Words(ws)` was written gives back `ws`. */
  lemma {:induction false} ReadWordsOfPrefix(buf: seq<byte>, pos: nat, ws: seq<u32>)
    requires Prefix(buf, pos, Words(ws))
    ensures ReadWords(buf, pos, |ws|) == Success(At(ws, pos + 4 * |ws|))
    decreases |ws|
  {
    if |ws| > 0 {
      var next := pos + 4;
      PrefixSplit(buf, pos, U32Bytes(ws[0]), Words(ws[1..]), next);
      WordOfPrefix(buf, pos, ws[0]);
      ReadWordsOfPrefix(buf, next, ws[1..]);
      assert ws == [ws[0]] + ws[1..];
    }
  }

  // ---------------------------------------------------------------------
  // Word-level layout: what a reader finds at each offset of an encoding.

  predicate TokenAt(buf: seq<byte>, q: nat, t: int) {
    q + 4 <= |buf| && WordAt(buf, q) == t
  }

  predicate BlockAt(buf: seq<byte>, p: nat, start: u32, count: int, payload: seq<u32>, end: u32) {
    && TokenAt(buf, p, start)
    && TokenAt(buf, p + 4, count)
    && ReadWords(buf, p + 8, |payload|) == Success(At(payload, p + 8 + 4 * |payload|))
    && TokenAt(buf, p + 8 + 4 * |payload|, end)
  }

  predicate OptionalAt(buf: seq<byte>, p: nat, start: u32, count: int, payload: Option<seq<u32>>, end: u32) {
    match payload
    case None => true
    case Some(w) => BlockAt(buf, p, start, count, w, end)
  }

  predicate AttributeAt(buf: seq<byte>, p: nat, kind: Attribute, count: int, items: Option<seq<u32>>) {
    OptionalAt(buf, p, kind.StartToken(), count, items, kind.EndToken())
  }

  predicate NameAt(buf: seq<byte>, p: nat, name: Option<seq<byte>>) {
    match name
    case None => true
    case Some(b) => TokenAt(buf, p, kMaterialName) && ReadString(buf, p + 4) == Success(At(NameString(name), p + 8 + |b|))
  }

  /** Every part of a group body, at its offset from `p`. */
  predicate GroupAt(buf: seq<byte>, p: nat, g: RawGroup) {
    && NameAt(buf, p, g.name)
    && BlockAt(buf, p + FacesOffset(g), kStartFaces, |g.indices| / 3, g.indices, kEndFaces)
    && AttributeAt(buf, p + UVsOffset(g), UVs, |g.indices|, g.uvs)
    && AttributeAt(buf, p + NormalsOffset(g), Normals, |g.indices|, g.normals)
    && TokenAt(buf, p + EndGroupOffset(g), kEndGroup)
  }

  predicate GroupsAt(buf: seq<byte>, p: nat, gs: seq<RawGroup>)
    decreases |gs|
  {
    if |gs| == 0 then TokenAt(buf, p, kEndBmf)
    else
      && TokenAt(buf, p, kStartGroup)
      && GroupAt(buf, p + 4, gs[0])
      && GroupsAt(buf, p + 4 + EndGroupOffset(gs[0]) + 4, gs[1..])
  }

  /** The list of groups, taken apart at its first group. */
  lemma GroupsAtCons(buf: seq<byte>, p: nat, gs: seq<RawGroup>, p': nat, q: nat)
    requires |gs| > 0 && p' == p + 4 && q == p + 4 + EndGroupOffset(gs[0]) + 4
    requires TokenAt(buf, p, kStartGroup)
    requires GroupAt(buf, p', gs[0])
    requires GroupsAt(buf, q, gs[1..])
    ensures GroupsAt(buf, p, gs)
  {
  }

  // ---------------------------------------------------------------------
  // From bytes to layout: each encoder's output, found at an offset,
  // puts its words there.

  lemma BlockOfPrefix(buf: seq<byte>, p: nat, start: u32, count: u32, payload: seq<u32>, end: u32)
    requires Prefix(buf, p, EncodeBlock(start, count, payload, end))
    ensures BlockAt(buf, p, start, count, payload, end)
  {
    var s, c, w, e := U32Bytes(start), U32Bytes(count), Words(payload), U32Bytes(end);
    var pC, pW, pE := p + 4, p + 8, p + 8 + 4 * |payload|;
    PrefixSplit(buf, p, s + c + w, e, pE);
    PrefixSplit(buf, p, s + c, w, pW);
    PrefixSplit(buf, p, s, c, pC);
    WordOfPrefix(buf, p, start);
    WordOfPrefix(buf, pC, count);
    ReadWordsOfPrefix(buf, pW, payload);
    WordOfPrefix(buf, pE, end);
  }

  lemma OptionalOfPrefix(buf: seq<byte>, p: nat, start: u32, count: nat, payload: Option<seq<u32>>, end: u32)
    requires payload.Some? ==> count < 0x1_0000_0000
    requires Prefix(buf, p, EncodeOptional(start, count, payload, end))
    ensures OptionalAt(buf, p, start, count, payload, end)
  {
    if payload.Some? {
      BlockOfPrefix(buf, p, start, count, payload.value, end);
    }
  }

  lemma NameOfPrefix(buf: seq<byte>, p: nat, name: Option<seq<byte>>)
    requires name.Some? ==> |name.value| < 0x1_0000_0000
    requires Prefix(buf, p, EncodeName(name))
    ensures NameAt(buf, p, name)
  {
    if name.Some? {
      var b := name.value;
      var pL, pB := p + 4, p + 8;
      PrefixSplit(buf, p, U32Bytes(kMaterialName) + U32Bytes(|b|), b, pB);
      PrefixSplit(buf, p, U32Bytes(kMaterialName), U32Bytes(|b|), pL);
      WordOfPrefix(buf, p, kMaterialName);
      WordOfPrefix(buf, pL, |b|);
      StringOfPrefix(buf, pL, b);
    }
  }

  /** A length word followed by the name's bytes reads back as the name. */
  lemma StringOfPrefix(buf: seq<byte>, p: nat, b: seq<byte>)
    requires p + 4 <= |buf| && WordAt(buf, p) == |b|
    requires Prefix(buf, p + 4, b)
    ensures ReadString(buf, p) == Success(At(NameString(Some(b)), p + 4 + |b|))
  {
    var s := ReadString(buf, p);
    assert s.Success?;
    assert s.value.value == NameString(Some(b)) by {
      forall j | 0 <= j < |b| ensures s.value.value[j] == b[j] as char {
        PrefixAt(buf, p + 4, b, j);
      }
    }
  }

  /** The head, found at `p`, puts the name at `p` and the faces at `pF`. */
  lemma GroupHeadOfPrefix(buf: seq<byte>, p: nat, g: RawGroup, pF: nat)
    requires g.name.Some? ==> |g.name.value| < 0x1_0000_0000
    requires FacesFit(g)
    requires pF == p + FacesOffset(g)
    requires Prefix(buf, p, GroupHead(g))
    ensures NameAt(buf, p, g.name)
    ensures BlockAt(buf, pF, kStartFaces, |g.indices| / 3, g.indices, kEndFaces)
  {
    PrefixSplit(buf, p, EncodeName(g.name), EncodeBlock(kStartFaces, |g.indices| / 3, g.indices, kEndFaces), pF);
    NameOfPrefix(buf, p, g.name);
    BlockOfPrefix(buf, pF, kStartFaces, |g.indices| / 3, g.indices, kEndFaces);
  }

  /** The tail, found at `pU`, puts the UVs at `pU`, the normals at `pV` and
      kEndGroup at `pE`. */
  lemma GroupTailOfPrefix(buf: seq<byte>, g: RawGroup, pU: nat, pV: nat, pE: nat)
    requires AttributesFit(g)
    requires pV == pU + OptionalSize(g.uvs) && pE == pV + OptionalSize(g.normals)
    requires Prefix(buf, pU, GroupTail(g))
    ensures AttributeAt(buf, pU, UVs, |g.indices|, g.uvs)
    ensures AttributeAt(buf, pV, Normals, |g.indices|, g.normals)
    ensures TokenAt(buf, pE, kEndGroup)
  {
    var n := |g.indices|;
    var U := EncodeAttribute(UVs, n, g.uvs);
    var V := EncodeAttribute(Normals, n, g.normals);
    PrefixSplit(buf, pU, U + V, U32Bytes(kEndGroup), pE);
    PrefixSplit(buf, pU, U, V, pV);
    OptionalOfPrefix(buf, pU, kStartUVs, n, g.uvs, kEndUVs);
    OptionalOfPrefix(buf, pV, kStartNormals, n, g.normals, kEndNormals);
    WordOfPrefix(buf, pE, kEndGroup);
  }

  lemma GroupAtOfParts(buf: seq<byte>, p: nat, g: RawGroup, pF: nat, pU: nat, pV: nat, pE: nat)
    requires pF == p + FacesOffset(g) && pU == p + UVsOffset(g)
    requires pV == p + NormalsOffset(g) && pE == p + EndGroupOffset(g)
    requires NameAt(buf, p, g.name)
    requires BlockAt(buf, pF, kStartFaces, |g.indices| / 3, g.indices, kEndFaces)
    requires AttributeAt(buf, pU, UVs, |g.indices|, g.uvs)
    requires AttributeAt(buf, pV, Normals, |g.indices|, g.normals)
    requires TokenAt(buf, pE, kEndGroup)
    ensures GroupAt(buf, p, g)
  {
  }

  lemma GroupOfPrefix(buf: seq<byte>, p: nat, g: RawGroup)
    requires g.name.Some? ==> |g.name.value| < 0x1_0000_0000
    requires FacesFit(g) && AttributesFit(g)
    requires Prefix(buf, p, GroupBody(g))
    ensures GroupAt(buf, p, g)
  {
    var pF, pU := p + FacesOffset(g), p + UVsOffset(g);
    var pV, pE := p + NormalsOffset(g), p + EndGroupOffset(g);
    PrefixSplit(buf, p, GroupHead(g), GroupTail(g), pU);
    GroupHeadOfPrefix(buf, p, g, pF);
    GroupTailOfPrefix(buf, g, pU, pV, pE);
    GroupAtOfParts(buf, p, g, pF, pU, pV, pE);
  }
}
