/** The decoder accepts nothing but encodings: every buffer it decodes
    starts with the writer's encoding of some well-formed indexed mesh, and
    decodes to that mesh's expanded groups.

    Each parser is walked backwards: from what it read between the token it
    was handed (at `pos - 4`) and the token it hands on (at `next - 4`), to
    the bytes the writer emits for that value, found at `pos - 4`. */
module BmfDecodeComplete {
  import opened Wrappers
  import opened Bytes
  import opened BmfLoader
  import opened BmfEncoding
  import opened BmfLayout
  import opened BmfMeshLayout

  // ---------------------------------------------------------------------
  // Prefixes

  /** Two parts found one after the other make their concatenation. */
  lemma {:induction false} PrefixJoin(buf: seq<byte>, pos: nat, mid: nat, a: seq<byte>, b: seq<byte>)
    requires mid == pos + |a|
    requires Prefix(buf, pos, a) && Prefix(buf, mid, b)
    ensures Prefix(buf, pos, a + b)
    decreases |a|
  {
    if |a| == 0 {
      assert a + b == b;
    } else {
      assert (a + b)[1..] == a[1..] + b;
      PrefixJoin(buf, pos + 1, mid, a[1..], b);
    }
  }

  lemma PrefixJoin3(buf: seq<byte>, pos: nat, mid: nat, last: nat, a: seq<byte>, b: seq<byte>, c: seq<byte>)
    requires mid == pos + |a| && last == mid + |b|
    requires Prefix(buf, pos, a) && Prefix(buf, mid, b) && Prefix(buf, last, c)
    ensures Prefix(buf, pos, a + b + c)
  {
    PrefixJoin(buf, pos, mid, a, b);
    PrefixJoin(buf, pos, last, a + b, c);
  }

  /** What occurs at offset 0 is a prefix of the buffer. */
  lemma PrefixAtStart(buf: seq<byte>, x: seq<byte>)
    requires Prefix(buf, 0, x)
    ensures x <= buf
  {
    forall i | 0 <= i < |x| ensures buf[i] == x[i] {
      PrefixAt(buf, 0, x, i);
    }
    assert x == buf[..|x|];
  }

  // ---------------------------------------------------------------------
  // Words

  lemma DivMod256(lo: byte, hi: nat)
    ensures (lo + 256 * hi) % 256 == lo && (lo + 256 * hi) / 256 == hi
  {
  }

  /** The four bytes at `p` are the writer's bytes for the word read there. */
  lemma WordBytes(buf: seq<byte>, p: nat)
    requires p + 4 <= |buf|
    ensures buf[p..p + 4] == U32Bytes(WordAt(buf, p))
  {
    var b0, b1, b2, b3 := buf[p], buf[p + 1], buf[p + 2], buf[p + 3];
    var w3: nat := b3;
    var w2 := b2 + 256 * w3;
    var w1 := b1 + 256 * w2;
    var w := WordAt(buf, p);
    assert w == b0 + 256 * w1;
    DivMod256(b0, w1);
    DivMod256(b1, w2);
    DivMod256(b2, w3);
    assert U32Bytes(w) == [b0, b1, b2, b3];
  }

  lemma WordPrefix(buf: seq<byte>, p: nat)
    requires p + 4 <= |buf|
    ensures Prefix(buf, p, U32Bytes(WordAt(buf, p)))
  {
    WordBytes(buf, p);
    PrefixOfSlice(buf, p, 4);
  }

  /** The bytes ReadWords consumed are the writer's bytes for the words it
      returned. */
  lemma {:induction false} WordsPrefix(buf: seq<byte>, p: nat, ws: seq<u32>)
    requires p <= |buf| && ReadWords(buf, p, |ws|) == Success(At(ws, p + 4 * |ws|))
    ensures Prefix(buf, p, Words(ws))
    decreases |ws|
  {
    if |ws| > 0 {
      var rest := ReadWords(buf, p + 4, |ws| - 1).value;
      assert ws == [WordAt(buf, p)] + rest.value;
      assert ws[1..] == rest.value;
      WordsPrefix(buf, p + 4, ws[1..]);
      WordPrefix(buf, p);
      PrefixJoin(buf, p, p + 4, U32Bytes(ws[0]), Words(ws[1..]));
    }
  }

  /** A block the reader accepted is the block the writer emits for the
      words it read. */
  lemma BlockPrefix(buf: seq<byte>, p: nat, start: u32, count: u32, payload: seq<u32>, end: u32)
    requires BlockAt(buf, p, start, count, payload, end)
    ensures Prefix(buf, p, EncodeBlock(start, count, payload, end))
  {
    var q := p + 8 + 4 * |payload|;
    WordPrefix(buf, p);
    WordPrefix(buf, p + 4);
    WordsPrefix(buf, p + 8, payload);
    WordPrefix(buf, q);
    PrefixJoin3(buf, p, p + 4, p + 8, U32Bytes(start), U32Bytes(count), Words(payload));
    PrefixJoin(buf, p, q, U32Bytes(start) + U32Bytes(count) + Words(payload), U32Bytes(end));
  }

  // ---------------------------------------------------------------------
  // Blocks

  lemma ParseColorsPrefix(buf: seq<byte>, pos: nat, token: u32, numVerts: u32,
                          colors: Option<seq<u32>>, t: u32, next: nat)
    requires 4 <= pos <= |buf| && WordAt(buf, pos - 4) == token
    requires ParseColors(buf, pos, token, numVerts) == Success(At((colors, t), next))
    ensures next == pos + OptionalSize(colors) <= |buf|
    ensures colors.Some? ==> |colors.value| == 3 * numVerts
    ensures Prefix(buf, pos - 4, EncodeOptional(kStartRGBs, numVerts, colors, kEndRGBs))
    ensures WordAt(buf, next - 4) == t
  {
    if token == kStartRGBs {
      ParseColorsBlock(buf, pos, numVerts, colors, t, next);
      BlockPrefix(buf, pos - 4, kStartRGBs, numVerts, colors.value, kEndRGBs);
    }
  }

  /** The RGB block ParseColors read, when the token before it was kStartRGBs. */
  lemma ParseColorsBlock(buf: seq<byte>, pos: nat, numVerts: u32, colors: Option<seq<u32>>, t: u32, next: nat)
    requires 4 <= pos <= |buf| && WordAt(buf, pos - 4) == kStartRGBs
    requires ParseColors(buf, pos, kStartRGBs, numVerts) == Success(At((colors, t), next))
    ensures colors.Some? && |colors.value| == 3 * numVerts
    ensures BlockAt(buf, pos - 4, kStartRGBs, numVerts, colors.value, kEndRGBs)
    ensures next == pos + 12 + 4 * |colors.value| <= |buf| && WordAt(buf, next - 4) == t
  {
    var count := ReadU32(buf, pos).value;
    assert count == At(numVerts as u32, pos + 4);
    var cols := ReadWords(buf, pos + 4, 3 * numVerts).value;
    var afterEnd := Expect(buf, cols.next, kEndRGBs).value;
    assert ReadU32(buf, afterEnd).value == At(t, next);
  }

  lemma ParseAttributePrefix(buf: seq<byte>, pos: nat, token: u32, kind: Attribute, numTriangles: u32, count: nat,
                             items: Option<seq<u32>>, t: u32, next: nat)
    requires 4 <= pos <= |buf| && WordAt(buf, pos - 4) == token
    requires count == 3 * numTriangles
    requires ParseAttribute(buf, pos, token, kind, numTriangles) == Success(At((items, t), next))
    ensures next == pos + OptionalSize(items) <= |buf|
    ensures items.Some? ==> count < 0x1_0000_0000
    ensures items.Some? ==> |items.value| == kind.Words(count)
    ensures Prefix(buf, pos - 4, EncodeAttribute(kind, count, items))
    ensures WordAt(buf, next - 4) == t
  {
    if token == kind.StartToken() {
      ParseAttributeBlock(buf, pos, kind, numTriangles, items, t, next);
      BlockPrefix(buf, pos - 4, kind.StartToken(), 3 * numTriangles, items.value, kind.EndToken());
    }
  }

  /** The attribute block ParseAttribute read, when the token before it was
      the attribute's start token. */
  lemma ParseAttributeBlock(buf: seq<byte>, pos: nat, kind: Attribute, numTriangles: u32,
                            items: Option<seq<u32>>, t: u32, next: nat)
    requires 4 <= pos <= |buf| && WordAt(buf, pos - 4) == kind.StartToken()
    requires ParseAttribute(buf, pos, kind.StartToken(), kind, numTriangles) == Success(At((items, t), next))
    ensures 3 * numTriangles < 0x1_0000_0000
    ensures items.Some? && |items.value| == kind.Words(3 * numTriangles)
    ensures BlockAt(buf, pos - 4, kind.StartToken(), 3 * numTriangles, items.value, kind.EndToken())
    ensures next == pos + 12 + 4 * |items.value| <= |buf| && WordAt(buf, next - 4) == t
  {
    var count := ReadU32(buf, pos).value;
    assert count.value == 3 * numTriangles && count.next == pos + 4;
    var words := ReadWords(buf, pos + 4, kind.Words(count.value)).value;
    var afterEnd := Expect(buf, words.next, kind.EndToken()).value;
    assert ReadU32(buf, afterEnd).value == At(t, next);
  }

  /** The string ReadString returns is the name made of the bytes it read. */
  lemma StringName(buf: seq<byte>, pos: nat, s: string, next: nat)
    requires ReadString(buf, pos) == Success(At(s, next))
    ensures pos + 4 <= next <= |buf| && next - (pos + 4) == |s| == WordAt(buf, pos)
    ensures NameString(Some(buf[pos + 4..next])) == s
  {
    var b := buf[pos + 4..next];
    assert forall j :: 0 <= j < |b| ==> NameString(Some(b))[j] == s[j];
  }

  /** The material name the reader found, as the bytes the writer stores. */
  lemma ParseMaterialNamePrefix(buf: seq<byte>, pos: nat, token: u32, s: string, t: u32, next: nat)
    returns (name: Option<seq<byte>>)
    requires 4 <= pos <= |buf| && WordAt(buf, pos - 4) == token
    requires ParseMaterialName(buf, pos, token) == Success(At((s, t), next))
    ensures name.Some? ==> |name.value| < 0x1_0000_0000
    ensures next == pos + NameSize(name) <= |buf|
    ensures NameString(name) == s
    ensures Prefix(buf, pos - 4, EncodeName(name))
    ensures WordAt(buf, next - 4) == t
  {
    if token != kMaterialName {
      name := None;
    } else {
      var str := ReadString(buf, pos).value;
      assert str.value == s && str.next + 4 == next;
      StringName(buf, pos, s, str.next);
      var b := buf[pos + 4..str.next];
      name := Some(b);
      WordPrefix(buf, pos - 4);
      WordPrefix(buf, pos);
      PrefixOfSlice(buf, pos + 4, |b|);
      PrefixJoin3(buf, pos - 4, pos, pos + 4, U32Bytes(kMaterialName), U32Bytes(|b|), b);
    }
  }

  /** A length of three words per item holds exactly that many items. */
  lemma Thirds(k: nat, n: nat)
    requires k == 3 * n
    ensures k % 3 == 0 && k / 3 == n
  {
  }

  lemma ParseFacesPrefix(buf: seq<byte>, pos: nat, token: u32, indices: seq<u32>, t: u32, next: nat)
    requires 4 <= pos <= |buf| && WordAt(buf, pos - 4) == token
    requires ParseFaces(buf, pos, token) == Success(At((indices, t), next))
    ensures |indices| % 3 == 0 && |indices| / 3 < 0x1_0000_0000
    ensures next == pos + BlockSize(indices)
    ensures Prefix(buf, pos - 4, EncodeBlock(kStartFaces, |indices| / 3, indices, kEndFaces))
    ensures WordAt(buf, next - 4) == t
  {
    var n: nat := WordAt(buf, pos);
    assert ReadWords(buf, pos + 4, 3 * n) == Success(At(indices, pos + 4 + 12 * n));
    Thirds(|indices|, n);
    assert BlockAt(buf, pos - 4, kStartFaces, n, indices, kEndFaces);
    BlockPrefix(buf, pos - 4, kStartFaces, n, indices, kEndFaces);
  }

  // ---------------------------------------------------------------------
  // Groups

  /** What ParseGroupHead read: the first token, the name, then the faces. */
  lemma ParseGroupHeadParts(buf: seq<byte>, pos: nat, s: string, indices: seq<u32>, t: u32, next: nat)
    returns (first: u32, t1: u32, mid: nat)
    requires ParseGroupHead(buf, pos) == Success(At((s, indices, t), next))
    ensures pos + 4 <= |buf| && first == WordAt(buf, pos)
    ensures ParseMaterialName(buf, pos + 4, first) == Success(At((s, t1), mid))
    ensures 4 <= mid
    ensures ParseFaces(buf, mid, t1) == Success(At((indices, t), next))
  {
    first := WordAt(buf, pos);
    var named := ParseMaterialName(buf, pos + 4, first).value;
    t1, mid := named.value.1, named.next;
  }

  /** The head of a group the reader accepted: the writer's optional name
      and faces block. */
  lemma ParseGroupHeadPrefix(buf: seq<byte>, pos: nat, s: string, indices: seq<u32>, t: u32, next: nat)
    returns (name: Option<seq<byte>>)
    requires ParseGroupHead(buf, pos) == Success(At((s, indices, t), next))
    ensures name.Some? ==> |name.value| < 0x1_0000_0000
    ensures NameString(name) == s
    ensures |indices| % 3 == 0 && |indices| / 3 < 0x1_0000_0000
    ensures next == pos + 4 + NameSize(name) + BlockSize(indices) <= |buf|
    ensures Prefix(buf, pos, EncodeName(name) + EncodeBlock(kStartFaces, |indices| / 3, indices, kEndFaces))
    ensures WordAt(buf, next - 4) == t
  {
    var first, t1, mid := ParseGroupHeadParts(buf, pos, s, indices, t, next);
    name := ParseMaterialNamePrefix(buf, pos + 4, first, s, t1, mid);
    ParseFacesPrefix(buf, mid, t1, indices, t, next);
    HeadOfParts(buf, pos, mid - 4, name, indices);
  }

  /** The optional name and the faces block, found one after the other. */
  lemma HeadOfParts(buf: seq<byte>, p: nat, q: nat, name: Option<seq<byte>>, indices: seq<u32>)
    requires name.Some? ==> |name.value| < 0x1_0000_0000
    requires |indices| / 3 < 0x1_0000_0000
    requires q == p + NameSize(name)
    requires Prefix(buf, p, EncodeName(name))
    requires Prefix(buf, q, EncodeBlock(kStartFaces, |indices| / 3, indices, kEndFaces))
    ensures Prefix(buf, p, EncodeName(name) + EncodeBlock(kStartFaces, |indices| / 3, indices, kEndFaces))
  {
    PrefixJoin(buf, p, q, EncodeName(name), EncodeBlock(kStartFaces, |indices| / 3, indices, kEndFaces));
  }

  /** What ParseGroupTail read, attribute by attribute. */
  lemma ParseGroupTailParts(buf: seq<byte>, pos: nat, token: u32, numTriangles: u32,
                            uvs: Option<seq<u32>>, normals: Option<seq<u32>>, t: u32, next: nat)
    returns (mid: nat, t1: u32, e: nat)
    requires 4 <= pos
    requires ParseGroupTail(buf, pos, token, numTriangles) == Success(At((uvs, normals, t), next))
    ensures ParseAttribute(buf, pos, token, UVs, numTriangles) == Success(At((uvs, t1), mid))
    ensures ParseAttribute(buf, mid, t1, Normals, numTriangles) == Success(At((normals, kEndGroup), e + 4))
    ensures next == e + 8 && e + 8 <= |buf| && WordAt(buf, e + 4) == t
  {
    var u := ParseAttribute(buf, pos, token, UVs, numTriangles).value;
    var v := ParseAttribute(buf, u.next, u.value.1, Normals, numTriangles).value;
    mid, t1, e := u.next, u.value.1, v.next - 4;
    assert CloseBlock(buf, v.next, v.value.1, kEndGroup) == Success(At(WordAt(buf, v.next), v.next + 4));
  }

  /** The three parts of a group tail, each as the writer's bytes. */
  lemma ParseGroupTailPieces(buf: seq<byte>, pos: nat, token: u32, numTriangles: u32, count: nat,
                             uvs: Option<seq<u32>>, normals: Option<seq<u32>>, t: u32, next: nat)
    returns (mid: nat, e: nat)
    requires 4 <= pos <= |buf| && WordAt(buf, pos - 4) == token
    requires count == 3 * numTriangles
    requires ParseGroupTail(buf, pos, token, numTriangles) == Success(At((uvs, normals, t), next))
    ensures uvs.Some? || normals.Some? ==> count < 0x1_0000_0000
    ensures uvs.Some? ==> |uvs.value| == UVs.Words(count)
    ensures normals.Some? ==> |normals.value| == Normals.Words(count)
    ensures mid == pos + OptionalSize(uvs) && e == mid - 4 + OptionalSize(normals) && next == e + 8 <= |buf|
    ensures Prefix(buf, pos - 4, EncodeAttribute(UVs, count, uvs))
    ensures Prefix(buf, mid - 4, EncodeAttribute(Normals, count, normals))
    ensures Prefix(buf, e, U32Bytes(kEndGroup))
    ensures WordAt(buf, next - 4) == t
  {
    var t1;
    mid, t1, e := ParseGroupTailParts(buf, pos, token, numTriangles, uvs, normals, t, next);
    ParseAttributePrefix(buf, pos, token, UVs, numTriangles, count, uvs, t1, mid);
    ParseAttributePrefix(buf, mid, t1, Normals, numTriangles, count, normals, kEndGroup, e + 4);
    WordPrefix(buf, e);
  }

  /** The two attributes and kEndGroup, found one after the other. */
  lemma TailOfParts(buf: seq<byte>, p: nat, q: nat, e: nat, count: nat, uvs: Option<seq<u32>>, normals: Option<seq<u32>>)
    requires uvs.Some? || normals.Some? ==> count < 0x1_0000_0000
    requires q == p + OptionalSize(uvs) && e == q + OptionalSize(normals)
    requires Prefix(buf, p, EncodeAttribute(UVs, count, uvs))
    requires Prefix(buf, q, EncodeAttribute(Normals, count, normals))
    requires Prefix(buf, e, U32Bytes(kEndGroup))
    ensures Prefix(buf, p, EncodeAttribute(UVs, count, uvs) + EncodeAttribute(Normals, count, normals)
                           + U32Bytes(kEndGroup))
  {
    PrefixJoin3(buf, p, q, e, EncodeAttribute(UVs, count, uvs),
                EncodeAttribute(Normals, count, normals), U32Bytes(kEndGroup));
  }

  /** What ParseGroup read: a head, a tail, and the expansion. */
  lemma ParseGroupParts(buf: seq<byte>, pos: nat, verts: VertexBlock, group: MeshGroup, t: u32, next: nat)
    returns (s: string, indices: seq<u32>, t1: u32, mid: nat, uvs: Option<seq<u32>>, normals: Option<seq<u32>>)
    requires |verts.positions| == 3 * verts.count
    requires verts.colors.Some? ==> |verts.colors.value| == 3 * verts.count
    requires ParseGroup(buf, pos, verts) == Success(At((group, t), next))
    ensures ParseGroupHead(buf, pos) == Success(At((s, indices, t1), mid))
    ensures 4 <= mid
    ensures ParseGroupTail(buf, mid, t1, |indices| / 3) == Success(At((uvs, normals, t), next))
    ensures ExpandGroup(s, indices, normals, uvs, verts) == Success(group)
  {
    var head := ParseGroupHead(buf, pos).value;
    s, indices, t1, mid := head.value.0, head.value.1, head.value.2, head.next;
    var tail := ParseGroupTail(buf, mid, t1, |indices| / 3).value;
    uvs, normals := tail.value.0, tail.value.1;
  }

  /** A group the reader accepted is the writer's body of a well-formed
      group, and decodes to that group expanded. */
  lemma ParseGroupPrefix(buf: seq<byte>, pos: nat, verts: VertexBlock, group: MeshGroup, t: u32, next: nat)
    returns (g: RawGroup)
    requires |verts.positions| == 3 * verts.count
    requires verts.colors.Some? ==> |verts.colors.value| == 3 * verts.count
    requires ParseGroup(buf, pos, verts) == Success(At((group, t), next))
    ensures GroupWellFormed(g, verts.count)
    ensures next == pos + EndGroupOffset(g) + 8 <= |buf|
    ensures Prefix(buf, pos, GroupBody(g))
    ensures WordAt(buf, next - 4) == t
    ensures group == Expanded(g, verts)
  {
    var s, indices, t1, mid, uvs, normals := ParseGroupParts(buf, pos, verts, group, t, next);
    g := GroupOfPieces(buf, pos, verts, group, t, next, s, indices, t1, mid, uvs, normals);
  }

  /** The group made of what ParseGroupHead, ParseGroupTail and ExpandGroup
      returned. */
  lemma GroupOfPieces(buf: seq<byte>, pos: nat, verts: VertexBlock, group: MeshGroup, t: u32, next: nat,
                      s: string, indices: seq<u32>, t1: u32, mid: nat, uvs: Option<seq<u32>>, normals: Option<seq<u32>>)
    returns (g: RawGroup)
    requires |verts.positions| == 3 * verts.count
    requires verts.colors.Some? ==> |verts.colors.value| == 3 * verts.count
    requires ParseGroupHead(buf, pos) == Success(At((s, indices, t1), mid))
    requires 4 <= mid
    requires ParseGroupTail(buf, mid, t1, |indices| / 3) == Success(At((uvs, normals, t), next))
    requires ExpandGroup(s, indices, normals, uvs, verts) == Success(group)
    ensures GroupWellFormed(g, verts.count)
    ensures next == pos + EndGroupOffset(g) + 8 <= |buf|
    ensures Prefix(buf, pos, GroupBody(g))
    ensures WordAt(buf, next - 4) == t
    ensures group == Expanded(g, verts)
  {
    g := GroupBytes(buf, pos, t, next, s, indices, t1, mid, uvs, normals);
    ExpandedOf(g, verts, group);
  }

  /** The bytes of a group ParseGroupHead and ParseGroupTail read: the
      writer's body of the group they make. */
  lemma GroupBytes(buf: seq<byte>, pos: nat, t: u32, next: nat,
                   s: string, indices: seq<u32>, t1: u32, mid: nat, uvs: Option<seq<u32>>, normals: Option<seq<u32>>)
    returns (g: RawGroup)
    requires ParseGroupHead(buf, pos) == Success(At((s, indices, t1), mid))
    requires 4 <= mid
    requires ParseGroupTail(buf, mid, t1, |indices| / 3) == Success(At((uvs, normals, t), next))
    ensures g.indices == indices && g.uvs == uvs && g.normals == normals && NameString(g.name) == s
    ensures |indices| % 3 == 0 && FacesFit(g) && AttributesFit(g)
    ensures g.name.Some? ==> |g.name.value| < 0x1_0000_0000
    ensures uvs.Some? ==> |uvs.value| == UVs.Words(|indices|)
    ensures normals.Some? ==> |normals.value| == Normals.Words(|indices|)
    ensures next == pos + EndGroupOffset(g) + 8 <= |buf|
    ensures Prefix(buf, pos, GroupBody(g))
    ensures WordAt(buf, next - 4) == t
  {
    var name, uvsEnd, e := GroupHeadTail(buf, pos, t, next, s, indices, t1, mid, uvs, normals);
    g := RawGroup(name, indices, uvs, normals);
    GroupOfParts(buf, pos, mid, uvsEnd, e, g, |indices| / 3);
  }

  /** The head and the three parts of the tail of a group, each as the
      writer's bytes. */
  lemma GroupHeadTail(buf: seq<byte>, pos: nat, t: u32, next: nat,
                      s: string, indices: seq<u32>, t1: u32, mid: nat, uvs: Option<seq<u32>>, normals: Option<seq<u32>>)
    returns (name: Option<seq<byte>>, uvsEnd: nat, e: nat)
    requires ParseGroupHead(buf, pos) == Success(At((s, indices, t1), mid))
    requires 4 <= mid
    requires ParseGroupTail(buf, mid, t1, |indices| / 3) == Success(At((uvs, normals, t), next))
    ensures name.Some? ==> |name.value| < 0x1_0000_0000
    ensures NameString(name) == s
    ensures |indices| % 3 == 0 && |indices| / 3 < 0x1_0000_0000
    ensures uvs.Some? || normals.Some? ==> |indices| < 0x1_0000_0000
    ensures uvs.Some? ==> |uvs.value| == UVs.Words(|indices|)
    ensures normals.Some? ==> |normals.value| == Normals.Words(|indices|)
    ensures mid == pos + 4 + NameSize(name) + BlockSize(indices)
    ensures uvsEnd == mid + OptionalSize(uvs) && e == uvsEnd - 4 + OptionalSize(normals) && next == e + 8 <= |buf|
    ensures Prefix(buf, pos, EncodeName(name) + EncodeBlock(kStartFaces, |indices| / 3, indices, kEndFaces))
    ensures Prefix(buf, mid - 4, EncodeAttribute(UVs, |indices|, uvs))
    ensures Prefix(buf, uvsEnd - 4, EncodeAttribute(Normals, |indices|, normals))
    ensures Prefix(buf, e, U32Bytes(kEndGroup))
    ensures WordAt(buf, next - 4) == t
  {
    name := ParseGroupHeadPrefix(buf, pos, s, indices, t1, mid);
    var numTriangles: u32 := |indices| / 3;
    Thirds(|indices|, numTriangles);
    uvsEnd, e := ParseGroupTailPieces(buf, mid, t1, numTriangles, |indices|, uvs, normals, t, next);
  }

  /** A head, the two attributes and kEndGroup, read one after the other,
      make a group body. */
  lemma GroupOfParts(buf: seq<byte>, pos: nat, mid: nat, uvsEnd: nat, e: nat, g: RawGroup, numTriangles: u32)
    requires |g.indices| % 3 == 0 && numTriangles == |g.indices| / 3
    requires g.name.Some? ==> |g.name.value| < 0x1_0000_0000
    requires g.uvs.Some? || g.normals.Some? ==> |g.indices| < 0x1_0000_0000
    requires mid == pos + 4 + NameSize(g.name) + BlockSize(g.indices)
    requires uvsEnd == mid + OptionalSize(g.uvs) && e == uvsEnd - 4 + OptionalSize(g.normals)
    requires Prefix(buf, pos, EncodeName(g.name) + EncodeBlock(kStartFaces, numTriangles, g.indices, kEndFaces))
    requires Prefix(buf, mid - 4, EncodeAttribute(UVs, |g.indices|, g.uvs))
    requires Prefix(buf, uvsEnd - 4, EncodeAttribute(Normals, |g.indices|, g.normals))
    requires Prefix(buf, e, U32Bytes(kEndGroup))
    ensures FacesFit(g) && AttributesFit(g)
    ensures Prefix(buf, pos, GroupBody(g))
  {
    TailOfParts(buf, mid - 4, uvsEnd - 4, e, |g.indices|, g.uvs, g.normals);
    PrefixJoin(buf, pos, mid - 4, GroupHead(g), GroupTail(g));
  }

  /** The expansion ParseGroup performs is the expected one. */
  lemma ExpandedOf(g: RawGroup, verts: VertexBlock, group: MeshGroup)
    requires |verts.positions| == 3 * verts.count
    requires verts.colors.Some? ==> |verts.colors.value| == 3 * verts.count
    requires ExpandGroup(NameString(g.name), g.indices, g.normals, g.uvs, verts) == Success(group)
    ensures AllIndicesInRange(g.indices, verts.count)
    ensures group == Expanded(g, verts)
  {
  }

  /** One turn of the group loop, taken apart. */
  lemma ParseGroupsParts(buf: seq<byte>, pos: nat, verts: VertexBlock, groups: seq<MeshGroup>)
    returns (group: MeshGroup, t: u32, next: nat, rest: seq<MeshGroup>)
    requires 4 <= pos <= |buf|
    requires |verts.positions| == 3 * verts.count
    requires verts.colors.Some? ==> |verts.colors.value| == 3 * verts.count
    requires ParseGroups(buf, pos, kStartGroup, verts) == Success(groups)
    ensures ParseGroup(buf, pos, verts) == Success(At((group, t), next))
    ensures pos < next <= |buf|
    ensures ParseGroups(buf, next, t, verts) == Success(rest)
    ensures groups == [group] + rest
  {
    var g := ParseGroup(buf, pos, verts).value;
    group, t, next := g.value.0, g.value.1, g.next;
    rest := ParseGroups(buf, next, t, verts).value;
    assert ParseGroups(buf, pos, kStartGroup, verts) == Success([group] + rest);
  }

  /** A group put in front of a well-formed list of groups. */
  lemma GroupsCons(g: RawGroup, rest: seq<RawGroup>, verts: VertexBlock)
    requires |verts.positions| == 3 * verts.count
    requires verts.colors.Some? ==> |verts.colors.value| == 3 * verts.count
    requires GroupWellFormed(g, verts.count) && GroupsWellFormed(rest, verts.count)
    ensures GroupsWellFormed([g] + rest, verts.count)
    ensures EncodeGroups([g] + rest, verts.count) == U32Bytes(kStartGroup) + GroupBody(g) + EncodeGroups(rest, verts.count)
    ensures ExpandedAll([g] + rest, verts) == [Expanded(g, verts)] + ExpandedAll(rest, verts)
  {
    var gs := [g] + rest;
    assert gs[0] == g && gs[1..] == rest;
    EncodeGroupsCons(gs, verts.count);
  }

  /** The groups the reader accepted, from the token at `pos - 4` to
      kEndBmf, are the writer's encoding of well-formed groups, and decode
      to those groups expanded, in order. */
  lemma {:induction false} ParseGroupsPrefix(buf: seq<byte>, pos: nat, token: u32, verts: VertexBlock,
                                             groups: seq<MeshGroup>)
    returns (gs: seq<RawGroup>)
    requires 4 <= pos <= |buf| && WordAt(buf, pos - 4) == token
    requires |verts.positions| == 3 * verts.count
    requires verts.colors.Some? ==> |verts.colors.value| == 3 * verts.count
    requires ParseGroups(buf, pos, token, verts) == Success(groups)
    ensures GroupsWellFormed(gs, verts.count)
    ensures Prefix(buf, pos - 4, EncodeGroups(gs, verts.count))
    ensures groups == ExpandedAll(gs, verts)
    decreases |buf| - pos
  {
    WordPrefix(buf, pos - 4);
    if token == kStartGroup {
      var group, t, next, decoded := ParseGroupsParts(buf, pos, verts, groups);
      var first := ParseGroupPrefix(buf, pos, verts, group, t, next);
      var rest := ParseGroupsPrefix(buf, next, t, verts, decoded);
      gs := GroupsStep(buf, pos, next, verts, first, rest, groups);
    } else {
      gs := [];
    }
  }

  /** The groups read so far, grown by the group just read. */
  lemma GroupsStep(buf: seq<byte>, pos: nat, next: nat, verts: VertexBlock, first: RawGroup, rest: seq<RawGroup>,
                   groups: seq<MeshGroup>)
    returns (gs: seq<RawGroup>)
    requires 4 <= pos
    requires |verts.positions| == 3 * verts.count
    requires verts.colors.Some? ==> |verts.colors.value| == 3 * verts.count
    requires GroupWellFormed(first, verts.count) && GroupsWellFormed(rest, verts.count)
    requires next == pos + EndGroupOffset(first) + 8
    requires Prefix(buf, pos - 4, U32Bytes(kStartGroup))
    requires Prefix(buf, pos, GroupBody(first))
    requires Prefix(buf, next - 4, EncodeGroups(rest, verts.count))
    requires groups == [Expanded(first, verts)] + ExpandedAll(rest, verts)
    ensures GroupsWellFormed(gs, verts.count)
    ensures Prefix(buf, pos - 4, EncodeGroups(gs, verts.count))
    ensures groups == ExpandedAll(gs, verts)
  {
    GroupsCons(first, rest, verts);
    GroupsJoin(buf, pos, next, verts.count, first, rest);
    gs := [first] + rest;
  }

  /** kStartGroup, a group body and the groups after it, found one after
      the other. */
  lemma GroupsJoin(buf: seq<byte>, pos: nat, next: nat, numVerts: nat, first: RawGroup, rest: seq<RawGroup>)
    requires 4 <= pos
    requires first.name.Some? ==> |first.name.value| < 0x1_0000_0000
    requires FacesFit(first) && AttributesFit(first) && GroupsWellFormed(rest, numVerts)
    requires next == pos + EndGroupOffset(first) + 8
    requires Prefix(buf, pos - 4, U32Bytes(kStartGroup))
    requires Prefix(buf, pos, GroupBody(first))
    requires Prefix(buf, next - 4, EncodeGroups(rest, numVerts))
    ensures Prefix(buf, pos - 4, U32Bytes(kStartGroup) + GroupBody(first) + EncodeGroups(rest, numVerts))
  {
    PrefixJoin3(buf, pos - 4, pos, next - 4, U32Bytes(kStartGroup), GroupBody(first), EncodeGroups(rest, numVerts));
  }

  // ---------------------------------------------------------------------
  // The whole buffer

  lemma ParseVerticesPrefix(buf: seq<byte>, n: u32, positions: seq<u32>, next: nat)
    requires ParseVertices(buf) == Success(At((n, positions), next))
    ensures next == 4 + BlockSize(positions)
    ensures Prefix(buf, 0, U32Bytes(kStartBmf) + EncodeBlock(kStartVertices, n, positions, kEndVertices))
  {
    assert ReadWords(buf, 12, 3 * n) == Success(At(positions, 12 + 12 * n));
    assert BlockAt(buf, 4, kStartVertices, n, positions, kEndVertices);
    BlockPrefix(buf, 4, kStartVertices, n, positions, kEndVertices);
    WordPrefix(buf, 0);
    PrefixJoin(buf, 0, 4, U32Bytes(kStartBmf), EncodeBlock(kStartVertices, n, positions, kEndVertices));
  }

  /** What ParseBinary read: the vertices, the colours, then the groups. */
  lemma ParseBinaryParts(buf: seq<byte>, groups: seq<MeshGroup>)
    returns (n: u32, positions: seq<u32>, pC: nat, colors: Option<seq<u32>>, t: u32, pG: nat)
    requires ParseBinary(buf) == Success(groups)
    ensures ParseVertices(buf) == Success(At((n, positions), pC))
    ensures pC + 4 <= |buf|
    ensures ParseColors(buf, pC + 4, WordAt(buf, pC), n) == Success(At((colors, t), pG))
    ensures |positions| == 3 * n && (colors.Some? ==> |colors.value| == 3 * n)
    ensures 4 <= pG <= |buf|
    ensures ParseGroups(buf, pG, t, VertexBlock(n, positions, colors)) == Success(groups)
  {
    var c;
    n, positions, pC, c := ParseBinaryVertices(buf, groups);
    colors, t, pG := c.value.0, c.value.1, c.next;
  }

  /** The first stage of ParseBinaryParts: the vertex block, and the cursor
      after the colours, from which the groups are read. */
  lemma ParseBinaryVertices(buf: seq<byte>, groups: seq<MeshGroup>)
    returns (n: u32, positions: seq<u32>, pC: nat, c: Cursor<(Option<seq<u32>>, u32)>)
    requires ParseBinary(buf) == Success(groups)
    ensures ParseVertices(buf) == Success(At((n, positions), pC))
    ensures pC + 4 <= |buf|
    ensures ParseColors(buf, pC + 4, WordAt(buf, pC), n) == Success(c)
    ensures ParseGroups(buf, c.next, c.value.1, VertexBlock(n, positions, c.value.0)) == Success(groups)
  {
    var v := ParseVertices(buf).value;
    n, positions, pC := v.value.0, v.value.1, v.next;
    var word := ReadU32(buf, pC).value;
    assert word == At(WordAt(buf, pC), pC + 4);
    c := ParseColors(buf, word.next, word.value, n).value;
    assert ParseBinary(buf) == ParseGroups(buf, c.next, c.value.1, VertexBlock(n, positions, c.value.0));
  }

  /** The magic, the vertex block, the colours and the groups, one after the
      other from the start of the buffer, are the encoding of a mesh. */
  lemma MeshOfParts(buf: seq<byte>, m: RawMesh, n: u32, pC: nat, pG: nat)
    requires WellFormed(m) && n == |m.positions| / 3
    requires pC == ColorsOffset(m) && pG == GroupsOffset(m)
    requires Prefix(buf, 0, U32Bytes(kStartBmf) + EncodeBlock(kStartVertices, n, m.positions, kEndVertices))
    requires Prefix(buf, pC, EncodeOptional(kStartRGBs, n, m.colors, kEndRGBs))
    requires Prefix(buf, pG, EncodeGroups(m.groups, n))
    ensures Encode(m) <= buf
  {
    PrefixJoin3(buf, 0, pC, pG, U32Bytes(kStartBmf) + EncodeBlock(kStartVertices, n, m.positions, kEndVertices),
                EncodeOptional(kStartRGBs, n, m.colors, kEndRGBs), EncodeGroups(m.groups, n));
    PrefixAtStart(buf, Encode(m));
  }

  /** What ParseBinary read before the groups, as the writer's bytes. */
  lemma ParseBinaryPrefix(buf: seq<byte>, groups: seq<MeshGroup>)
    returns (n: u32, positions: seq<u32>, colors: Option<seq<u32>>, pC: nat, t: u32, pG: nat)
    requires ParseBinary(buf) == Success(groups)
    ensures |positions| == 3 * n && (colors.Some? ==> |colors.value| == 3 * n)
    ensures pC == 4 + BlockSize(positions) && pG == pC + 4 + OptionalSize(colors) <= |buf|
    ensures Prefix(buf, 0, U32Bytes(kStartBmf) + EncodeBlock(kStartVertices, n, positions, kEndVertices))
    ensures Prefix(buf, pC, EncodeOptional(kStartRGBs, n, colors, kEndRGBs))
    ensures WordAt(buf, pG - 4) == t
    ensures ParseGroups(buf, pG, t, VertexBlock(n, positions, colors)) == Success(groups)
  {
    n, positions, pC, colors, t, pG := ParseBinaryParts(buf, groups);
    ParseVerticesPrefix(buf, n, positions, pC);
    ParseColorsPrefix(buf, pC + 4, WordAt(buf, pC), n, colors, t, pG);
  }

  /** The indexed mesh made of the parts the reader found. */
  lemma MeshOf(n: u32, positions: seq<u32>, colors: Option<seq<u32>>, gs: seq<RawGroup>) returns (m: RawMesh)
    requires |positions| == 3 * n && (colors.Some? ==> |colors.value| == 3 * n)
    requires GroupsWellFormed(gs, n)
    ensures m == RawMesh(positions, colors, gs) && |positions| / 3 == n
    ensures WellFormed(m) && Vertices(m) == VertexBlock(n, positions, colors)
  {
    Thirds(|positions|, n);
    m := RawMesh(positions, colors, gs);
  }

  /** The mesh a decoded buffer begins with. */
  lemma EncodedMesh(buf: seq<byte>, groups: seq<MeshGroup>) returns (m: RawMesh)
    requires ParseBinary(buf) == Success(groups)
    ensures WellFormed(m) && Encode(m) <= buf && groups == ExpandedAll(m.groups, Vertices(m))
  {
    var n, positions, colors, pC, t, pG := ParseBinaryPrefix(buf, groups);
    var gs := ParseGroupsPrefix(buf, pG, t, VertexBlock(n, positions, colors), groups);
    m := MeshOf(n, positions, colors, gs);
    MeshOfParts(buf, m, n, pC, pG - 4);
  }

  /** Every buffer the decoder accepts begins with the encoding of a
      well-formed indexed mesh, and decodes to that mesh's groups expanded
      against its vertices: together with `DecodeEncode`, decoding is
      exactly the inverse of writing, up to the bytes after kEndBmf. */
  lemma DecodeComplete(buf: seq<byte>)
    requires ParseBinary(buf).Success?
    ensures exists m :: WellFormed(m) && Encode(m) <= buf && ParseBinary(buf).value == ExpandedAll(m.groups, Vertices(m))
  {
    var m := EncodedMesh(buf, ParseBinary(buf).value);
  }
}
