/** The BMF ("Binary Mesh Format") decoder.

    The format is a little-endian stream of 32-bit words: tagged blocks in a
    fixed order (vertices, optional per-vertex RGB colours, zero or more groups
    each with an optional material name, indexed faces, optional UVs and
    optional normals) closed by an end-of-file token.

    The decoder threads a byte cursor through the buffer and returns a
    `Result`.  Two kinds of failure exist:
    - a read that would run past the end of the buffer (`Truncated`) -- the
      DataView read in `BMFLoader.parseBinary` throws in that case;
    - every structural check (token, count, vertex index), which
      `BMFLoader.parseBinary` only logs before carrying on; here each one
      stops the decode.

    Float payloads (positions, colours, UVs, normals) are never computed on,
    only copied, so they are kept as opaque 32-bit words. */
module BmfLoader {
  import opened Wrappers
  import opened Bytes

  /** A JavaScript string element: a UTF-16 code unit. */
  type CodeUnit = x: int | 0 <= x < 0x1_0000

  const kStartBmf: u32      := 0x424d4630 // BMF0
  const kEndBmf: u32        := 0x464d4230 // FMB0
  const kStartVertices: u32 := 0x536f5630 // SoV0
  const kEndVertices: u32   := 0x456f5630 // EoV0
  const kStartRGBs: u32     := 0x536f4330 // SoC0
  const kEndRGBs: u32       := 0x456f4330 // EoC0
  const kStartGroup: u32    := 0x536f4730 // SoG0
  const kEndGroup: u32      := 0x456f4730 // EoG0
  const kMaterialName: u32  := 0x4d617430 // Mat0
  const kStartFaces: u32    := 0x536f4630 // SoF0
  const kEndFaces: u32      := 0x456f4630 // EoF0
  const kStartUVs: u32      := 0x536f5530 // SoU0
  const kEndUVs: u32        := 0x456f5530 // EoU0
  const kStartNormals: u32  := 0x536f4E30 // SoN0
  const kEndNormals: u32    := 0x456f4E30 // EoN0

  datatype DecodeError =
    | Truncated
    | UnexpectedToken(offset: nat, expected: u32, actual: u32)
    | CountMismatch(declared: int, required: int)
    | VertexIndexOutOfRange(index: u32)

  /** A value read from the buffer together with the cursor just past it. */
  datatype Cursor<T> = At(value: T, next: nat)

  /** One decoded group: a self-contained, unindexed triangle soup.  `name`
      names both the mesh and its material. */
  datatype MeshGroup = MeshGroup(
    name: string,
    positions: seq<u32>,
    normals: Option<seq<u32>>,
    uvs: Option<seq<u32>>,
    colors: Option<seq<u32>>)

  /** The shared vertex block every group indexes into. */
  datatype VertexBlock = VertexBlock(count: u32, positions: seq<u32>, colors: Option<seq<u32>>)

  /** The input accepted by `parse`: either a binary buffer or a string. */
  datatype Input = Text(units: seq<CodeUnit>) | Binary(bytes: seq<byte>)

  // ---------------------------------------------------------------------
  // Input normalisation

  /** A string becomes one byte per code unit, keeping the low 8 bits. */
  function EnsureBinary(data: Input): (r: seq<byte>)
    ensures data.Binary? ==> r == data.bytes
    ensures data.Text? ==> |r| == |data.units|
    ensures data.Text? ==> forall i :: 0 <= i < |r| ==> r[i] == data.units[i] % 256
  {
    match data
    case Binary(bytes) => bytes
    case Text(units) => seq(|units|, i requires 0 <= i < |units| => units[i] % 256)
  }

  /** The string whose code units are exactly the given bytes. */
  function BytesAsText(bytes: seq<byte>): (r: Input)
    ensures r.Text? && |r.units| == |bytes|
  {
    Text(seq(|bytes|, i requires 0 <= i < |bytes| => bytes[i]))
  }

  /** A byte string (every code unit below 256) converts to the same bytes as
      the binary buffer holding them. */
  lemma EnsureBinaryOfByteString(bytes: seq<byte>)
    ensures EnsureBinary(BytesAsText(bytes)) == EnsureBinary(Binary(bytes))
  {
    var r := EnsureBinary(BytesAsText(bytes));
    assert |r| == |bytes|;
    forall i | 0 <= i < |r| ensures r[i] == bytes[i] {
      assert BytesAsText(bytes).units[i] == bytes[i];
    }
  }

  // ---------------------------------------------------------------------
  // Primitive reads

  /** The little-endian 32-bit word stored at byte offset `p`. */
  function WordAt(buf: seq<byte>, p: nat): u32
    requires p + 4 <= |buf|
  {
    buf[p] as int + 256 * buf[p + 1] as int + 65536 * buf[p + 2] as int + 16777216 * buf[p + 3] as int
  }

  /** decode_u32 (and decode_f32, on the raw bits): four bytes, cursor + 4. */
  function ReadU32(buf: seq<byte>, pos: nat): (r: Result<Cursor<u32>, DecodeError>)
    ensures r.Success? <==> pos + 4 <= |buf|
    ensures r.Success? ==> r.value.next == pos + 4 && r.value.value == WordAt(buf, pos)
    ensures r.Failure? ==> r.error == Truncated
  {
    if pos + 4 <= |buf| then Success(At(WordAt(buf, pos), pos + 4)) else Failure(Truncated)
  }

  /** decode_u32_array / decode_f32_array: `count` consecutive words, read
      one after the other. */
  function ReadWords(buf: seq<byte>, pos: nat, count: nat): (r: Result<Cursor<seq<u32>>, DecodeError>)
    requires pos <= |buf|
    ensures r.Success? <==> pos + 4 * count <= |buf|
    ensures r.Success? ==> r.value.next == pos + 4 * count && |r.value.value| == count
    ensures r.Failure? ==> r.error == Truncated
    decreases count
  {
    if count == 0 then Success(At([], pos))
    else
      var w :- ReadU32(buf, pos);
      var rest :- ReadWords(buf, w.next, count - 1);
      Success(At([w.value] + rest.value, rest.next))
  }

  /** Word `j` of what ReadWords returns is the word at byte `pos + 4j`. */
  lemma {:induction false} ReadWordsReadsEachWord(buf: seq<byte>, pos: nat, count: nat)
    requires pos + 4 * count <= |buf|
    ensures forall j :: 0 <= j < count ==> ReadWords(buf, pos, count).value.value[j] == WordAt(buf, pos + 4 * j)
    decreases count
  {
    if count > 0 {
      ReadWordsReadsEachWord(buf, pos + 4, count - 1);
      var ws := ReadWords(buf, pos, count).value.value;
      var rest := ReadWords(buf, pos + 4, count - 1).value.value;
      assert ws == [WordAt(buf, pos)] + rest;
      forall j | 0 <= j < count ensures ws[j] == WordAt(buf, pos + 4 * j) {
        if j > 0 {
          assert ws[j] == rest[j - 1];
          assert pos + 4 + 4 * (j - 1) == pos + 4 * j;
        }
      }
    }
  }

  /** decode_string: a u32 length, then that many single-byte characters. */
  function ReadString(buf: seq<byte>, pos: nat): (r: Result<Cursor<string>, DecodeError>)
    ensures r.Success? ==> pos + 4 <= |buf| && r.value.next == pos + 4 + WordAt(buf, pos) <= |buf|
    ensures r.Success? ==> |r.value.value| == WordAt(buf, pos)
    ensures r.Success? ==> forall j :: 0 <= j < |r.value.value| ==> r.value.value[j] as int == buf[pos + 4 + j]
  {
    var len :- ReadU32(buf, pos);
    if len.next + len.value <= |buf| then
      Success(At(seq(len.value, j requires 0 <= j < len.value => buf[len.next + j] as char), len.next + len.value))
    else
      Failure(Truncated)
  }

  /** A token read at `pos` that must equal `token`. */
  function Expect(buf: seq<byte>, pos: nat, token: u32): (r: Result<nat, DecodeError>)
    ensures r.Success? <==> pos + 4 <= |buf| && WordAt(buf, pos) == token
    ensures r.Success? ==> r.value == pos + 4
  {
    var t :- ReadU32(buf, pos);
    if t.value == token then Success(t.next) else Failure(UnexpectedToken(pos, token, t.value))
  }

  // ---------------------------------------------------------------------
  // Index expansion

  /** The vertex-index check the expansion needs: index `idx` names one of
      the `count` vertices, so all three of its words exist. */
  predicate IndexInRange(idx: u32, count: nat) {
    idx < count
  }

  predicate AllIndicesInRange(indices: seq<u32>, count: nat) {
    forall i :: 0 <= i < |indices| ==> IndexInRange(indices[i], count)
  }

  /** The first index that fails the check, if any. */
  function FirstBadIndex(indices: seq<u32>, count: nat): (r: Option<nat>)
    ensures r.None? <==> AllIndicesInRange(indices, count)
    ensures r.Some? ==> r.value < |indices| && !IndexInRange(indices[r.value], count)
    ensures r.Some? ==> forall i :: 0 <= i < r.value ==> IndexInRange(indices[i], count)
  {
    if |indices| == 0 then None
    else if !IndexInRange(indices[0], count) then Some(0)
    else match FirstBadIndex(indices[1..], count)
      case None => None
      case Some(k) => Some(k + 1)
  }

  /** Turns indexed triangles into per-triangle-vertex data: word `j` of the
      result is word `j % 3` of vertex `indices[j / 3]`, i.e. word
      `3*indices[i]+k` of `attr` lands at `3i+k`. */
  function Expand(indices: seq<u32>, attr: seq<u32>): (r: seq<u32>)
    requires AllIndicesInRange(indices, |attr| / 3)
    ensures |r| == 3 * |indices|
    ensures forall j :: 0 <= j < |r| ==> r[j] == attr[3 * (indices[j / 3] as int) + j % 3]
  {
    seq(3 * |indices|, j requires 0 <= j < 3 * |indices| => attr[3 * (indices[j / 3] as int) + j % 3])
  }

  // ---------------------------------------------------------------------
  // Blocks

  /** The optional RGB block.  `token` is the word already read at `pos - 4`;
      returns the colours (if any) and the next token with its cursor. */
  function ParseColors(buf: seq<byte>, pos: nat, token: u32, numVerts: u32)
    : (r: Result<Cursor<(Option<seq<u32>>, u32)>, DecodeError>)
    requires pos <= |buf|
    ensures r.Success? ==> pos <= r.value.next <= |buf|
    ensures r.Success? && token != kStartRGBs ==> r.value == At((None, token), pos)
    ensures r.Success? && token == kStartRGBs ==>
      r.value.next > pos && r.value.value.0.Some? && |r.value.value.0.value| == 3 * numVerts
  {
    if token != kStartRGBs then Success(At((None, token), pos))
    else
      var n :- ReadU32(buf, pos);
      if n.value != numVerts then Failure(CountMismatch(n.value, numVerts))
      else
        var cols :- ReadWords(buf, n.next, 3 * n.value);
        var afterEnd :- Expect(buf, cols.next, kEndRGBs);
        var next :- ReadU32(buf, afterEnd);
        Success(At((Some(cols.value), next.value), next.next))
  }

  /** The two optional per-triangle-vertex attributes of a group. */
  datatype Attribute = UVs | Normals {
    function StartToken(): u32 {
      match this
      case UVs => kStartUVs
      case Normals => kStartNormals
    }

    function EndToken(): u32 {
      match this
      case UVs => kEndUVs
      case Normals => kEndNormals
    }

    /** Words stored for `n` items: two per UV, three per normal. */
    function Words(n: nat): nat {
      match this
      case UVs => 2 * n
      case Normals => 3 * n
    }
  }

  /** An optional counted attribute block: its start token, a count that
      must equal `3 * numTriangles`, the items, then its end token.  `token`
      is the word already read at `pos - 4`; returns the items (if present)
      and the next token. */
  function ParseAttribute(buf: seq<byte>, pos: nat, token: u32, kind: Attribute, numTriangles: u32)
    : (r: Result<Cursor<(Option<seq<u32>>, u32)>, DecodeError>)
    ensures r.Success? && token != kind.StartToken() ==> r.value == At((None, token), pos)
    ensures r.Success? && token == kind.StartToken() ==>
      pos < r.value.next <= |buf| && r.value.value.0.Some? && |r.value.value.0.value| == kind.Words(3 * numTriangles)
  {
    if token != kind.StartToken() then Success(At((None, token), pos))
    else
      var n :- ReadU32(buf, pos);
      if n.value != 3 * numTriangles then Failure(CountMismatch(n.value, 3 * numTriangles))
      else
        var items :- ReadWords(buf, n.next, kind.Words(n.value));
        var afterEnd :- Expect(buf, items.next, kind.EndToken());
        var next :- ReadU32(buf, afterEnd);
        Success(At((Some(items.value), next.value), next.next))
  }

  /** The optional material name; defaults to the empty string. */
  function ParseMaterialName(buf: seq<byte>, pos: nat, token: u32)
    : (r: Result<Cursor<(string, u32)>, DecodeError>)
    ensures r.Success? && token != kMaterialName ==> r.value == At(("", token), pos)
    ensures r.Success? && token == kMaterialName ==> pos < r.value.next <= |buf|
  {
    if token != kMaterialName then Success(At(("", token), pos))
    else
      var s :- ReadString(buf, pos);
      var next :- ReadU32(buf, s.next);
      Success(At((s.value, next.value), next.next))
  }

  /** The mandatory faces block.  `token` is the word already read at
      `pos - 4` and must be kStartFaces; returns the indices and the token
      following kEndFaces. */
  function ParseFaces(buf: seq<byte>, pos: nat, token: u32)
    : (r: Result<Cursor<(seq<u32>, u32)>, DecodeError>)
    requires 4 <= pos
    ensures r.Success? ==> pos < r.value.next <= |buf|
    ensures r.Success? ==> |r.value.value.0| % 3 == 0 && |r.value.value.0| / 3 < 0x1_0000_0000
  {
    if token != kStartFaces then Failure(UnexpectedToken(pos - 4, kStartFaces, token))
    else
      var numTriangles :- ReadU32(buf, pos);
      var indices :- ReadWords(buf, numTriangles.next, 3 * numTriangles.value);
      var afterEnd :- Expect(buf, indices.next, kEndFaces);
      var next :- ReadU32(buf, afterEnd);
      Success(At((indices.value, next.value), next.next))
  }

  /** `token`, read at `pos - 4`, must close the current block; the word
      after it is read as the next token. */
  function CloseBlock(buf: seq<byte>, pos: nat, token: u32, closing: u32)
    : (r: Result<Cursor<u32>, DecodeError>)
    requires 4 <= pos
    ensures r.Success? <==> token == closing && pos + 4 <= |buf|
    ensures r.Success? ==> r.value == At(WordAt(buf, pos), pos + 4)
  {
    if token != closing then Failure(UnexpectedToken(pos - 4, closing, token))
    else ReadU32(buf, pos)
  }

  /** The conversion step: every index must name a vertex, then positions
      (and colours, when the file has them) are expanded per triangle
      vertex.  UVs and normals are already per triangle vertex. */
  function ExpandGroup(name: string, indices: seq<u32>, normals: Option<seq<u32>>,
                       uvs: Option<seq<u32>>, verts: VertexBlock)
    : (r: Result<MeshGroup, DecodeError>)
    requires |verts.positions| == 3 * verts.count
    requires verts.colors.Some? ==> |verts.colors.value| == 3 * verts.count
    ensures r.Success? <==> AllIndicesInRange(indices, verts.count)
    ensures r.Success? ==> r.value.name == name && r.value.normals == normals && r.value.uvs == uvs
    ensures r.Success? ==> |r.value.positions| == 3 * |indices|
    ensures r.Success? ==> r.value.positions == Expand(indices, verts.positions)
    ensures r.Success? ==> (r.value.colors.Some? <==> verts.colors.Some?)
    ensures r.Success? && verts.colors.Some? ==> r.value.colors.value == Expand(indices, verts.colors.value)
    ensures r.Success? && verts.colors.Some? ==> |r.value.colors.value| == 3 * |indices|
    ensures r.Failure? ==> r.error.VertexIndexOutOfRange? && !IndexInRange(r.error.index, verts.count)
  {
    match FirstBadIndex(indices, verts.count)
    case Some(i) => Failure(VertexIndexOutOfRange(indices[i]))
    case None =>
      var colors := match verts.colors
        case None => None
        case Some(c) => Some(Expand(indices, c));
      Success(MeshGroup(name, Expand(indices, verts.positions), normals, uvs, colors))
  }

  /** The leading part of a group: the optional material name and the
      faces.  Returns the name, the indices and the token after kEndFaces. */
  function ParseGroupHead(buf: seq<byte>, pos: nat)
    : (r: Result<Cursor<(string, seq<u32>, u32)>, DecodeError>)
    ensures r.Success? ==> pos < r.value.next <= |buf|
    ensures r.Success? ==> |r.value.value.1| % 3 == 0 && |r.value.value.1| / 3 < 0x1_0000_0000
  {
    var first :- ReadU32(buf, pos);
    var named :- ParseMaterialName(buf, first.next, first.value);
    var faces :- ParseFaces(buf, named.next, named.value.1);
    Success(At((named.value.0, faces.value.0, faces.value.1), faces.next))
  }

  /** The trailing part of a group: optional UVs, optional normals and
      kEndGroup.  `token` is the word already read at `pos - 4`; returns the
      UVs, the normals and the token after kEndGroup. */
  function ParseGroupTail(buf: seq<byte>, pos: nat, token: u32, numTriangles: u32)
    : (r: Result<Cursor<(Option<seq<u32>>, Option<seq<u32>>, u32)>, DecodeError>)
    requires 4 <= pos
    ensures r.Success? ==> pos < r.value.next <= |buf|
  {
    var uvs :- ParseAttribute(buf, pos, token, UVs, numTriangles);
    var normals :- ParseAttribute(buf, uvs.next, uvs.value.1, Normals, numTriangles);
    var next :- CloseBlock(buf, normals.next, normals.value.1, kEndGroup);
    Success(At((uvs.value.0, normals.value.0, next.value), next.next))
  }

  /** One group, read from just after its kStartGroup token up to and
      including the token that follows its kEndGroup; the faces are then
      expanded against the vertex block. */
  function ParseGroup(buf: seq<byte>, pos: nat, verts: VertexBlock)
    : (r: Result<Cursor<(MeshGroup, u32)>, DecodeError>)
    requires |verts.positions| == 3 * verts.count
    requires verts.colors.Some? ==> |verts.colors.value| == 3 * verts.count
    ensures r.Success? ==> pos < r.value.next <= |buf|
    ensures r.Success? ==> (r.value.value.0.colors.Some? <==> verts.colors.Some?)
    ensures r.Success? && verts.colors.Some? ==>
      |r.value.value.0.colors.value| == |r.value.value.0.positions|
  {
    var head :- ParseGroupHead(buf, pos);
    var tail :- ParseGroupTail(buf, head.next, head.value.2, |head.value.1| / 3);
    var group :- ExpandGroup(head.value.0, head.value.1, tail.value.1, tail.value.0, verts);
    Success(At((group, tail.value.2), tail.next))
  }

  /** The check as `BMFLoader.parseBinary` writes it: the index is compared with the
      number of position WORDS (three per vertex), not with the number of
      vertices. */
  predicate IndexCheckAsWritten(idx: u32, positions: seq<u32>) {
    idx < |positions|
  }

  /** The written check lets through an index whose copy reads past the end
      of the positions: with `n` vertices, index `n` passes it, yet its first
      word would be word `3n`. */
  lemma AsWrittenCheckAdmitsOutOfRangeCopy(positions: seq<u32>)
    requires 3 <= |positions| < 3 * 0x1_0000_0000 && |positions| % 3 == 0
    ensures var idx: u32 := |positions| / 3;
      IndexCheckAsWritten(idx, positions) && !IndexInRange(idx, |positions| / 3) && 3 * idx >= |positions|
  {
  }

  /** The corrected check used by the model is stronger than the written one
      and keeps all three words of the copy inside the positions. */
  lemma CorrectedCheckKeepsCopyInBounds(idx: u32, positions: seq<u32>)
    requires |positions| % 3 == 0
    requires IndexInRange(idx, |positions| / 3)
    ensures IndexCheckAsWritten(idx, positions)
    ensures 3 * idx + 2 < |positions|
  {
  }

  /** A group whose faces name a vertex that does not exist fails to
      decode, and so does every run of groups that starts with it. */
  lemma BadIndexFailsDecode(buf: seq<byte>, pos: nat, verts: VertexBlock)
    requires 4 <= pos <= |buf|
    requires |verts.positions| == 3 * verts.count
    requires verts.colors.Some? ==> |verts.colors.value| == 3 * verts.count
    requires ParseGroupHead(buf, pos).Success?
    requires !AllIndicesInRange(ParseGroupHead(buf, pos).value.value.1, verts.count)
    ensures ParseGroup(buf, pos, verts).Failure?
    ensures ParseGroups(buf, pos, kStartGroup, verts).Failure?
  {
  }

  /** Every decoded mesh has colours iff the file has an RGB block, one
      colour word per position word. */
  lemma {:induction false} ParseGroupsColors(buf: seq<byte>, pos: nat, token: u32, verts: VertexBlock)
    requires 4 <= pos <= |buf|
    requires |verts.positions| == 3 * verts.count
    requires verts.colors.Some? ==> |verts.colors.value| == 3 * verts.count
    requires ParseGroups(buf, pos, token, verts).Success?
    ensures var gs := ParseGroups(buf, pos, token, verts).value;
      forall k :: 0 <= k < |gs| ==>
        && (gs[k].colors.Some? <==> verts.colors.Some?)
        && (gs[k].colors.Some? ==> |gs[k].colors.value| == |gs[k].positions|)
    decreases |buf| - pos
  {
    if token == kStartGroup {
      var g := ParseGroup(buf, pos, verts).value;
      ParseGroupsColors(buf, g.next, g.value.1, verts);
    }
  }

  /** Zero or more groups, then kEndBmf.  `token` is the word already read at
      `pos - 4`.  Bytes after kEndBmf are not looked at. */
  function ParseGroups(buf: seq<byte>, pos: nat, token: u32, verts: VertexBlock)
    : (r: Result<seq<MeshGroup>, DecodeError>)
    requires 4 <= pos <= |buf|
    requires |verts.positions| == 3 * verts.count
    requires verts.colors.Some? ==> |verts.colors.value| == 3 * verts.count
    ensures r.Success? && token != kStartGroup ==> token == kEndBmf && r.value == []
    ensures r.Success? && token == kStartGroup ==> |r.value| > 0
    decreases |buf| - pos
  {
    if token == kStartGroup then
      var g :- ParseGroup(buf, pos, verts);
      var rest :- ParseGroups(buf, g.next, g.value.1, verts);
      Success([g.value.0] + rest)
    else if token == kEndBmf then
      Success([])
    else
      Failure(UnexpectedToken(pos - 4, kEndBmf, token))
  }

  /** The file magic and the vertex block: returns the vertex count and the
      position words, with the cursor just past kEndVertices. */
  function ParseVertices(buf: seq<byte>): (r: Result<Cursor<(u32, seq<u32>)>, DecodeError>)
    ensures r.Success? ==> 16 <= r.value.next <= |buf| && |r.value.value.1| == 3 * r.value.value.0
    ensures r.Success? ==> WordAt(buf, 0) == kStartBmf && WordAt(buf, 4) == kStartVertices
  {
    var afterMagic :- Expect(buf, 0, kStartBmf);
    var afterStart :- Expect(buf, afterMagic, kStartVertices);
    var numVerts :- ReadU32(buf, afterStart);
    var positions :- ReadWords(buf, numVerts.next, 3 * numVerts.value);
    var afterEnd :- Expect(buf, positions.next, kEndVertices);
    Success(At((numVerts.value, positions.value), afterEnd))
  }

  /** parseBinary: the whole buffer, one mesh group per file group, in file
      order. */
  function ParseBinary(buf: seq<byte>): (r: Result<seq<MeshGroup>, DecodeError>)
    ensures r.Success? ==> 20 <= |buf| && WordAt(buf, 0) == kStartBmf && WordAt(buf, 4) == kStartVertices
  {
    var vertices :- ParseVertices(buf);
    var numVerts := vertices.value.0;
    var t :- ReadU32(buf, vertices.next);
    var colors :- ParseColors(buf, t.next, t.value, numVerts);
    ParseGroups(buf, colors.next, colors.value.1, VertexBlock(numVerts, vertices.value.1, colors.value.0))
  }

  /** parse: normalise the input to bytes, then decode. */
  function Parse(data: Input): Result<seq<MeshGroup>, DecodeError> {
    ParseBinary(EnsureBinary(data))
  }
}
