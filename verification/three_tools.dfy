/** The scene-graph helpers the viewer shares between its views: searching
    and clearing parts of the graph, disposing it, reading matrices,
    vectors and CSS colours, and mapping projected points to the canvas.

    A scene object is an immutable `Node`: its name, its position, the
    free-form `userData` record, the points of its geometry (for lines and
    point clouds; empty for groups) and its children in order.  Operations
    that change the graph in place return the changed node. */
module ThreeTools {
  import opened Wrappers
  import opened Vectors
  import opened JsValues
  import opened Feet
  import Seqs
  import Strings

  datatype Node = Node(
    name: string,
    position: Vec3,
    userData: map<string, Value>,
    points: seq<Vec3>,
    children: seq<Node>)

  /** A new group: no geometry, no children. */
  function Group(name: string): Node {
    Node(name, Origin, map[], [], [])
  }

  /** `parent.add(child)`: the child becomes the last one. */
  function AddChild(parent: Node, child: Node): (r: Node)
    ensures r.children == parent.children + [child]
    ensures r.(children := parent.children) == parent
  {
    parent.(children := parent.children + [child])
  }

  // ---------------------------------------------------------------------
  // Traversal and search

  /** `node.traverse(visit)` visits the node and then, in order, each
      child's subtree: the nodes in the order visited. */
  function Traverse(n: Node): (r: seq<Node>)
    ensures |r| >= 1 && r[0] == n
    decreases n, 1
  {
    [n] + TraverseChildren(n, 0)
  }

  /** The traversals of the children from the `i`-th on, one after the
      other. */
  function TraverseChildren(n: Node, i: nat): seq<Node>
    requires i <= |n.children|
    decreases n, 0, |n.children| - i
  {
    if i == |n.children| then [] else Traverse(n.children[i]) + TraverseChildren(n, i + 1)
  }

  function Named(name: string): Node -> bool {
    (n: Node) => n.name == name
  }

  /** `findAllByName(root, name)`: the visitor pushes each node it meets
      whose name matches. */
  function FindAllByName(n: Node, name: string): (r: seq<Node>)
    ensures forall i :: 0 <= i < |r| ==> r[i].name == name
    ensures n.name == name ==> |r| >= 1 && r[0] == n
    decreases n, 1
  {
    (if n.name == name then [n] else []) + FindInChildren(n, 0, name)
  }

  function FindInChildren(n: Node, i: nat, name: string): (r: seq<Node>)
    requires i <= |n.children|
    ensures forall j :: 0 <= j < |r| ==> r[j].name == name
    decreases n, 0, |n.children| - i
  {
    if i == |n.children| then [] else FindAllByName(n.children[i], name) + FindInChildren(n, i + 1, name)
  }

  /** The search returns exactly the traversal's nodes of that name, in
      traversal order. */
  lemma {:induction false} FindAllByNameIsFilter(n: Node, name: string)
    ensures FindAllByName(n, name) == Seqs.Filter(Named(name), Traverse(n))
    decreases n, 1
  {
    FindInChildrenIsFilter(n, 0, name);
    Seqs.FilterConcat(Named(name), [n], TraverseChildren(n, 0));
    assert Seqs.Filter(Named(name), [n]) == (if n.name == name then [n] else []) by {
      assert [n][1..] == [];
    }
  }

  lemma {:induction false} FindInChildrenIsFilter(n: Node, i: nat, name: string)
    requires i <= |n.children|
    ensures FindInChildren(n, i, name) == Seqs.Filter(Named(name), TraverseChildren(n, i))
    decreases n, 0, |n.children| - i
  {
    if i < |n.children| {
      FindAllByNameIsFilter(n.children[i], name);
      FindInChildrenIsFilter(n, i + 1, name);
      Seqs.FilterConcat(Named(name), Traverse(n.children[i]), TraverseChildren(n, i + 1));
    }
  }

  /** A node is found exactly when it is in the subtree and has the name. */
  lemma FindAllByNameMembers(n: Node, name: string, x: Node)
    ensures x in FindAllByName(n, name) <==> x in Traverse(n) && x.name == name
  {
    FindAllByNameIsFilter(n, name);
    Seqs.FilterMembers(Named(name), Traverse(n), x);
  }

  /** Changing the `userData` of every node of the subtree that has the
      given name, as a `forEach` over `findAllByName` does; nothing else
      changes. */
  function UpdateNamedData(n: Node, name: string, f: map<string, Value> -> map<string, Value>): (r: Node)
    ensures r.name == n.name && r.position == n.position && r.points == n.points
    ensures r.userData == if n.name == name then f(n.userData) else n.userData
    ensures |r.children| == |n.children|
    decreases n
  {
    n.(userData := if n.name == name then f(n.userData) else n.userData,
       children := seq(|n.children|, j requires 0 <= j < |n.children| => UpdateNamedData(n.children[j], name, f)))
  }

  function Updater(name: string, f: map<string, Value> -> map<string, Value>): Node -> Node {
    (n: Node) => UpdateNamedData(n, name, f)
  }

  function MapNodes(g: Node -> Node, s: seq<Node>): (r: seq<Node>)
    ensures |r| == |s|
    ensures forall i :: 0 <= i < |s| ==> r[i] == g(s[i])
  {
    seq(|s|, i requires 0 <= i < |s| => g(s[i]))
  }

  lemma MapNodesConcat(g: Node -> Node, a: seq<Node>, b: seq<Node>)
    ensures MapNodes(g, a + b) == MapNodes(g, a) + MapNodes(g, b)
  {
  }

  /** After the update a search finds the same nodes, each updated: the
      same number, in the same order. */
  lemma {:induction false} FindAfterUpdate(n: Node, name: string, f: map<string, Value> -> map<string, Value>)
    ensures FindAllByName(UpdateNamedData(n, name, f), name) == MapNodes(Updater(name, f), FindAllByName(n, name))
    decreases n, 1
  {
    FindInChildrenAfterUpdate(n, 0, name, f);
    MapNodesConcat(Updater(name, f), if n.name == name then [n] else [], FindInChildren(n, 0, name));
  }

  lemma {:induction false} FindInChildrenAfterUpdate(n: Node, i: nat, name: string, f: map<string, Value> -> map<string, Value>)
    requires i <= |n.children|
    ensures FindInChildren(UpdateNamedData(n, name, f), i, name) == MapNodes(Updater(name, f), FindInChildren(n, i, name))
    decreases n, 0, |n.children| - i
  {
    var u := UpdateNamedData(n, name, f);
    if i < |n.children| {
      assert u.children[i] == UpdateNamedData(n.children[i], name, f);
      FindAfterUpdate(n.children[i], name, f);
      FindInChildrenAfterUpdate(n, i + 1, name, f);
      MapNodesConcat(Updater(name, f), FindAllByName(n.children[i], name), FindInChildren(n, i + 1, name));
    }
  }

  // ---------------------------------------------------------------------
  // Disposal

  predicate IsLeaf(n: Node) {
    |n.children| == 0
  }

  /** `disposeObject(node)`: the nodes whose geometry and material are
      disposed, in order.  A node with children is not disposed itself; the
      call recurses into each child. */
  function DisposeObject(n: Node): (r: seq<Node>)
    ensures IsLeaf(n) ==> r == [n]
    decreases n, 1
  {
    if |n.children| > 0 then DisposeChildren(n, 0) else [n]
  }

  function DisposeChildren(n: Node, i: nat): seq<Node>
    requires i <= |n.children|
    decreases n, 0, |n.children| - i
  {
    if i == |n.children| then [] else DisposeObject(n.children[i]) + DisposeChildren(n, i + 1)
  }

  /** Exactly the leaves of the subtree are disposed, in traversal order. */
  lemma {:induction false} DisposesExactlyLeaves(n: Node)
    ensures DisposeObject(n) == Seqs.Filter(IsLeaf, Traverse(n))
    decreases n, 1
  {
    DisposeChildrenLeaves(n, 0);
    Seqs.FilterConcat(IsLeaf, [n], TraverseChildren(n, 0));
    assert [n][1..] == [];
    if IsLeaf(n) {
      assert TraverseChildren(n, 0) == [];
    }
  }

  lemma {:induction false} DisposeChildrenLeaves(n: Node, i: nat)
    requires i <= |n.children|
    ensures DisposeChildren(n, i) == Seqs.Filter(IsLeaf, TraverseChildren(n, i))
    decreases n, 0, |n.children| - i
  {
    if i < |n.children| {
      DisposesExactlyLeaves(n.children[i]);
      DisposeChildrenLeaves(n, i + 1);
      Seqs.FilterConcat(IsLeaf, Traverse(n.children[i]), TraverseChildren(n, i + 1));
    }
  }

  /** Under a node of another name whose children are leaves of the name,
      the search finds the children themselves. */
  lemma FoundLeafChildren(root: Node, name: string)
    requires root.name != name
    requires forall i :: 0 <= i < |root.children| ==> root.children[i].name == name && IsLeaf(root.children[i])
    ensures FindAllByName(root, name) == root.children
  {
    FoundLeafChildrenFrom(root, name, 0);
  }

  lemma {:induction false} FoundLeafChildrenFrom(root: Node, name: string, i: nat)
    requires i <= |root.children|
    requires forall j :: 0 <= j < |root.children| ==> root.children[j].name == name && IsLeaf(root.children[j])
    ensures FindInChildren(root, i, name) == root.children[i..]
    decreases |root.children| - i
  {
    if i < |root.children| {
      FoundLeafChildrenFrom(root, name, i + 1);
      var c := root.children[i];
      assert FindInChildren(c, 0, name) == [];
      assert FindAllByName(c, name) == [c];
      assert root.children[i..] == [c] + root.children[i + 1..];
    }
  }

  // ---------------------------------------------------------------------
  // Clearing

  /** `while (root.children.length) root.remove(root.children[0])`: the
      children removed, first to last, and the emptied root. */
  method ClearRoot(root: Node) returns (r: Node, removed: seq<Node>)
    ensures r == root.(children := [])
    ensures removed == root.children
  {
    r, removed := root, [];
    while |r.children| > 0
      invariant removed + r.children == root.children
      invariant r == root.(children := r.children)
      decreases |r.children|
    {
      var first := r.children[0];
      assert (removed + [first]) + r.children[1..] == removed + r.children;
      removed := removed + [first];
      r := r.(children := r.children[1..]);
    }
  }

  /** `clearObjectRoots(roots)`: the left root is emptied, then the right. */
  method ClearObjectRoots(roots: Sides<Node>) returns (r: Sides<Node>)
    ensures r.left == roots.left.(children := []) && r.right == roots.right.(children := [])
  {
    var left, _ := ClearRoot(roots.left);
    var right, _ := ClearRoot(roots.right);
    r := Sides(left, right);
  }

  // ---------------------------------------------------------------------
  // Reading matrices and vectors

  /** `parseMatrix(value)`: the rows are passed to the row-major
      `Matrix4.set`.  A missing row makes the source throw, and a short row
      would store `undefined`; both are failures here.  Rows and elements
      past the fourth are ignored. */
  function ParseMatrix(value: seq<seq<real>>): (r: Option<Matrix>)
    ensures r.Some? <==> |value| >= 4 && forall row :: 0 <= row < 4 ==> |value[row]| >= 4
    ensures r.Some? ==> forall row, column :: 0 <= row < 4 && 0 <= column < 4 ==>
      At(r.value, row, column) == value[row][column]
  {
    if |value| >= 4 && |value[0]| >= 4 && |value[1]| >= 4 && |value[2]| >= 4 && |value[3]| >= 4 then
      Some(seq(16, i requires 0 <= i < 16 => value[i % 4][i / 4]))
    else None
  }

  /** The four rows of a matrix, as the scene file writes them. */
  function Rows(m: Matrix): (r: seq<seq<real>>)
    ensures |r| == 4 && forall row :: 0 <= row < 4 ==> |r[row]| == 4
  {
    seq(4, row requires 0 <= row < 4 => seq(4, column requires 0 <= column < 4 => At(m, row, column)))
  }

  /** Reading the rows of a matrix gives the matrix back. */
  lemma ParseRows(m: Matrix)
    ensures ParseMatrix(Rows(m)) == Some(m)
  {
    var p := ParseMatrix(Rows(m)).value;
    forall i | 0 <= i < 16 ensures p[i] == m[i] {
      assert 4 * (i / 4) + i % 4 == i;
      assert p[i] == Rows(m)[i % 4][i / 4];
    }
    assert p == m;
  }

  /** A well-formed 4x4 value is exactly the rows of the matrix read from
      it. */
  lemma RowsOfParsed(value: seq<seq<real>>)
    requires |value| == 4 && forall row :: 0 <= row < 4 ==> |value[row]| == 4
    ensures ParseMatrix(value).Some? && Rows(ParseMatrix(value).value) == value
  {
    var rows := Rows(ParseMatrix(value).value);
    forall row | 0 <= row < 4 ensures rows[row] == value[row] {
    }
  }

  /** `parseVector3(numbers)`: the assertion on the length throws unless
      there are exactly three numbers. */
  function ParseVector3(numbers: seq<real>): (r: Option<Vec3>)
    ensures r.Some? <==> |numbers| == 3
    ensures r.Some? ==> r.value.x == numbers[0] && r.value.y == numbers[1] && r.value.z == numbers[2]
  {
    if |numbers| == 3 then Some(Vec3(numbers[0], numbers[1], numbers[2])) else None
  }

  /** `v.toArray()`. */
  function ToArray(v: Vec3): seq<real> {
    [v.x, v.y, v.z]
  }

  lemma ParseVector3RoundTrip(v: Vec3, numbers: seq<real>)
    ensures ParseVector3(ToArray(v)) == Some(v)
    ensures ParseVector3(numbers).Some? ==> ToArray(ParseVector3(numbers).value) == numbers
  {
  }

  // ---------------------------------------------------------------------
  // The canvas

  datatype CanvasPoint = CanvasPoint(x: real, y: real)

  /** `toCanvasPosition`: a point already projected to normalised device
      coordinates, scaled to the canvas with y pointing down.  The source's
      `x || 0` only replaces NaN, which reals do not have. */
  function ToCanvasPosition(ndc: Vec3, width: real, height: real): (r: CanvasPoint)
    ensures -1.0 <= ndc.x <= 1.0 && width >= 0.0 ==> 0.0 <= r.x <= width
    ensures -1.0 <= ndc.y <= 1.0 && height >= 0.0 ==> 0.0 <= r.y <= height
    ensures ndc.x == -1.0 ==> r.x == 0.0
    ensures ndc.y == 1.0 ==> r.y == 0.0
  {
    var u, v := (ndc.x + 1.0) * 0.5, (1.0 - ndc.y) * 0.5;
    UnitScale(u, width);
    UnitScale(v, height);
    CanvasPoint(u * width, v * height)
  }

  lemma UnitScale(u: real, w: real)
    ensures 0.0 <= u <= 1.0 && w >= 0.0 ==> 0.0 <= u * w <= w
  {
    if 0.0 <= u <= 1.0 && w >= 0.0 {
      Numbers.NonNegativeProduct(u, w, u * w);
      Numbers.NonNegativeProduct(1.0 - u, w, w - u * w);
    }
  }

  /** The canvas positions of anchor points, each stored under the tag its
      `userData[field]` holds: a later point with the same tag overwrites an
      earlier one, and points whose tag is not a string are skipped.  The
      map starts as `initial`. */
  function PositionsByTag(points: seq<Node>, field: string, initial: map<string, Option<CanvasPoint>>,
                          at: Node -> CanvasPoint): (r: map<string, Option<CanvasPoint>>)
    ensures initial.Keys <= r.Keys
    decreases |points|
  {
    if |points| == 0 then initial
    else
      var last := points[|points| - 1];
      var before := PositionsByTag(points[..|points| - 1], field, initial, at);
      match Get(last.userData, field)
      case Str(tag) => before[tag := Some(at(last))]
      case _ => before
  }

  /** No point carries the tag: its entry is the initial one. */
  lemma {:induction false} UntaggedKeepsInitial(points: seq<Node>, field: string, initial: map<string, Option<CanvasPoint>>,
                                                at: Node -> CanvasPoint, tag: string)
    requires tag in initial
    requires forall i :: 0 <= i < |points| ==> Get(points[i].userData, field) != Str(tag)
    ensures PositionsByTag(points, field, initial, at)[tag] == initial[tag]
    decreases |points|
  {
    if |points| > 0 {
      var init := points[..|points| - 1];
      assert forall i :: 0 <= i < |init| ==> init[i] == points[i];
      UntaggedKeepsInitial(init, field, initial, at, tag);
    }
  }

  /** The entry under a tag is the position of the last point carrying
      it. */
  lemma {:induction false} LastTaggedWins(points: seq<Node>, field: string, initial: map<string, Option<CanvasPoint>>,
                                          at: Node -> CanvasPoint, tag: string, i: nat)
    requires i < |points| && Get(points[i].userData, field) == Str(tag)
    requires forall j :: i < j < |points| ==> Get(points[j].userData, field) != Str(tag)
    ensures tag in PositionsByTag(points, field, initial, at)
    ensures PositionsByTag(points, field, initial, at)[tag] == Some(at(points[i]))
    decreases |points|
  {
    if i < |points| - 1 {
      var init := points[..|points| - 1];
      assert forall j :: 0 <= j < |init| ==> init[j] == points[j];
      LastTaggedWins(init, field, initial, at, tag, i);
    }
  }

  // ---------------------------------------------------------------------
  // CSS colours

  /** `s.slice(start, end)` for non-negative bounds: both are clamped to
      the length, and an empty string results when start is not before
      end. */
  function Slice(s: string, start: nat, end: nat): (r: string)
    ensures start <= end <= |s| ==> r == s[start..end]
    ensures end <= start ==> r == ""
  {
    var a := if start < |s| then start else |s|;
    var b := if end < |s| then end else |s|;
    if a < b then s[a..b] else ""
  }

  /** The argument texts of `rgba(...)`: the text between the fifth
      character and the last, split at commas. */
  function RgbaArguments(css: string): (r: seq<string>)
    ensures |r| >= 1
  {
    Strings.Split(Slice(css, 5, if |css| >= 1 then |css| - 1 else 0), ',')
  }

  /** `getElementColorVec4` for a colour whose CSS text is `css`.  Text
      starting with "rgba" gives its first three arguments over 255 and the
      fourth as it is; a missing fourth leaves `Vector4`'s default 1, and a
      missing colour part gives NaN, a failure here.  Other text takes the
      colour THREE parses from it and the element's opacity.  `number` is
      JavaScript's `Number` on an argument's text. */
  function ColorVec4(css: string, number: string -> real, parsed: Vec3, opacity: real): (r: Option<Vec4>)
    ensures !Strings.StartsWith(css, "rgba") ==> r == Some(Vec4(parsed.x, parsed.y, parsed.z, opacity))
    ensures Strings.StartsWith(css, "rgba") ==> (r.Some? <==> |RgbaArguments(css)| >= 3)
  {
    if Strings.StartsWith(css, "rgba") then
      var args := RgbaArguments(css);
      if |args| < 3 then None
      else
        var alpha := if |args| >= 4 then number(args[3]) else 1.0;
        Some(Vec4(number(args[0]) / 255.0, number(args[1]) / 255.0, number(args[2]) / 255.0, alpha))
    else Some(Vec4(parsed.x, parsed.y, parsed.z, opacity))
  }

  /** `getElementThreeColor`: for "rgba" text the colour over 255, either as
      it is (`ignoreAlpha`) or moved from white toward it by alpha; other
      text is the colour THREE parses from it. */
  function ThreeColor(css: string, number: string -> real, parsed: Vec3, ignoreAlpha: bool): (r: Option<Vec3>)
    ensures !Strings.StartsWith(css, "rgba") ==> r == Some(parsed)
    ensures Strings.StartsWith(css, "rgba") ==>
      (r.Some? <==> |RgbaArguments(css)| >= if ignoreAlpha then 3 else 4)
    ensures Strings.StartsWith(css, "rgba") && r.Some? ==>
      var v := ColorVec4(css, number, parsed, 1.0).value;
      r.value == if ignoreAlpha then Vec3(v.x, v.y, v.z) else Lerp(White, Vec3(v.x, v.y, v.z), v.w)
  {
    if Strings.StartsWith(css, "rgba") then
      var args := RgbaArguments(css);
      if |args| < 3 || (!ignoreAlpha && |args| < 4) then None
      else
        var c := Vec3(number(args[0]) / 255.0, number(args[1]) / 255.0, number(args[2]) / 255.0);
        if ignoreAlpha then Some(c) else Some(Lerp(White, c, number(args[3])))
    else Some(parsed)
  }

  /** The text `rgba(r,g,b,a)` for four argument texts. */
  function Rgba(r: string, g: string, b: string, a: string): string {
    "rgba(" + Strings.Join([r, g, b, a], ',') + ")"
  }

  predicate Argument(s: string) {
    ',' !in s
  }

  /** The four arguments of `rgba(...)` text are read back in order, so the
      colour is the first three over 255 with the fourth as alpha. */
  lemma ColorVec4OfRgba(r: string, g: string, b: string, a: string, number: string -> real, parsed: Vec3, opacity: real)
    requires Argument(r) && Argument(g) && Argument(b) && Argument(a)
    ensures ColorVec4(Rgba(r, g, b, a), number, parsed, opacity)
      == Some(Vec4(number(r) / 255.0, number(g) / 255.0, number(b) / 255.0, number(a)))
  {
    RgbaArgumentsOf(r, g, b, a);
  }

  /** The colour of `rgba(...)` text is its first three arguments over 255:
      as they are when alpha is ignored, otherwise moved from white toward
      them by the fourth. */
  lemma ThreeColorOfRgba(r: string, g: string, b: string, a: string, number: string -> real, parsed: Vec3)
    requires Argument(r) && Argument(g) && Argument(b) && Argument(a)
    ensures var c := Vec3(number(r) / 255.0, number(g) / 255.0, number(b) / 255.0);
      && ThreeColor(Rgba(r, g, b, a), number, parsed, true) == Some(c)
      && ThreeColor(Rgba(r, g, b, a), number, parsed, false) == Some(Lerp(White, c, number(a)))
  {
    RgbaArgumentsOf(r, g, b, a);
  }

  /** Opaque "rgba" text gives the same colour with or without alpha. */
  lemma OpaqueRgba(r: string, g: string, b: string, a: string, number: string -> real, parsed: Vec3)
    requires Argument(r) && Argument(g) && Argument(b) && Argument(a) && number(a) == 1.0
    ensures ThreeColor(Rgba(r, g, b, a), number, parsed, false) == ThreeColor(Rgba(r, g, b, a), number, parsed, true)
  {
    RgbaArgumentsOf(r, g, b, a);
  }

  lemma RgbaArgumentsOf(r: string, g: string, b: string, a: string)
    requires Argument(r) && Argument(g) && Argument(b) && Argument(a)
    ensures Strings.StartsWith(Rgba(r, g, b, a), "rgba")
    ensures RgbaArguments(Rgba(r, g, b, a)) == [r, g, b, a]
  {
    var parts := [r, g, b, a];
    var joined := Strings.Join(parts, ',');
    var css := Rgba(r, g, b, a);
    assert css[..4] == "rgba";
    assert css[5..|css| - 1] == joined;
    forall i | 0 <= i < |parts| ensures ',' !in parts[i] {
    }
    Strings.SplitJoin(parts, ',');
  }
}
