/**
 * The transform-folding pass `apply_transform_to_shapes`.
 *
 * The document is a list of its nodes with every parent before its children
 * (a pre-order listing is one such list): node `j` has the tag
 * `tree.tags[j]` and the parent `tree.parent[j]` (an earlier node, or -1 for
 * the root), and its attributes are `attrs[j]`. The pass never changes the
 * tree's structure, only attributes, so the structure is a constant of the
 * `Document` object and the attributes are its one mutable field.
 *
 * The first half of this module states, as functions on attribute values,
 * what the pass computes; the class at the end performs it step by step, in
 * the order of the loops of `apply_transform_to_shapes`, and is proved to
 * compute exactly that.
 */
module Shapes {
  import opened Transforms
  import opened Attributes

  /** Element kinds. `NonSvg` stands for every node that `.svg()` skips (text, comments, unknown elements). */
  datatype Tag = G | Rect | Circle | Ellipse | Line | OtherSvg | NonSvg

  predicate IsSvg(t: Tag) {
    t != NonSvg
  }

  /** The four shapes whose transform can be folded. */
  predicate IsShape(t: Tag) {
    t == Rect || t == Circle || t == Ellipse || t == Line
  }

  /**
   * The helpers of the pass whose bodies are not part of this model: the three
   * validity guards and the scale decomposition of a matrix. Each guard sees
   * the attributes of the node it is asked about.
   */
  datatype Utils = Utils(
    hasValidTransform: Attrs -> bool,
    isValidAttrs: Attrs -> bool,
    isValidCoords: Attrs -> bool,
    getScale: Transform -> (real, real))

  /** The x-scale factor of `ts`, the one the pass uses for every length. */
  function Sx(u: Utils, ts: Transform): real {
    u.getScale(ts).0
  }

  /** `has_scale`: the scale part of `ts` is not (1, 1). */
  predicate HasScale(u: Utils, ts: Transform) {
    u.getScale(ts).0 != 1.0 || u.getScale(ts).1 != 1.0
  }

  /** All three guards of `process`. */
  predicate PassesGuards(u: Utils, attrs: Attrs) {
    u.hasValidTransform(attrs) && u.isValidAttrs(attrs) && u.isValidCoords(attrs)
  }

  // ---------------------------------------------------------------------------
  // The per-shape table: which coordinate pairs go through the matrix and which
  // lengths are multiplied by the x-scale.

  /** The (x, y) attribute pairs of shape `t` that are points. */
  function CoordPairs(t: Tag): seq<(AttrId, AttrId)>
    requires IsShape(t)
  {
    match t
    case Rect => [(X, Y)]
    case Circle => [(Cx, Cy)]
    case Ellipse => [(Cx, Cy)]
    case Line => [(X1, Y1), (X2, Y2)]
  }

  /** Every attribute that belongs to a point of shape `t`. */
  function CoordKeys(t: Tag): set<AttrId>
    requires IsShape(t)
  {
    match t
    case Rect => {X, Y}
    case Circle => {Cx, Cy}
    case Ellipse => {Cx, Cy}
    case Line => {X1, Y1, X2, Y2}
  }

  /** The lengths of shape `t` that a fold with a scale part multiplies. */
  function SizeKeys(t: Tag): set<AttrId>
    requires IsShape(t)
  {
    match t
    case Rect => {Width, Height, Rx, Ry}
    case Circle => {R}
    case Ellipse => {Rx, Ry}
    case Line => {}
  }

  /** The table never names the transform or the stroke width, and points and sizes are apart. */
  lemma TableFacts(t: Tag)
    requires IsShape(t)
    ensures TransformAttr !in CoordKeys(t) && StrokeWidth !in CoordKeys(t)
    ensures TransformAttr !in SizeKeys(t) && StrokeWidth !in SizeKeys(t)
    ensures CoordKeys(t) !! SizeKeys(t)
    ensures forall kx, ky :: (kx, ky) in CoordPairs(t) ==> kx != ky && kx in CoordKeys(t) && ky in CoordKeys(t)
  {
  }

  // ---------------------------------------------------------------------------
  // The closures of `process_rect`, `process_circle`, `process_ellipse` and
  // `process_line`: what each does to the attributes, given the transform.

  /** The size `v` after a fold with `ts`: scaled by the x-scale only when `ts` has a scale part. */
  function SizedUnder(u: Utils, ts: Transform, v: Value): Value {
    if HasScale(u, ts) then ScaleValue(v, Sx(u, ts)) else v
  }

  /** The closure of `process_rect`: (x, y) through the matrix, then width, height, rx and ry scaled. */
  function RectGeometry(u: Utils, attrs: Attrs, ts: Transform): (r: Attrs)
    ensures r.Keys == attrs.Keys + {X, Y}
    ensures PointOf(r, X, Y) == Apply(ts, PointOf(attrs, X, Y))
    ensures forall k :: k in {Width, Height, Rx, Ry} && k in attrs ==> r[k] == SizedUnder(u, ts, attrs[k])
    ensures forall k :: k in attrs && k !in {X, Y, Width, Height, Rx, Ry} ==> r[k] == attrs[k]
  {
    var moved := TransformCoords(attrs, X, Y, ts);
    if HasScale(u, ts) then ScaleRectSizes(moved, Sx(u, ts)) else moved
  }

  /** The four `scale_coord` calls of `process_rect`: width, height, rx and ry that are present are multiplied by `sx`. */
  function ScaleRectSizes(attrs: Attrs, sx: real): (r: Attrs)
    ensures r.Keys == attrs.Keys
    ensures forall k :: k in {Width, Height, Rx, Ry} && k in attrs ==> r[k] == ScaleValue(attrs[k], sx)
    ensures forall k :: k in attrs && k !in {Width, Height, Rx, Ry} ==> r[k] == attrs[k]
  {
    ScaleCoord(ScaleCoord(ScaleCoord(ScaleCoord(attrs, Width, sx), Height, sx), Rx, sx), Ry, sx)
  }

  /** The closure of `process_circle`: (cx, cy) through the matrix, then r scaled. */
  function CircleGeometry(u: Utils, attrs: Attrs, ts: Transform): (r: Attrs)
    ensures r.Keys == attrs.Keys + {Cx, Cy}
    ensures PointOf(r, Cx, Cy) == Apply(ts, PointOf(attrs, Cx, Cy))
    ensures forall k :: k in {R} && k in attrs ==> r[k] == SizedUnder(u, ts, attrs[k])
    ensures forall k :: k in attrs && k !in {Cx, Cy, R} ==> r[k] == attrs[k]
  {
    var moved := TransformCoords(attrs, Cx, Cy, ts);
    if HasScale(u, ts) then ScaleCoord(moved, R, Sx(u, ts)) else moved
  }

  /** The closure of `process_ellipse`: (cx, cy) through the matrix, then rx and ry scaled. */
  function EllipseGeometry(u: Utils, attrs: Attrs, ts: Transform): (r: Attrs)
    ensures r.Keys == attrs.Keys + {Cx, Cy}
    ensures PointOf(r, Cx, Cy) == Apply(ts, PointOf(attrs, Cx, Cy))
    ensures forall k :: k in {Rx, Ry} && k in attrs ==> r[k] == SizedUnder(u, ts, attrs[k])
    ensures forall k :: k in attrs && k !in {Cx, Cy, Rx, Ry} ==> r[k] == attrs[k]
  {
    var moved := TransformCoords(attrs, Cx, Cy, ts);
    if HasScale(u, ts) then
      var sx := Sx(u, ts);
      ScaleCoord(ScaleCoord(moved, Rx, sx), Ry, sx)
    else moved
  }

  /** The closure of `process_line`: both end points through the matrix, nothing scaled. */
  function LineGeometry(attrs: Attrs, ts: Transform): (r: Attrs)
    ensures r.Keys == attrs.Keys + {X1, Y1, X2, Y2}
    ensures PointOf(r, X1, Y1) == Apply(ts, PointOf(attrs, X1, Y1))
    ensures PointOf(r, X2, Y2) == Apply(ts, PointOf(attrs, X2, Y2))
    ensures forall k :: k in attrs && k !in {X1, Y1, X2, Y2} ==> r[k] == attrs[k]
  {
    var first := TransformCoords(attrs, X1, Y1, ts);
    var r := TransformCoords(first, X2, Y2, ts);
    assert PointOf(first, X2, Y2) == PointOf(attrs, X2, Y2);
    assert PointOf(r, X1, Y1) == PointOf(first, X1, Y1);
    r
  }

  /**
   * The geometry rewrite of shape `t`, agreeing with the table: every coordinate
   * pair is mapped through `ts` (missing coordinates read as 0 and are written),
   * every present size attribute is scaled by the x-scale when `ts` has a scale
   * part, and no other attribute changes.
   */
  function Geometry(u: Utils, t: Tag, attrs: Attrs, ts: Transform): (r: Attrs)
    requires IsShape(t)
    ensures r.Keys == attrs.Keys + CoordKeys(t)
    ensures forall kx, ky :: (kx, ky) in CoordPairs(t) ==>
      PointOf(r, kx, ky) == Apply(ts, PointOf(attrs, kx, ky))
    ensures forall k :: k in SizeKeys(t) && k in attrs ==> r[k] == SizedUnder(u, ts, attrs[k])
    ensures forall k :: k in attrs && k !in CoordKeys(t) && k !in SizeKeys(t) ==> r[k] == attrs[k]
  {
    match t
    case Rect => RectGeometry(u, attrs, ts)
    case Circle => CircleGeometry(u, attrs, ts)
    case Ellipse => EllipseGeometry(u, attrs, ts)
    case Line => LineGeometry(attrs, ts)
  }

  /**
   * What `process(node, func)` leaves on a node whose guards passed: `func`
   * applied with the node's transform, the transform removed, and, when the
   * transform has a scale part, `stroke-width` recomputed from the x-scale.
   */
  function ProcessedAttrs(u: Utils, attrs: Attrs, geometry: (Attrs, Transform) -> Attrs, inherited: Length): Attrs {
    var ts := GetTs(attrs);
    var folded := geometry(attrs, ts) - {TransformAttr};
    if HasScale(u, ts) then RecalcStrokeWidth(folded, Sx(u, ts), inherited) else folded
  }

  /** The block inside `process`: the geometry rewrite with the node's own transform, then the transform removed. */
  function Unfolded(u: Utils, t: Tag, attrs: Attrs): (r: Attrs)
    requires IsShape(t)
    ensures TransformAttr !in r
    ensures r.Keys == (attrs.Keys - {TransformAttr}) + CoordKeys(t)
    ensures forall kx, ky :: (kx, ky) in CoordPairs(t) ==>
      PointOf(r, kx, ky) == Apply(GetTs(attrs), PointOf(attrs, kx, ky))
    ensures forall k :: k in SizeKeys(t) && k in attrs ==> r[k] == SizedUnder(u, GetTs(attrs), attrs[k])
    ensures forall k :: k in attrs && k !in CoordKeys(t) && k !in SizeKeys(t) && k != TransformAttr ==> r[k] == attrs[k]
  {
    TableFacts(t);
    Geometry(u, t, attrs, GetTs(attrs)) - {TransformAttr}
  }

  /**
   * A shape with its transform folded in. The result has no transform; its keys
   * are the old ones, the shape's coordinates and, only when there is a scale
   * part, `stroke-width`; coordinates go through the matrix, sizes and the
   * effective stroke width are multiplied by the x-scale only when there is a
   * scale part, and every other attribute is kept.
   */
  function FoldShape(u: Utils, t: Tag, attrs: Attrs, inherited: Length): (r: Attrs)
    requires IsShape(t)
    ensures TransformAttr !in r
    ensures r.Keys == (attrs.Keys - {TransformAttr}) + CoordKeys(t)
                      + (if HasScale(u, GetTs(attrs)) then {StrokeWidth} else {})
    ensures forall kx, ky :: (kx, ky) in CoordPairs(t) ==>
      PointOf(r, kx, ky) == Apply(GetTs(attrs), PointOf(attrs, kx, ky))
    ensures forall k :: k in SizeKeys(t) && k in attrs ==> r[k] == SizedUnder(u, GetTs(attrs), attrs[k])
    ensures HasScale(u, GetTs(attrs)) ==>
      r[StrokeWidth] == ScaleValue(LengthValue(EffectiveStrokeWidth(attrs, inherited)), Sx(u, GetTs(attrs)))
    ensures !HasScale(u, GetTs(attrs)) && StrokeWidth in attrs ==> r[StrokeWidth] == attrs[StrokeWidth]
    ensures forall k :: k in attrs && k !in CoordKeys(t) && k !in SizeKeys(t) && k != TransformAttr && k != StrokeWidth
                        ==> r[k] == attrs[k]
  {
    TableFacts(t);
    var ts := GetTs(attrs);
    var folded := Unfolded(u, t, attrs);
    if HasScale(u, ts) then RecalcStrokeWidth(folded, Sx(u, ts), inherited) else folded
  }

  /** `FoldShape` is `process` with the closure of the shape's own `process_*` function. */
  lemma FoldShapeIsProcess(u: Utils, t: Tag, attrs: Attrs, geometry: (Attrs, Transform) -> Attrs, inherited: Length)
    requires IsShape(t)
    requires forall a, ts :: geometry(a, ts) == Geometry(u, t, a, ts)
    ensures ProcessedAttrs(u, attrs, geometry, inherited) == FoldShape(u, t, attrs, inherited)
  {
  }

  // ---------------------------------------------------------------------------
  // The document tree.

  datatype Tree = Tree(tags: seq<Tag>, parent: seq<int>)

  /** Every node has one parent, which comes before it in the list (-1 for a root). */
  predicate WellFormed(t: Tree) {
    |t.tags| == |t.parent| && forall j :: 0 <= j < |t.parent| ==> -1 <= t.parent[j] < j
  }

  /** `attrs` holds one attribute map per node of `t`. */
  predicate Fits(t: Tree, attrs: seq<Attrs>) {
    WellFormed(t) && |attrs| == |t.tags|
  }

  /** The children of `g` at index `k` or later, in document order. */
  function ChildrenFrom(parent: seq<int>, g: int, k: nat): (r: seq<nat>)
    decreases |parent| - k
    ensures forall x :: x in r <==> k <= x < |parent| && parent[x] == g
    ensures forall m :: 0 <= m < |r| ==> k <= r[m] < |parent| && parent[r[m]] == g
    ensures forall p, q :: 0 <= p < q < |r| ==> r[p] < r[q]
  {
    if k >= |parent| then []
    else if parent[k] == g then [k] + ChildrenFrom(parent, g, k + 1)
    else ChildrenFrom(parent, g, k + 1)
  }

  /** `node.children()`: the children of `g`, in document order. */
  function Children(t: Tree, g: nat): (r: seq<nat>)
    ensures forall x :: x in r <==> 0 <= x < |t.parent| && t.parent[x] == g
    ensures forall m :: 0 <= m < |r| ==> r[m] < |t.parent| && t.parent[r[m]] == g
    ensures forall p, q :: 0 <= p < q < |r| ==> r[p] < r[q]
  {
    ChildrenFrom(t.parent, g, 0)
  }

  // ---------------------------------------------------------------------------
  // Stage A: pushing a group's transform down to its children.

  /** A group the first loop considers: it has a transform, and its transform and attributes are valid. */
  predicate GroupCandidate(u: Utils, tag: Tag, attrs: Attrs) {
    tag == G && TransformAttr in attrs && u.hasValidTransform(attrs) && u.isValidAttrs(attrs)
  }

  /** The test inside `.all(...)`, for a child that `.svg()` lets through. */
  predicate ChildOk(u: Utils, tag: Tag, attrs: Attrs) {
    !IsSvg(tag) || (IsShape(tag) && PassesGuards(u, attrs))
  }

  /** Group `g` gives its transform to its children. */
  predicate GroupFolds(u: Utils, t: Tree, attrs: seq<Attrs>, g: nat)
    requires Fits(t, attrs) && g < |attrs|
  {
    && GroupCandidate(u, t.tags[g], attrs[g])
    && forall j :: 0 <= j < |attrs| && t.parent[j] == g ==> ChildOk(u, t.tags[j], attrs[j])
  }

  /** The transform a child receives: the group's matrix composed with its own, the group's first. */
  function PushedTs(groupTs: Transform, child: Attrs): Transform {
    if TransformAttr in child then Append(groupTs, GetTs(child)) else groupTs
  }

  function PushDownChild(groupTs: Transform, child: Attrs): Attrs {
    child[TransformAttr := TransformValue(PushedTs(groupTs, child))]
  }

  /** Node `j` is an SVG child of a group that folds. */
  predicate ReceivesPush(u: Utils, t: Tree, attrs: seq<Attrs>, j: nat)
    requires Fits(t, attrs) && j < |attrs|
  {
    t.parent[j] >= 0 && IsSvg(t.tags[j]) && GroupFolds(u, t, attrs, t.parent[j])
  }

  /** The attributes of node `j` after stage A. */
  function PushAt(u: Utils, t: Tree, attrs: seq<Attrs>, j: nat): Attrs
    requires Fits(t, attrs) && j < |attrs|
  {
    if GroupFolds(u, t, attrs, j) then attrs[j] - {TransformAttr}
    else if ReceivesPush(u, t, attrs, j) then PushDownChild(GetTs(attrs[t.parent[j]]), attrs[j])
    else attrs[j]
  }

  function PushAll(u: Utils, t: Tree, attrs: seq<Attrs>): (r: seq<Attrs>)
    requires Fits(t, attrs)
    ensures |r| == |attrs|
    ensures forall j :: 0 <= j < |attrs| ==> r[j] == PushAt(u, t, attrs, j)
  {
    seq(|attrs|, j requires 0 <= j < |attrs| => PushAt(u, t, attrs, j))
  }

  // ---------------------------------------------------------------------------
  // Stage B: folding each shape's own transform.

  /** The second loop folds node `i`: a shape with a transform that passes the guards. */
  predicate Folds(u: Utils, tag: Tag, attrs: Attrs) {
    IsShape(tag) && TransformAttr in attrs && PassesGuards(u, attrs)
  }

  function FoldAt(u: Utils, t: Tree, attrs: seq<Attrs>, inherited: seq<Length>, i: nat): Attrs
    requires Fits(t, attrs) && |inherited| == |attrs| && i < |attrs|
  {
    if Folds(u, t.tags[i], attrs[i]) then FoldShape(u, t.tags[i], attrs[i], inherited[i]) else attrs[i]
  }

  function FoldAll(u: Utils, t: Tree, attrs: seq<Attrs>, inherited: seq<Length>): (r: seq<Attrs>)
    requires Fits(t, attrs) && |inherited| == |attrs|
    ensures |r| == |attrs|
    ensures forall i :: 0 <= i < |attrs| ==> r[i] == FoldAt(u, t, attrs, inherited, i)
  {
    seq(|attrs|, i requires 0 <= i < |attrs| => FoldAt(u, t, attrs, inherited, i))
  }

  /** The whole pass: stage A, then stage B on its result. */
  function Pass(u: Utils, t: Tree, attrs: seq<Attrs>, inherited: seq<Length>): (r: seq<Attrs>)
    requires Fits(t, attrs) && |inherited| == |attrs|
    ensures |r| == |attrs|
  {
    FoldAll(u, t, PushAll(u, t, attrs), inherited)
  }

  // ---------------------------------------------------------------------------
  // Stage A visits group `g` with the attributes it started with.

  /** Whether `g` folds depends only on its own attributes and those of its children. */
  lemma GroupFoldsLocal(u: Utils, t: Tree, a1: seq<Attrs>, a2: seq<Attrs>, g: nat)
    requires Fits(t, a1) && Fits(t, a2) && g < |a1|
    requires a1[g] == a2[g]
    requires forall j :: 0 <= j < |a1| && t.parent[j] == g ==> a1[j] == a2[j]
    ensures GroupFolds(u, t, a1, g) == GroupFolds(u, t, a2, g)
  {
  }

  /** The attributes of node `j` once the first loop has visited the nodes before `n`. */
  ghost function PushedUpTo(u: Utils, t: Tree, a0: seq<Attrs>, n: nat, j: nat): Attrs
    requires Fits(t, a0) && j < |a0|
  {
    if (j < n && GroupFolds(u, t, a0, j)) || (t.parent[j] < n && ReceivesPush(u, t, a0, j))
    then PushAt(u, t, a0, j)
    else a0[j]
  }

  // ---------------------------------------------------------------------------
  // The document object and the pass as imperative code.

  class Document {
    const tree: Tree
    var attrs: seq<Attrs>

    ghost predicate Valid()
      reads this
    {
      Fits(tree, attrs)
    }

    constructor (tree: Tree, attrs: seq<Attrs>)
      requires Fits(tree, attrs)
      ensures Valid() && this.tree == tree && this.attrs == attrs
    {
      this.tree := tree;
      this.attrs := attrs;
    }

    /** `node.children().svg().all(...)`: every SVG child of `g` is a shape passing the three guards. */
    method AllChildrenFoldable(u: Utils, g: nat) returns (ok: bool)
      requires Valid() && g < |attrs|
      ensures ok <==> forall j :: 0 <= j < |attrs| && tree.parent[j] == g ==> ChildOk(u, tree.tags[j], attrs[j])
    {
      var kids := Children(tree, g);
      ok := true;
      var k := 0;
      while ok && k < |kids|
        invariant 0 <= k <= |kids|
        invariant ok <==> forall m :: 0 <= m < k ==> ChildOk(u, tree.tags[kids[m]], attrs[kids[m]])
      {
        var n := kids[k];
        if IsSvg(tree.tags[n]) {
          var flag := tree.tags[n] == Rect || tree.tags[n] == Circle || tree.tags[n] == Ellipse || tree.tags[n] == Line;
          ok := flag && u.hasValidTransform(attrs[n]) && u.isValidAttrs(attrs[n]) && u.isValidCoords(attrs[n]);
        }
        k := k + 1;
      }
      if !ok {
        var m :| 0 <= m < k && !ChildOk(u, tree.tags[kids[m]], attrs[kids[m]]);
        assert kids[m] in kids;
      }
    }

    /** The inner loop of stage A: every SVG child of `g` receives `ts`, composed with its own transform. */
    method PushToChildren(g: nat, ts: Transform)
      requires Valid() && g < |attrs|
      modifies this
      ensures Valid() && |attrs| == |old(attrs)|
      ensures forall j :: 0 <= j < |attrs| ==>
        attrs[j] == if tree.parent[j] == g && IsSvg(tree.tags[j]) then PushDownChild(ts, old(attrs)[j]) else old(attrs)[j]
    {
      var kids := Children(tree, g);
      for k := 0 to |kids|
        invariant Valid() && |attrs| == |old(attrs)|
        invariant forall j :: 0 <= j < |attrs| ==>
          attrs[j] == if j in kids[..k] && IsSvg(tree.tags[j]) then PushDownChild(ts, old(attrs)[j]) else old(attrs)[j]
      {
        var child := kids[k];
        assert kids[..k + 1] == kids[..k] + [child];
        assert child !in kids[..k];
        if IsSvg(tree.tags[child]) {
          if TransformAttr in attrs[child] {
            var ts1 := Append(ts, GetTs(attrs[child]));
            attrs := attrs[child := attrs[child][TransformAttr := TransformValue(ts1)]];
          } else {
            attrs := attrs[child := attrs[child][TransformAttr := TransformValue(ts)]];
          }
        }
      }
      assert kids[..|kids|] == kids;
    }

    /** Stage A of `apply_transform_to_shapes`. */
    method PushDownGroupTransforms(u: Utils)
      requires Valid()
      modifies this
      ensures Valid()
      ensures attrs == PushAll(u, tree, old(attrs))
    {
      ghost var a0 := attrs;
      for i := 0 to |attrs|
        invariant Valid() && |attrs| == |a0|
        invariant forall j :: 0 <= j < |a0| ==> attrs[j] == PushedUpTo(u, tree, a0, i, j)
      {
        AtVisit(u, a0, i);
        if tree.tags[i] == G && TransformAttr in attrs[i] {
          if u.hasValidTransform(attrs[i]) && u.isValidAttrs(attrs[i]) {
            var isValid := AllChildrenFoldable(u, i);
            if isValid {
              assert GroupFolds(u, tree, a0, i);
              var ts := GetTs(attrs[i]);
              PushToChildren(i, ts);
              attrs := attrs[i := attrs[i] - {TransformAttr}];
              forall j | 0 <= j < |a0| ensures attrs[j] == PushedUpTo(u, tree, a0, i + 1, j) {
                if tree.parent[j] == i && IsSvg(tree.tags[j]) {
                  assert ReceivesPush(u, tree, a0, j);
                  assert !GroupFolds(u, tree, a0, j);
                }
              }
            } else {
              assert !GroupFolds(u, tree, a0, i);
              NoChange(u, a0, i);
            }
          } else {
            NoChange(u, a0, i);
          }
        } else {
          NoChange(u, a0, i);
        }
      }
      forall j | 0 <= j < |a0| ensures attrs[j] == PushAt(u, tree, a0, j) {
      }
    }

    /** When the first loop reaches group `i`, it and its children still hold the attributes they had when the pass began. */
    lemma AtVisit(u: Utils, a0: seq<Attrs>, i: nat)
      requires Valid() && |attrs| == |a0| && Fits(tree, a0) && i < |a0|
      requires forall j :: 0 <= j < |a0| ==> attrs[j] == PushedUpTo(u, tree, a0, i, j)
      ensures tree.tags[i] == G ==> attrs[i] == a0[i]
      ensures forall j :: 0 <= j < |a0| && tree.parent[j] == i ==> attrs[j] == a0[j]
      ensures GroupFolds(u, tree, attrs, i) == GroupFolds(u, tree, a0, i)
    {
      if tree.tags[i] == G {
        GroupFoldsLocal(u, tree, attrs, a0, i);
      }
    }

    /** Visiting a group that does not fold changes nothing. */
    lemma NoChange(u: Utils, a0: seq<Attrs>, i: nat)
      requires Valid() && |attrs| == |a0| && Fits(tree, a0) && i < |a0|
      requires !GroupFolds(u, tree, a0, i)
      requires forall j :: 0 <= j < |a0| ==> attrs[j] == PushedUpTo(u, tree, a0, i, j)
      ensures forall j :: 0 <= j < |a0| ==> attrs[j] == PushedUpTo(u, tree, a0, i + 1, j)
    {
    }

    /** `::task::utils::recalc_stroke_width(node, sx)`. */
    method RecalcStrokeWidthOf(i: nat, sx: real, inherited: Length)
      requires Valid() && i < |attrs|
      modifies this
      ensures Valid()
      ensures attrs == old(attrs)[i := RecalcStrokeWidth(old(attrs)[i], sx, inherited)]
    {
      attrs := attrs[i := RecalcStrokeWidth(attrs[i], sx, inherited)];
    }

    /** `process(node, func)`: the guards, then `func`, the removal of the transform and the stroke width. */
    method Process(u: Utils, i: nat, geometry: (Attrs, Transform) -> Attrs, inherited: Length)
      requires Valid() && i < |attrs|
      modifies this
      ensures Valid()
      ensures attrs == old(attrs)[i := if PassesGuards(u, old(attrs)[i])
                                       then ProcessedAttrs(u, old(attrs)[i], geometry, inherited)
                                       else old(attrs)[i]]
    {
      if !u.hasValidTransform(attrs[i]) || !u.isValidAttrs(attrs[i]) || !u.isValidCoords(attrs[i]) {
        return;
      }
      var ts := GetTs(attrs[i]);
      var a := geometry(attrs[i], ts);
      a := a - {TransformAttr};
      attrs := attrs[i := a];
      if HasScale(u, ts) {
        var (sx, _) := u.getScale(ts);
        RecalcStrokeWidthOf(i, sx, inherited);
      }
    }

    method ProcessRect(u: Utils, i: nat, inherited: Length)
      requires Valid() && i < |attrs|
      modifies this
      ensures Valid()
      ensures attrs == old(attrs)[i := if PassesGuards(u, old(attrs)[i])
                                       then FoldShape(u, Rect, old(attrs)[i], inherited)
                                       else old(attrs)[i]]
    {
      var geometry := (a: Attrs, ts: Transform) => RectGeometry(u, a, ts);
      FoldShapeIsProcess(u, Rect, attrs[i], geometry, inherited);
      Process(u, i, geometry, inherited);
    }

    method ProcessCircle(u: Utils, i: nat, inherited: Length)
      requires Valid() && i < |attrs|
      modifies this
      ensures Valid()
      ensures attrs == old(attrs)[i := if PassesGuards(u, old(attrs)[i])
                                       then FoldShape(u, Circle, old(attrs)[i], inherited)
                                       else old(attrs)[i]]
    {
      var geometry := (a: Attrs, ts: Transform) => CircleGeometry(u, a, ts);
      FoldShapeIsProcess(u, Circle, attrs[i], geometry, inherited);
      Process(u, i, geometry, inherited);
    }

    method ProcessEllipse(u: Utils, i: nat, inherited: Length)
      requires Valid() && i < |attrs|
      modifies this
      ensures Valid()
      ensures attrs == old(attrs)[i := if PassesGuards(u, old(attrs)[i])
                                       then FoldShape(u, Ellipse, old(attrs)[i], inherited)
                                       else old(attrs)[i]]
    {
      var geometry := (a: Attrs, ts: Transform) => EllipseGeometry(u, a, ts);
      FoldShapeIsProcess(u, Ellipse, attrs[i], geometry, inherited);
      Process(u, i, geometry, inherited);
    }

    method ProcessLine(u: Utils, i: nat, inherited: Length)
      requires Valid() && i < |attrs|
      modifies this
      ensures Valid()
      ensures attrs == old(attrs)[i := if PassesGuards(u, old(attrs)[i])
                                       then FoldShape(u, Line, old(attrs)[i], inherited)
                                       else old(attrs)[i]]
    {
      var geometry := (a: Attrs, ts: Transform) => LineGeometry(a, ts);
      FoldShapeIsProcess(u, Line, attrs[i], geometry, inherited);
      Process(u, i, geometry, inherited);
    }

    /** Stage B of `apply_transform_to_shapes`; `inherited[i]` is the stroke width node `i` inherits. */
    method FoldShapeTransforms(u: Utils, inherited: seq<Length>)
      requires Valid() && |inherited| == |attrs|
      modifies this
      ensures Valid()
      ensures attrs == FoldAll(u, tree, old(attrs), inherited)
    {
      ghost var a0 := attrs;
      for i := 0 to |attrs|
        invariant Valid() && |attrs| == |a0|
        invariant forall j :: 0 <= j < |a0| ==> attrs[j] == if j < i then FoldAt(u, tree, a0, inherited, j) else a0[j]
      {
        ghost var before := attrs;
        ghost var target := FoldAt(u, tree, a0, inherited, i);
        if IsSvg(tree.tags[i]) && TransformAttr in attrs[i] {
          match tree.tags[i]
          case Rect => ProcessRect(u, i, inherited[i]);
          case Circle => ProcessCircle(u, i, inherited[i]);
          case Ellipse => ProcessEllipse(u, i, inherited[i]);
          case Line => ProcessLine(u, i, inherited[i]);
          case _ =>
        }
        assert attrs == before[i := target];
      }
    }

    /** `apply_transform_to_shapes`: stage A over the whole document, then stage B. */
    method ApplyTransformToShapes(u: Utils, inherited: seq<Length>)
      requires Valid() && |inherited| == |attrs|
      modifies this
      ensures Valid()
      ensures attrs == Pass(u, tree, old(attrs), inherited)
    {
      PushDownGroupTransforms(u);
      FoldShapeTransforms(u, inherited);
    }
  }
}
