/**
 * Properties of the transform-folding pass: what stage A gives a group's
 * children, which nodes stage B folds, that the whole pass is idempotent and
 * does nothing to a document without transforms, and that a folded shape
 * describes the same figure as the shape with its transform.
 */
module ShapeProperties {
  import opened Transforms
  import opened Attributes
  import opened Shapes

  // ---------------------------------------------------------------------------
  // Stage A.

  /**
   * A group that folds loses its transform, and each of its SVG children gets
   * the group's matrix composed with its own.
   */
  lemma FoldingGroupPushesToAll(u: Utils, t: Tree, a: seq<Attrs>, g: nat)
    requires Fits(t, a) && g < |a|
    requires GroupFolds(u, t, a, g)
    ensures PushAll(u, t, a)[g] == a[g] - {TransformAttr}
    ensures TransformAttr !in PushAll(u, t, a)[g]
    ensures forall j :: 0 <= j < |a| && t.parent[j] == g && IsSvg(t.tags[j]) ==>
      PushAll(u, t, a)[j] == PushDownChild(GetTs(a[g]), a[j])
  {
    forall j | 0 <= j < |a| && t.parent[j] == g && IsSvg(t.tags[j])
      ensures PushAll(u, t, a)[j] == PushDownChild(GetTs(a[g]), a[j])
    {
      assert ChildOk(u, t.tags[j], a[j]);
      assert !GroupFolds(u, t, a, j);
    }
  }

  /** A group that does not fold keeps its attributes, and passes nothing to its children. */
  lemma NonFoldingGroupPushesNothing(u: Utils, t: Tree, a: seq<Attrs>, g: nat)
    requires Fits(t, a) && g < |a|
    requires !GroupFolds(u, t, a, g)
    ensures t.tags[g] == G ==> PushAll(u, t, a)[g] == a[g]
    ensures forall j :: 0 <= j < |a| && t.parent[j] == g ==>
      PushAll(u, t, a)[j] == if GroupFolds(u, t, a, j) then a[j] - {TransformAttr} else a[j]
  {
  }

  /** A child that receives a push carries a transform acting as the group's after its own. */
  lemma PushedTransformComposes(u: Utils, t: Tree, a: seq<Attrs>, j: nat)
    requires Fits(t, a) && j < |a|
    requires ReceivesPush(u, t, a, j)
    ensures TransformAttr in PushAll(u, t, a)[j]
    ensures forall p :: Apply(GetTs(PushAll(u, t, a)[j]), p) == Apply(GetTs(a[t.parent[j]]), Apply(GetTs(a[j]), p))
  {
    assert ChildOk(u, t.tags[j], a[j]);
    assert !GroupFolds(u, t, a, j);
    var groupTs := GetTs(a[t.parent[j]]);
    forall p
      ensures Apply(GetTs(PushAll(u, t, a)[j]), p) == Apply(groupTs, Apply(GetTs(a[j]), p))
    {
      if TransformAttr in a[j] {
        assert GetTs(PushAll(u, t, a)[j]) == Append(groupTs, GetTs(a[j]));
      } else {
        assert GetTs(a[j]) == IDENTITY;
      }
    }
  }

  // ---------------------------------------------------------------------------
  // Stage B.

  /** Stage B changes only the shapes it can fold, and leaves none of them with a transform. */
  lemma FoldOnlyGuardedShapes(u: Utils, t: Tree, a: seq<Attrs>, inherited: seq<Length>, i: nat)
    requires Fits(t, a) && |inherited| == |a| && i < |a|
    ensures !Folds(u, t.tags[i], a[i]) ==> FoldAll(u, t, a, inherited)[i] == a[i]
    ensures Folds(u, t.tags[i], a[i]) ==>
      FoldAll(u, t, a, inherited)[i] == FoldShape(u, t.tags[i], a[i], inherited[i])
      && TransformAttr !in FoldAll(u, t, a, inherited)[i]
  {
  }

  // ---------------------------------------------------------------------------
  // The whole pass.

  /** After the pass no node is a shape that stage B would fold. */
  lemma NoShapeFoldsAfterPass(u: Utils, t: Tree, a: seq<Attrs>, inherited: seq<Length>, i: nat)
    requires Fits(t, a) && |inherited| == |a| && i < |a|
    ensures !Folds(u, t.tags[i], Pass(u, t, a, inherited)[i])
  {
    var p := PushAll(u, t, a);
    assert Pass(u, t, a, inherited)[i] == FoldAt(u, t, p, inherited, i);
  }

  /** After the pass no group would give its transform to its children. */
  lemma NoGroupFoldsAfterPass(u: Utils, t: Tree, a: seq<Attrs>, inherited: seq<Length>, g: nat)
    requires Fits(t, a) && |inherited| == |a| && g < |a|
    ensures !GroupFolds(u, t, Pass(u, t, a, inherited), g)
  {
    var p := PushAll(u, t, a);
    var b := Pass(u, t, a, inherited);
    assert b == FoldAll(u, t, p, inherited);
    if GroupCandidate(u, t.tags[g], b[g]) {
      // The group kept what it had: it did not fold, received nothing and is no shape.
      assert b[g] == p[g];
      assert p[g] == a[g];
      // So in the input some SVG child failed the test, and it fails it still.
      var j :| 0 <= j < |a| && t.parent[j] == g && !ChildOk(u, t.tags[j], a[j]);
      if IsShape(t.tags[j]) {
        assert !ReceivesPush(u, t, a, j);
        assert p[j] == a[j];
        assert b[j] == a[j];
      }
      assert !ChildOk(u, t.tags[j], b[j]);
    }
  }

  /** Running the pass a second time changes nothing. */
  lemma PassIdempotent(u: Utils, t: Tree, a: seq<Attrs>, inherited: seq<Length>)
    requires Fits(t, a) && |inherited| == |a|
    ensures Pass(u, t, Pass(u, t, a, inherited), inherited) == Pass(u, t, a, inherited)
  {
    var b := Pass(u, t, a, inherited);
    var p := PushAll(u, t, b);
    forall j | 0 <= j < |b|
      ensures p[j] == b[j]
    {
      NoGroupFoldsAfterPass(u, t, a, inherited, j);
      if t.parent[j] >= 0 {
        NoGroupFoldsAfterPass(u, t, a, inherited, t.parent[j]);
      }
    }
    assert p == b;
    forall i | 0 <= i < |b|
      ensures FoldAll(u, t, p, inherited)[i] == b[i]
    {
      NoShapeFoldsAfterPass(u, t, a, inherited, i);
    }
  }

  /** A document in which no node has a transform is left as it is. */
  lemma PassWithoutTransforms(u: Utils, t: Tree, a: seq<Attrs>, inherited: seq<Length>)
    requires Fits(t, a) && |inherited| == |a|
    requires forall j :: 0 <= j < |a| ==> TransformAttr !in a[j]
    ensures Pass(u, t, a, inherited) == a
  {
    var p := PushAll(u, t, a);
    assert p == a;
  }

  /**
   * A document in which no group can push its transform down and no shape can
   * fold its own is left as it is: every disqualified node is a silent no-op.
   */
  lemma PassWhenNothingFolds(u: Utils, t: Tree, a: seq<Attrs>, inherited: seq<Length>)
    requires Fits(t, a) && |inherited| == |a|
    requires forall j :: 0 <= j < |a| ==> !GroupFolds(u, t, a, j) && !Folds(u, t.tags[j], a[j])
    ensures Pass(u, t, a, inherited) == a
  {
    var p := PushAll(u, t, a);
    forall j | 0 <= j < |a| ensures p[j] == a[j] {
      if t.parent[j] >= 0 {
        assert !GroupFolds(u, t, a, t.parent[j]);
      }
    }
    assert p == a;
  }

  /**
   * A shape inside a group that folds ends with the group's transform and its
   * own folded into its coordinates, when its guards still pass on the
   * composed transform.
   */
  lemma GroupChildEndToEnd(u: Utils, t: Tree, a: seq<Attrs>, inherited: seq<Length>, j: nat, kx: AttrId, ky: AttrId)
    requires Fits(t, a) && |inherited| == |a| && j < |a|
    requires ReceivesPush(u, t, a, j)
    requires PassesGuards(u, PushAll(u, t, a)[j])
    requires IsShape(t.tags[j]) && (kx, ky) in CoordPairs(t.tags[j])
    ensures TransformAttr !in Pass(u, t, a, inherited)[j]
    ensures PointOf(Pass(u, t, a, inherited)[j], kx, ky)
            == Apply(GetTs(a[t.parent[j]]), Apply(GetTs(a[j]), PointOf(a[j], kx, ky)))
  {
    var p := PushAll(u, t, a);
    PushedTransformComposes(u, t, a, j);
    TableFacts(t.tags[j]);
    assert !GroupFolds(u, t, a, j) by {
      assert ChildOk(u, t.tags[j], a[j]);
    }
    assert PointOf(p[j], kx, ky) == PointOf(a[j], kx, ky);
    assert Pass(u, t, a, inherited)[j] == FoldShape(u, t.tags[j], p[j], inherited[j]);
  }

  // ---------------------------------------------------------------------------
  // A folded shape draws the same figure. This is a property of the closures of
  // `process_rect`, `process_circle` and `process_ellipse`, which receive the
  // matrix as a parameter; it holds for a matrix without rotation or skew whose
  // two scale factors are equal and are what `get_scale` reports.

  predicate UniformScale(u: Utils, ts: Transform) {
    ts.b == 0.0 && ts.c == 0.0 && ts.a == ts.d && u.getScale(ts) == (ts.a, ts.a)
  }

  /** A size the rewrite scales ends as the old size times the matrix's scale (0 when missing). */
  lemma SizeScales(u: Utils, t: Tag, attrs: Attrs, ts: Transform, k: AttrId)
    requires IsShape(t) && k in SizeKeys(t)
    requires UniformScale(u, ts)
    ensures NumOrZero(Geometry(u, t, attrs, ts), k) == NumOrZero(attrs, k) * ts.a
  {
    TableFacts(t);
    SizedNumber(u, ts, attrs, Geometry(u, t, attrs, ts), k);
  }

  /** Under a uniform scale, a key sized by the fold holds the old number times the scale (0 when missing). */
  lemma SizedNumber(u: Utils, ts: Transform, before: Attrs, after: Attrs, k: AttrId)
    requires UniformScale(u, ts)
    requires k in after <==> k in before
    requires k in before ==> after[k] == SizedUnder(u, ts, before[k])
    ensures NumOrZero(after, k) == NumOrZero(before, k) * ts.a
  {
    if k in before && before[k].LengthValue? && !HasScale(u, ts) {
      assert ts.a == 1.0;
    }
  }

  /** Under a uniform scale, moving a point by (dx, dy) moves its image by the scaled offset. */
  lemma ImageOfOffset(ts: Transform, p: Point, dx: real, dy: real)
    requires ts.b == 0.0 && ts.c == 0.0 && ts.a == ts.d
    ensures Apply(ts, Point(p.x + dx, p.y + dy)) == Point(Apply(ts, p).x + dx * ts.a, Apply(ts, p).y + dy * ts.a)
  {
    var q := Point(p.x + dx, p.y + dy);
    assert ts.c * q.y == 0.0 && ts.c * p.y == 0.0;
    assert ts.b * q.x == 0.0 && ts.b * p.x == 0.0;
    assert ts.a * q.x == ts.a * p.x + dx * ts.a;
    assert ts.d * q.y == ts.d * p.y + dy * ts.a;
    assert Apply(ts, q).x == Apply(ts, p).x + dx * ts.a;
    assert Apply(ts, q).y == Apply(ts, p).y + dy * ts.a;
  }

  /**
   * The corner (x + w, y + h) of a shape whose anchor (x, y) went through a
   * uniform scale matrix and whose extents (w, h) were multiplied by its scale
   * is the image of the old corner.
   */
  lemma CornerMoves(ts: Transform, before: Attrs, after: Attrs, kx: AttrId, ky: AttrId, kw: AttrId, kh: AttrId)
    requires ts.b == 0.0 && ts.c == 0.0 && ts.a == ts.d
    requires PointOf(after, kx, ky) == Apply(ts, PointOf(before, kx, ky))
    requires NumOrZero(after, kw) == NumOrZero(before, kw) * ts.a
    requires NumOrZero(after, kh) == NumOrZero(before, kh) * ts.a
    ensures Point(NumOrZero(after, kx) + NumOrZero(after, kw), NumOrZero(after, ky) + NumOrZero(after, kh))
         == Apply(ts, Point(NumOrZero(before, kx) + NumOrZero(before, kw), NumOrZero(before, ky) + NumOrZero(before, kh)))
  {
    ImageOfOffset(ts, PointOf(before, kx, ky), NumOrZero(before, kw), NumOrZero(before, kh));
  }

  /** The far corner (x + width, y + height) of a rewritten rectangle is the image of the old one. */
  lemma RectFoldKeepsCorner(u: Utils, attrs: Attrs, ts: Transform)
    requires UniformScale(u, ts)
    ensures var r := RectGeometry(u, attrs, ts);
      Point(NumOrZero(r, X) + NumOrZero(r, Width), NumOrZero(r, Y) + NumOrZero(r, Height))
      == Apply(ts, Point(NumOrZero(attrs, X) + NumOrZero(attrs, Width), NumOrZero(attrs, Y) + NumOrZero(attrs, Height)))
  {
    SizedCorner(u, ts, attrs, RectGeometry(u, attrs, ts));
  }

  /** The corner of a rectangle whose anchor went through `ts` and whose sizes were scaled by it. */
  lemma SizedCorner(u: Utils, ts: Transform, before: Attrs, after: Attrs)
    requires UniformScale(u, ts)
    requires after.Keys == before.Keys + {X, Y}
    requires PointOf(after, X, Y) == Apply(ts, PointOf(before, X, Y))
    requires forall k :: k in {Width, Height, Rx, Ry} && k in before ==> after[k] == SizedUnder(u, ts, before[k])
    ensures Point(NumOrZero(after, X) + NumOrZero(after, Width), NumOrZero(after, Y) + NumOrZero(after, Height))
      == Apply(ts, Point(NumOrZero(before, X) + NumOrZero(before, Width), NumOrZero(before, Y) + NumOrZero(before, Height)))
  {
    SizedNumber(u, ts, before, after, Width);
    SizedNumber(u, ts, before, after, Height);
    CornerMoves(ts, before, after, X, Y, Width, Height);
  }

  /** The rightmost point (cx + r, cy) of a rewritten circle is the image of the old one. */
  lemma CircleFoldKeepsExtent(u: Utils, attrs: Attrs, ts: Transform)
    requires UniformScale(u, ts)
    ensures var r := CircleGeometry(u, attrs, ts);
      Point(NumOrZero(r, Cx) + NumOrZero(r, R), NumOrZero(r, Cy))
      == Apply(ts, Point(NumOrZero(attrs, Cx) + NumOrZero(attrs, R), NumOrZero(attrs, Cy)))
  {
    var r := CircleGeometry(u, attrs, ts);
    SizedNumber(u, ts, attrs, r, R);
    ImageOfOffset(ts, PointOf(attrs, Cx, Cy), NumOrZero(attrs, R), 0.0);
  }

  /** The corner (cx + rx, cy + ry) of a rewritten ellipse's bounding box is the image of the old one. */
  lemma EllipseFoldKeepsExtent(u: Utils, attrs: Attrs, ts: Transform)
    requires UniformScale(u, ts)
    ensures var r := EllipseGeometry(u, attrs, ts);
      Point(NumOrZero(r, Cx) + NumOrZero(r, Rx), NumOrZero(r, Cy) + NumOrZero(r, Ry))
      == Apply(ts, Point(NumOrZero(attrs, Cx) + NumOrZero(attrs, Rx), NumOrZero(attrs, Cy) + NumOrZero(attrs, Ry)))
  {
    var r := EllipseGeometry(u, attrs, ts);
    SizedNumber(u, ts, attrs, r, Rx);
    SizedNumber(u, ts, attrs, r, Ry);
    CornerMoves(ts, attrs, r, Cx, Cy, Rx, Ry);
  }
}
