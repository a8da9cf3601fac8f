/**
 * The unit tests of the folding pass (`apply_1` ... `keep_2` in
 * src/task/apply_transforms/shapes.rs), replayed on the model. The helpers
 * whose bodies are not modelled stay abstract: each lemma asks of them only
 * the answers its test relies on (which guards pass, what `get_scale`
 * reports). Whitespace text nodes are left out of the trees.
 */
module ShapeExamples {
  import opened Transforms
  import opened Attributes
  import opened Shapes
  import opened ShapeProperties

  const ONE: Length := Length(1.0, NoUnit)

  /** A rectangle's width, height, rx or ry `v`, folded with a matrix whose x-scale is `s`, becomes `v` scaled by `s`. */
  lemma FoldedRectSize(u: Utils, attrs: Attrs, inherited: Length, k: AttrId, s: real)
    requires k in SizeKeys(Rect)
    requires k in attrs
    requires HasScale(u, GetTs(attrs)) && Sx(u, GetTs(attrs)) == s
    ensures k in FoldShape(u, Rect, attrs, inherited)
    ensures FoldShape(u, Rect, attrs, inherited)[k] == ScaleValue(attrs[k], s)
  {
    var folded := Unfolded(u, Rect, attrs);
    assert k in folded && folded[k] == ScaleValue(attrs[k], s);
    assert FoldShape(u, Rect, attrs, inherited) == RecalcStrokeWidth(folded, s, inherited);
  }

  /** `translate(10 20) scale(2)` */
  const TS_2: Transform := Transform(2.0, 0.0, 0.0, 2.0, 10.0, 20.0)

  /** `TS_2` is the product that `translate(10 20) scale(2)` parses to. */
  lemma Ts2IsTranslateThenScale()
    ensures TS_2 == Append(Translate(10.0, 20.0), Scale(2.0, 2.0))
  {
    TranslateThenScale(10.0, 20.0, 2.0, 2.0);
  }

  // ---------------------------------------------------------------------------
  // apply_1: `translate(10 20)` on a rectangle at (10, 10).

  const APPLY1_RECT: Attrs :=
    map[Height := Number(10.0), Width := Number(10.0), X := Number(10.0), Y := Number(10.0), TransformAttr := TransformValue(Translate(10.0, 20.0))]

  /** apply_1: the rectangle loses its transform and gets no stroke width. */
  lemma Apply1Keys(u: Utils)
    requires PassesGuards(u, APPLY1_RECT) && u.getScale(Translate(10.0, 20.0)) == (1.0, 1.0)
    ensures Folds(u, Rect, APPLY1_RECT)
    ensures FoldShape(u, Rect, APPLY1_RECT, ONE).Keys == {Height, Width, X, Y}
  {
    assert GetTs(APPLY1_RECT) == Translate(10.0, 20.0);
    assert !HasScale(u, Translate(10.0, 20.0));
  }

  /** apply_1: a translation leaves the rectangle's size alone. */
  lemma Apply1Sizes(u: Utils)
    requires PassesGuards(u, APPLY1_RECT) && u.getScale(Translate(10.0, 20.0)) == (1.0, 1.0)
    ensures var r := FoldShape(u, Rect, APPLY1_RECT, ONE);
      r[Height] == Number(10.0) && r[Width] == Number(10.0)
  {
    assert GetTs(APPLY1_RECT) == Translate(10.0, 20.0);
    assert !HasScale(u, Translate(10.0, 20.0));
  }

  /** apply_1: the rectangle moves from (10, 10) to (20, 30). */
  lemma Apply1Point(u: Utils)
    requires PassesGuards(u, APPLY1_RECT)
    ensures var r := FoldShape(u, Rect, APPLY1_RECT, ONE);
      NumOrZero(r, X) == 20.0 && NumOrZero(r, Y) == 30.0
  {
    assert GetTs(APPLY1_RECT) == Translate(10.0, 20.0);
  }

  // ---------------------------------------------------------------------------
  // apply_2, apply_circle_1, apply_ellipse_1, apply_line_1: `translate(10 20) scale(2)`.

  const APPLY2_RECT: Attrs :=
    map[Height := Number(10.0), Rx := Number(2.0), Ry := Number(2.0), Width := Number(10.0), X := Number(10.0), Y := Number(10.0), TransformAttr := TransformValue(TS_2)]

  /** apply_2: (10, 10) goes to (30, 40). */
  lemma Apply2Point(u: Utils)
    requires PassesGuards(u, APPLY2_RECT)
    ensures var r := FoldShape(u, Rect, APPLY2_RECT, ONE);
      NumOrZero(r, X) == 30.0 && NumOrZero(r, Y) == 40.0
  {
    assert GetTs(APPLY2_RECT) == TS_2;
  }

  /** apply_2: the width and height 10 become 20. */
  lemma Apply2Sizes(u: Utils)
    requires PassesGuards(u, APPLY2_RECT) && u.getScale(TS_2) == (2.0, 2.0)
    ensures var r := FoldShape(u, Rect, APPLY2_RECT, ONE);
      Height in r && Width in r && r[Height] == Number(20.0) && r[Width] == Number(20.0)
  {
    assert GetTs(APPLY2_RECT) == TS_2;
    assert HasScale(u, TS_2) && Sx(u, TS_2) == 2.0;
    FoldedRectSize(u, APPLY2_RECT, ONE, Height, 2.0);
    FoldedRectSize(u, APPLY2_RECT, ONE, Width, 2.0);
  }

  /** apply_2: the default stroke width 1 becomes 2. */
  lemma Apply2Stroke(u: Utils)
    requires PassesGuards(u, APPLY2_RECT) && u.getScale(TS_2) == (2.0, 2.0)
    ensures FoldShape(u, Rect, APPLY2_RECT, ONE)[StrokeWidth] == Number(2.0)
  {
    assert GetTs(APPLY2_RECT) == TS_2;
    assert HasScale(u, TS_2) && Sx(u, TS_2) == 2.0;
    assert EffectiveStrokeWidth(APPLY2_RECT, ONE) == ONE;
  }

  /** apply_2: rx and ry 2 become 4. */
  lemma Apply2Radii(u: Utils)
    requires PassesGuards(u, APPLY2_RECT) && u.getScale(TS_2) == (2.0, 2.0)
    ensures var r := FoldShape(u, Rect, APPLY2_RECT, ONE);
      Rx in r && Ry in r && r[Rx] == Number(4.0) && r[Ry] == Number(4.0)
  {
    assert GetTs(APPLY2_RECT) == TS_2;
    assert HasScale(u, TS_2) && Sx(u, TS_2) == 2.0;
    FoldedRectSize(u, APPLY2_RECT, ONE, Rx, 2.0);
    FoldedRectSize(u, APPLY2_RECT, ONE, Ry, 2.0);
  }

  const CIRCLE1: Attrs := map[Cx := Number(10.0), Cy := Number(10.0), R := Number(15.0), TransformAttr := TransformValue(TS_2)]

  /** apply_circle_1: the centre (10, 10) goes to (30, 40). */
  lemma ApplyCircle1Point(u: Utils)
    requires PassesGuards(u, CIRCLE1)
    ensures var r := FoldShape(u, Circle, CIRCLE1, ONE);
      NumOrZero(r, Cx) == 30.0 && NumOrZero(r, Cy) == 40.0
  {
    assert GetTs(CIRCLE1) == TS_2;
  }

  /** apply_circle_1: the radius 15 becomes 30 and a stroke width 2 is written. */
  lemma ApplyCircle1Sizes(u: Utils)
    requires PassesGuards(u, CIRCLE1) && u.getScale(TS_2) == (2.0, 2.0)
    ensures var r := FoldShape(u, Circle, CIRCLE1, ONE);
      r[R] == Number(30.0) && r[StrokeWidth] == Number(2.0)
  {
    assert GetTs(CIRCLE1) == TS_2;
    assert HasScale(u, TS_2) && Sx(u, TS_2) == 2.0;
  }

  const ELLIPSE1: Attrs := map[Cx := Number(10.0), Cy := Number(10.0), Rx := Number(15.0), Ry := Number(15.0), TransformAttr := TransformValue(TS_2)]

  /** apply_ellipse_1: the centre (10, 10) goes to (30, 40). */
  lemma ApplyEllipse1Point(u: Utils)
    requires PassesGuards(u, ELLIPSE1)
    ensures var r := FoldShape(u, Ellipse, ELLIPSE1, ONE);
      NumOrZero(r, Cx) == 30.0 && NumOrZero(r, Cy) == 40.0
  {
    assert GetTs(ELLIPSE1) == TS_2;
  }

  /** apply_ellipse_1: both radii 15 become 30. */
  lemma ApplyEllipse1Radii(u: Utils)
    requires PassesGuards(u, ELLIPSE1) && u.getScale(TS_2) == (2.0, 2.0)
    ensures var r := FoldShape(u, Ellipse, ELLIPSE1, ONE);
      r[Rx] == Number(30.0) && r[Ry] == Number(30.0)
  {
    assert GetTs(ELLIPSE1) == TS_2;
    assert HasScale(u, TS_2) && Sx(u, TS_2) == 2.0;
  }

  /** apply_ellipse_1: a stroke width 2 is written. */
  lemma ApplyEllipse1Stroke(u: Utils)
    requires PassesGuards(u, ELLIPSE1) && u.getScale(TS_2) == (2.0, 2.0)
    ensures FoldShape(u, Ellipse, ELLIPSE1, ONE)[StrokeWidth] == Number(2.0)
  {
    assert GetTs(ELLIPSE1) == TS_2;
    assert HasScale(u, TS_2) && Sx(u, TS_2) == 2.0;
    assert EffectiveStrokeWidth(ELLIPSE1, ONE) == ONE;
  }

  const LINE1: Attrs := map[X1 := Number(10.0), X2 := Number(10.0), Y1 := Number(15.0), Y2 := Number(15.0), TransformAttr := TransformValue(TS_2)]

  /** apply_line_1: the first end point (10, 15) goes to (30, 50). */
  lemma ApplyLine1First(u: Utils)
    requires PassesGuards(u, LINE1)
    ensures var r := FoldShape(u, Line, LINE1, ONE);
      NumOrZero(r, X1) == 30.0 && NumOrZero(r, Y1) == 50.0
  {
    assert GetTs(LINE1) == TS_2;
    assert PointOf(FoldShape(u, Line, LINE1, ONE), X1, Y1) == Apply(TS_2, Point(10.0, 15.0));
  }

  /** apply_line_1: the second end point (10, 15) goes to (30, 50). */
  lemma ApplyLine1Second(u: Utils)
    requires PassesGuards(u, LINE1)
    ensures var r := FoldShape(u, Line, LINE1, ONE);
      NumOrZero(r, X2) == 30.0 && NumOrZero(r, Y2) == 50.0
  {
    assert GetTs(LINE1) == TS_2;
    assert PointOf(FoldShape(u, Line, LINE1, ONE), X2, Y2) == Apply(TS_2, Point(10.0, 15.0));
  }

  /** apply_line_1: nothing is scaled on a line, but a stroke width 2 is still written. */
  lemma ApplyLine1Stroke(u: Utils)
    requires PassesGuards(u, LINE1) && u.getScale(TS_2) == (2.0, 2.0)
    ensures FoldShape(u, Line, LINE1, ONE)[StrokeWidth] == Number(2.0)
  {
    assert GetTs(LINE1) == TS_2;
    assert HasScale(u, TS_2) && Sx(u, TS_2) == 2.0;
    assert EffectiveStrokeWidth(LINE1, ONE) == ONE;
  }

  // ---------------------------------------------------------------------------
  // apply_3: `translate(10 20) scale(2)` on a rectangle without x, y, rx, ry.

  const APPLY3_RECT: Attrs := map[Height := Number(10.0), Width := Number(10.0), TransformAttr := TransformValue(TS_2)]

  /** apply_3: x and y are written although they were missing; no rx or ry is invented; a stroke width is added. */
  lemma Apply3Keys(u: Utils)
    requires PassesGuards(u, APPLY3_RECT) && u.getScale(TS_2) == (2.0, 2.0)
    ensures Folds(u, Rect, APPLY3_RECT)
    ensures FoldShape(u, Rect, APPLY3_RECT, ONE).Keys == {Height, StrokeWidth, Width, X, Y}
  {
    assert GetTs(APPLY3_RECT) == TS_2;
  }

  /** apply_3: the missing (0, 0) goes to (10, 20). */
  lemma Apply3Point(u: Utils)
    requires PassesGuards(u, APPLY3_RECT)
    ensures var r := FoldShape(u, Rect, APPLY3_RECT, ONE);
      NumOrZero(r, X) == 10.0 && NumOrZero(r, Y) == 20.0
  {
    assert GetTs(APPLY3_RECT) == TS_2;
  }

  /** apply_3: the width and height double. */
  lemma Apply3Sizes(u: Utils)
    requires PassesGuards(u, APPLY3_RECT) && u.getScale(TS_2) == (2.0, 2.0)
    ensures var r := FoldShape(u, Rect, APPLY3_RECT, ONE);
      Height in r && Width in r && r[Height] == Number(20.0) && r[Width] == Number(20.0)
  {
    assert GetTs(APPLY3_RECT) == TS_2;
    assert HasScale(u, TS_2) && Sx(u, TS_2) == 2.0;
    FoldedRectSize(u, APPLY3_RECT, ONE, Height, 2.0);
    FoldedRectSize(u, APPLY3_RECT, ONE, Width, 2.0);
  }

  /** apply_3: the default stroke width 1 becomes 2. */
  lemma Apply3Stroke(u: Utils)
    requires PassesGuards(u, APPLY3_RECT) && u.getScale(TS_2) == (2.0, 2.0)
    ensures FoldShape(u, Rect, APPLY3_RECT, ONE)[StrokeWidth] == Number(2.0)
  {
    assert GetTs(APPLY3_RECT) == TS_2;
    assert HasScale(u, TS_2) && Sx(u, TS_2) == 2.0;
    assert EffectiveStrokeWidth(APPLY3_RECT, ONE) == ONE;
  }

  // ---------------------------------------------------------------------------
  // apply_4: `scale(2)` on a rectangle inside `<svg stroke-width='2'>`.

  /** `scale(2)` */
  const SCALE_2: Transform := Transform(2.0, 0.0, 0.0, 2.0, 0.0, 0.0)

  const APPLY4_RECT: Attrs := map[Height := Number(10.0), Width := Number(10.0), TransformAttr := TransformValue(SCALE_2)]

  /** apply_4: the inherited stroke width 2 becomes an explicit 4 on the rectangle. */
  lemma Apply4(u: Utils)
    requires PassesGuards(u, APPLY4_RECT) && u.getScale(SCALE_2) == (2.0, 2.0)
    ensures FoldShape(u, Rect, APPLY4_RECT, Length(2.0, NoUnit))[StrokeWidth] == Number(4.0)
  {
    assert GetTs(APPLY4_RECT) == SCALE_2;
    assert HasScale(u, SCALE_2) && Sx(u, SCALE_2) == 2.0;
    assert EffectiveStrokeWidth(APPLY4_RECT, Length(2.0, NoUnit)) == Length(2.0, NoUnit);
  }

  /** apply_4: the width and height 10 become 20. */
  lemma Apply4Sizes(u: Utils)
    requires PassesGuards(u, APPLY4_RECT) && u.getScale(SCALE_2) == (2.0, 2.0)
    ensures var r := FoldShape(u, Rect, APPLY4_RECT, Length(2.0, NoUnit));
      Height in r && Width in r && r[Height] == Number(20.0) && r[Width] == Number(20.0)
  {
    assert GetTs(APPLY4_RECT) == SCALE_2;
    assert HasScale(u, SCALE_2) && Sx(u, SCALE_2) == 2.0;
    FoldedRectSize(u, APPLY4_RECT, Length(2.0, NoUnit), Height, 2.0);
    FoldedRectSize(u, APPLY4_RECT, Length(2.0, NoUnit), Width, 2.0);
  }

  /** apply_4: the missing x and y are written as 0. */
  lemma Apply4Point(u: Utils)
    requires PassesGuards(u, APPLY4_RECT)
    ensures var r := FoldShape(u, Rect, APPLY4_RECT, Length(2.0, NoUnit));
      X in r && Y in r && NumOrZero(r, X) == 0.0 && NumOrZero(r, Y) == 0.0
  {
    assert GetTs(APPLY4_RECT) == SCALE_2;
  }

  // ---------------------------------------------------------------------------
  // apply_g_1: a group with `translate(10 20) scale(2)` around three rectangles,
  // the first with its own `scale(2)`.

  const G1_TREE: Tree := Tree([OtherSvg, G, Rect, Rect, Rect], [-1, 0, 1, 1, 1])

  const G1_PLAIN: Attrs := map[Height := Number(10.0), Width := Number(10.0), X := Number(10.0), Y := Number(10.0)]

  const G1_SCALED: Attrs := G1_PLAIN[TransformAttr := TransformValue(Scale(2.0, 2.0))]

  const G1_ATTRS: seq<Attrs> := [map[], map[TransformAttr := TransformValue(TS_2)], G1_SCALED, G1_PLAIN, G1_PLAIN]

  /** The matrix the first rectangle receives: the group's `translate(10 20) scale(2)` times its own `scale(2)`. */
  const TS_4: Transform := Transform(4.0, 0.0, 0.0, 4.0, 10.0, 20.0)

  /** The first rectangle after stage A. */
  const G1_SCALED_PUSHED: Attrs := G1_PLAIN[TransformAttr := TransformValue(TS_4)]

  /** The second and third rectangles after stage A: they carry the group's matrix. */
  const G1_PUSHED: Attrs := G1_PLAIN[TransformAttr := TransformValue(TS_2)]

  /** apply_g_1: the group qualifies, since every child is a rectangle that passes the guards. */
  lemma ApplyG1GroupFolds(u: Utils)
    requires u.hasValidTransform(G1_ATTRS[1]) && u.isValidAttrs(G1_ATTRS[1])
    requires PassesGuards(u, G1_SCALED) && PassesGuards(u, G1_PLAIN)
    ensures GroupFolds(u, G1_TREE, G1_ATTRS, 1)
  {
    assert GroupCandidate(u, G, G1_ATTRS[1]);
    forall j | 0 <= j < 5 && G1_TREE.parent[j] == 1
      ensures ChildOk(u, G1_TREE.tags[j], G1_ATTRS[j])
    {
    }
  }

  /**
   * apply_g_1, stage A: the group keeps no transform, the first rectangle gets
   * the group's matrix times its own, the other two get the group's matrix.
   */
  lemma ApplyG1Push(u: Utils)
    requires u.hasValidTransform(G1_ATTRS[1]) && u.isValidAttrs(G1_ATTRS[1])
    requires PassesGuards(u, G1_SCALED) && PassesGuards(u, G1_PLAIN)
    ensures var p := PushAll(u, G1_TREE, G1_ATTRS);
      && p[1] == map[]
      && p[2] == G1_SCALED_PUSHED
      && p[3] == G1_PUSHED
      && p[4] == G1_PUSHED
  {
    var p := PushAll(u, G1_TREE, G1_ATTRS);
    ApplyG1GroupFolds(u);
    assert p[1] == G1_ATTRS[1] - {TransformAttr};
    ApplyG1ChildPush(u, 2);
    assert GetTs(G1_SCALED) == Scale(2.0, 2.0);
    assert p[2] == PushDownChild(TS_2, G1_SCALED);
    ApplyG1ChildPush(u, 3);
    ApplyG1ChildPush(u, 4);
  }

  /** apply_g_1, stage A, one rectangle: it receives the group's matrix `TS_2`. */
  lemma ApplyG1ChildPush(u: Utils, j: nat)
    requires u.hasValidTransform(G1_ATTRS[1]) && u.isValidAttrs(G1_ATTRS[1])
    requires PassesGuards(u, G1_SCALED) && PassesGuards(u, G1_PLAIN)
    requires 2 <= j < 5
    ensures PushAt(u, G1_TREE, G1_ATTRS, j) == PushDownChild(TS_2, G1_ATTRS[j])
  {
    ApplyG1GroupFolds(u);
    assert G1_TREE.parent[j] == 1 && G1_TREE.tags[j] == Rect;
    assert GetTs(G1_ATTRS[1]) == TS_2;
    assert ReceivesPush(u, G1_TREE, G1_ATTRS, j) && !GroupFolds(u, G1_TREE, G1_ATTRS, j);
  }

  /** apply_g_1, stage B on the first rectangle: the width and height are multiplied by 4. */
  lemma ApplyG1Sizes(u: Utils)
    requires PassesGuards(u, G1_SCALED_PUSHED) && u.getScale(TS_4) == (4.0, 4.0)
    ensures var r := FoldShape(u, Rect, G1_SCALED_PUSHED, ONE);
      Height in r && Width in r && r[Height] == Number(40.0) && r[Width] == Number(40.0)
  {
    assert GetTs(G1_SCALED_PUSHED) == TS_4;
    assert HasScale(u, TS_4) && Sx(u, TS_4) == 4.0;
    FoldedRectSize(u, G1_SCALED_PUSHED, ONE, Height, 4.0);
    FoldedRectSize(u, G1_SCALED_PUSHED, ONE, Width, 4.0);
  }

  /** apply_g_1, stage B on the first rectangle: the default stroke width 1 becomes 4. */
  lemma ApplyG1Stroke(u: Utils)
    requires PassesGuards(u, G1_SCALED_PUSHED) && u.getScale(TS_4) == (4.0, 4.0)
    ensures FoldShape(u, Rect, G1_SCALED_PUSHED, ONE)[StrokeWidth] == Number(4.0)
  {
    assert GetTs(G1_SCALED_PUSHED) == TS_4;
    assert HasScale(u, TS_4) && Sx(u, TS_4) == 4.0;
    assert EffectiveStrokeWidth(G1_SCALED_PUSHED, ONE) == ONE;
  }

  /** apply_g_1, stage B on the first rectangle: (10, 10) goes to (50, 60). */
  lemma ApplyG1Point(u: Utils)
    requires PassesGuards(u, G1_SCALED_PUSHED)
    ensures var r := FoldShape(u, Rect, G1_SCALED_PUSHED, ONE);
      NumOrZero(r, X) == 50.0 && NumOrZero(r, Y) == 60.0
  {
    assert GetTs(G1_SCALED_PUSHED) == TS_4;
  }

  /**
   * apply_g_1, the whole pass: the group ends with no attributes, the first
   * rectangle is the fold of its pushed map, and the other two are the fold
   * of theirs. The document's root has no stroke width, so each rectangle
   * inherits 1.
   */
  lemma ApplyG1Pass(u: Utils, inherited: seq<Length>)
    requires |inherited| == 5 && inherited[2] == ONE && inherited[3] == ONE && inherited[4] == ONE
    requires u.hasValidTransform(G1_ATTRS[1]) && u.isValidAttrs(G1_ATTRS[1])
    requires PassesGuards(u, G1_SCALED) && PassesGuards(u, G1_PLAIN)
    requires PassesGuards(u, G1_SCALED_PUSHED) && PassesGuards(u, G1_PUSHED)
    ensures var r := Pass(u, G1_TREE, G1_ATTRS, inherited);
      && r[1] == map[]
      && r[2] == FoldShape(u, Rect, G1_SCALED_PUSHED, ONE)
      && r[3] == FoldShape(u, Rect, G1_PUSHED, ONE)
      && r[4] == FoldShape(u, Rect, G1_PUSHED, ONE)
  {
    ApplyG1Push(u);
    var p := PushAll(u, G1_TREE, G1_ATTRS);
    assert Folds(u, Rect, p[2]) && Folds(u, Rect, p[3]) && Folds(u, Rect, p[4]);
    assert !Folds(u, G, p[1]);
  }

  /** apply_g_1, the second and third rectangles: (10, 10) goes to (30, 40). */
  lemma ApplyG1RestPoint(u: Utils)
    requires PassesGuards(u, G1_PUSHED)
    ensures var r := FoldShape(u, Rect, G1_PUSHED, ONE);
      TransformAttr !in r && NumOrZero(r, X) == 30.0 && NumOrZero(r, Y) == 40.0
  {
    assert GetTs(G1_PUSHED) == TS_2;
  }

  /** apply_g_1, the second and third rectangles: the width and height 10 become 20. */
  lemma ApplyG1RestSizes(u: Utils)
    requires PassesGuards(u, G1_PUSHED) && u.getScale(TS_2) == (2.0, 2.0)
    ensures var r := FoldShape(u, Rect, G1_PUSHED, ONE);
      Height in r && Width in r && r[Height] == Number(20.0) && r[Width] == Number(20.0)
  {
    assert GetTs(G1_PUSHED) == TS_2;
    assert HasScale(u, TS_2) && Sx(u, TS_2) == 2.0;
    FoldedRectSize(u, G1_PUSHED, ONE, Height, 2.0);
    FoldedRectSize(u, G1_PUSHED, ONE, Width, 2.0);
  }

  /** apply_g_1, the second and third rectangles: the default stroke width 1 becomes 2. */
  lemma ApplyG1RestStroke(u: Utils)
    requires PassesGuards(u, G1_PUSHED) && u.getScale(TS_2) == (2.0, 2.0)
    ensures FoldShape(u, Rect, G1_PUSHED, ONE)[StrokeWidth] == Number(2.0)
  {
    assert GetTs(G1_PUSHED) == TS_2;
    assert HasScale(u, TS_2) && Sx(u, TS_2) == 2.0;
    assert EffectiveStrokeWidth(G1_PUSHED, ONE) == ONE;
  }

  // ---------------------------------------------------------------------------
  // keep_1 and keep_2: documents the pass must leave alone.

  const KEEP1_RECT: Attrs := map[Height := Number(10.0), TransformAttr := TransformValue(Scale(2.0, 2.0)), Width := Number(10.0),
                                 X := LengthValue(Length(10.0, In)), Y := Number(10.0)]

  /** keep_1: a rectangle whose `x` is `10in` fails the coordinate guard, and the document is unchanged. */
  lemma Keep1(u: Utils, inherited: seq<Length>)
    requires |inherited| == 2
    requires !u.isValidCoords(KEEP1_RECT)
    ensures Pass(u, Tree([OtherSvg, Rect], [-1, 0]), [map[], KEEP1_RECT], inherited) == [map[], KEEP1_RECT]
  {
    PassWhenNothingFolds(u, Tree([OtherSvg, Rect], [-1, 0]), [map[], KEEP1_RECT], inherited);
  }

  const KEEP2_TREE: Tree := Tree([OtherSvg, G, Rect, OtherSvg, G, Rect], [-1, 0, 1, 0, 0, 4])

  const KEEP2_ATTRS: seq<Attrs> := [
    map[],
    map[TransformAttr := TransformValue(Scale(2.0, 3.0))],
    G1_PLAIN,
    map[Other("id") := TextValue("m")],
    map[Mask := TextValue("url(#m)"), TransformAttr := TransformValue(Scale(2.0, 2.0))],
    G1_PLAIN]

  /**
   * keep_2: a group whose `scale(2 3)` fails the transform guard and a group
   * with a mask that fails the attribute guard keep their transforms, and the
   * document is unchanged.
   */
  lemma Keep2(u: Utils, inherited: seq<Length>)
    requires |inherited| == 6
    requires !u.hasValidTransform(KEEP2_ATTRS[1]) && !u.isValidAttrs(KEEP2_ATTRS[4])
    ensures Pass(u, KEEP2_TREE, KEEP2_ATTRS, inherited) == KEEP2_ATTRS
  {
    PassWhenNothingFolds(u, KEEP2_TREE, KEEP2_ATTRS, inherited);
  }
}
