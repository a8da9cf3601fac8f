/**
 * The attribute store of one document node and the small attribute helpers
 * the folding pass uses (`transform_coords`, `scale_coord`, `get_ts` and the
 * stroke-width update of `recalc_stroke_width`).
 */
module Attributes {
  import opened Transforms

  /** Length units; a coordinate the pass may rewrite is unit-less. */
  datatype Unit = NoUnit | Em | Ex | Px | In | Cm | Mm | Pt | Pc | Percent

  datatype Length = Length(num: real, unit: Unit)

  /** The attribute keys the pass reads or writes; every other key is `Other`. */
  datatype AttrId =
    | X | Y | Width | Height | Rx | Ry | Cx | Cy | R | X1 | Y1 | X2 | Y2
    | TransformAttr | StrokeWidth | Mask | ClipPath
    | Other(name: string)

  /** Typed attribute values. */
  datatype Value = LengthValue(len: Length) | TransformValue(ts: Transform) | TextValue(text: string)

  /** A node's attributes: a key absent from the map is an attribute not present. */
  type Attrs = map<AttrId, Value>

  /** The unit-less length `n`. */
  function Number(n: real): Value {
    LengthValue(Length(n, NoUnit))
  }

  /** The number of a length attribute, 0 when it is missing (or is not a length). */
  function NumOrZero(attrs: Attrs, k: AttrId): real {
    if k in attrs && attrs[k].LengthValue? then attrs[k].len.num else 0.0
  }

  /** `get_ts`: the node's transform, the identity when it has none. */
  function GetTs(attrs: Attrs): (ts: Transform)
    ensures TransformAttr !in attrs ==> ts == IDENTITY
  {
    if TransformAttr in attrs && attrs[TransformAttr].TransformValue? then attrs[TransformAttr].ts else IDENTITY
  }

  /** The point stored in the attribute pair (kx, ky), missing coordinates read as 0. */
  function PointOf(attrs: Attrs, kx: AttrId, ky: AttrId): Point {
    Point(NumOrZero(attrs, kx), NumOrZero(attrs, ky))
  }

  /**
   * `transform_coords`: replaces the coordinate pair (kx, ky) by its image
   * under `ts`; both coordinates are written, as unit-less numbers, even when
   * they were missing.
   */
  function TransformCoords(attrs: Attrs, kx: AttrId, ky: AttrId, ts: Transform): Attrs {
    var p := Apply(ts, PointOf(attrs, kx, ky));
    attrs[kx := Number(p.x)][ky := Number(p.y)]
  }

  /** What `transform_coords` promises: the point moves, both coordinates become unit-less, nothing else changes. */
  lemma TransformCoordsSpec(attrs: Attrs, kx: AttrId, ky: AttrId, ts: Transform)
    requires kx != ky
    ensures var r := TransformCoords(attrs, kx, ky, ts);
      && r.Keys == attrs.Keys + {kx, ky}
      && PointOf(r, kx, ky) == Apply(ts, PointOf(attrs, kx, ky))
      && r[kx].LengthValue? && r[kx].len.unit == NoUnit
      && r[ky].LengthValue? && r[ky].len.unit == NoUnit
      && forall k :: k in attrs && k != kx && k != ky ==> r[k] == attrs[k]
  {
  }

  /** A length value multiplied by `s`, its unit kept; other values unchanged. */
  function ScaleValue(v: Value, s: real): Value {
    if v.LengthValue? then LengthValue(Length(v.len.num * s, v.len.unit)) else v
  }

  /**
   * `scale_coord`: multiplies the attribute `k` by `s` when it is present;
   * a missing attribute is not created.
   */
  function ScaleCoord(attrs: Attrs, k: AttrId, s: real): Attrs {
    if k in attrs then attrs[k := ScaleValue(attrs[k], s)] else attrs
  }

  /**
   * The stroke width in effect on a node: its own `stroke-width` when that is
   * a length, otherwise the width it inherits (resolved by the caller; 1 when
   * no ancestor sets one).
   */
  function EffectiveStrokeWidth(attrs: Attrs, inherited: Length): Length {
    if StrokeWidth in attrs && attrs[StrokeWidth].LengthValue? then attrs[StrokeWidth].len else inherited
  }

  /**
   * The attribute update of `recalc_stroke_width(node, sx)`: the effective
   * width scaled by `sx` is written as the node's own `stroke-width`.
   */
  function RecalcStrokeWidth(attrs: Attrs, sx: real, inherited: Length): Attrs {
    attrs[StrokeWidth := ScaleValue(LengthValue(EffectiveStrokeWidth(attrs, inherited)), sx)]
  }
}
