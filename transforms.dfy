/**
 * 2-D affine transforms as used by the transform-folding pass.
 *
 * A transform is the matrix
 *     | a c e |
 *     | b d f |
 *     | 0 0 1 |
 * over exact reals (svgcleaner's floating-point rounding and its float
 * tolerance are not modelled).
 */
module Transforms {

  datatype Transform = Transform(a: real, b: real, c: real, d: real, e: real, f: real)

  datatype Point = Point(x: real, y: real)

  const IDENTITY: Transform := Transform(1.0, 0.0, 0.0, 1.0, 0.0, 0.0)

  /** `translate(tx ty)` */
  function Translate(tx: real, ty: real): Transform {
    Transform(1.0, 0.0, 0.0, 1.0, tx, ty)
  }

  /** `scale(sx sy)` */
  function Scale(sx: real, sy: real): Transform {
    Transform(sx, 0.0, 0.0, sy, 0.0, 0.0)
  }

  /** Maps a point through the matrix: (a*x + c*y + e, b*x + d*y + f). */
  function Apply(ts: Transform, p: Point): Point {
    Point(ts.a * p.x + ts.c * p.y + ts.e, ts.b * p.x + ts.d * p.y + ts.f)
  }

  /**
   * `ts1.append(ts2)`: the matrix product ts1 * ts2, so that the result maps a
   * point first through ts2 and then through ts1.
   */
  function Append(ts1: Transform, ts2: Transform): (r: Transform)
    ensures forall p {:trigger Apply(r, p)} :: Apply(r, p) == Apply(ts1, Apply(ts2, p))
  {
    var r := Transform(ts1.a * ts2.a + ts1.c * ts2.b,
                       ts1.b * ts2.a + ts1.d * ts2.b,
                       ts1.a * ts2.c + ts1.c * ts2.d,
                       ts1.b * ts2.c + ts1.d * ts2.d,
                       ts1.a * ts2.e + ts1.c * ts2.f + ts1.e,
                       ts1.b * ts2.e + ts1.d * ts2.f + ts1.f);
    assert forall p {:trigger Apply(r, p)} :: Apply(r, p) == Apply(ts1, Apply(ts2, p)) by {
      forall p ensures Apply(r, p) == Apply(ts1, Apply(ts2, p)) {
        ApplyAppend(ts1, ts2, p);
      }
    }
    r
  }

  /** One point of the composition law: the product's entries are the row-by-column sums. */
  lemma ApplyAppend(ts1: Transform, ts2: Transform, p: Point)
    ensures Apply(Transform(ts1.a * ts2.a + ts1.c * ts2.b,
                            ts1.b * ts2.a + ts1.d * ts2.b,
                            ts1.a * ts2.c + ts1.c * ts2.d,
                            ts1.b * ts2.c + ts1.d * ts2.d,
                            ts1.a * ts2.e + ts1.c * ts2.f + ts1.e,
                            ts1.b * ts2.e + ts1.d * ts2.f + ts1.f), p)
            == Apply(ts1, Apply(ts2, p))
  {
  }

  /** The identity is neutral on both sides of `Append`. */
  lemma AppendIdentity(ts: Transform)
    ensures Append(IDENTITY, ts) == ts
    ensures Append(ts, IDENTITY) == ts
  {
  }

  /** A matrix is determined by where it sends the origin and the two unit points. */
  lemma SameAction(l: Transform, r: Transform)
    requires Apply(l, Point(0.0, 0.0)) == Apply(r, Point(0.0, 0.0))
    requires Apply(l, Point(1.0, 0.0)) == Apply(r, Point(1.0, 0.0))
    requires Apply(l, Point(0.0, 1.0)) == Apply(r, Point(0.0, 1.0))
    ensures l == r
  {
  }

  /** Pushing a group matrix down twice is the same as pushing their product once. */
  lemma AppendAssociative(t1: Transform, t2: Transform, t3: Transform)
    ensures Append(Append(t1, t2), t3) == Append(t1, Append(t2, t3))
  {
    var l := Append(Append(t1, t2), t3);
    var r := Append(t1, Append(t2, t3));
    forall p | p in {Point(0.0, 0.0), Point(1.0, 0.0), Point(0.0, 1.0)}
      ensures Apply(l, p) == Apply(r, p)
    {
      calc {
        Apply(l, p);
        Apply(Append(t1, t2), Apply(t3, p));
        Apply(t1, Apply(t2, Apply(t3, p)));
        Apply(t1, Apply(Append(t2, t3), p));
        Apply(r, p);
      }
    }
    SameAction(l, r);
  }

  /** `translate(tx ty) scale(sx sy)` is the single matrix (sx, 0, 0, sy, tx, ty). */
  lemma TranslateThenScale(tx: real, ty: real, sx: real, sy: real)
    ensures Append(Translate(tx, ty), Scale(sx, sy)) == Transform(sx, 0.0, 0.0, sy, tx, ty)
  {
  }
}
