/** The `Rect` value type of `src/layout.rs`: an origin and an extent, with
    its edge accessors and its two conversions. The source's `f32` fields
    are modelled as exact reals. */
module Geometry {

  import opened Numeric

  datatype Rect = Rect(x: real, y: real, w: real, h: real)

  function Left(r: Rect): real { r.x }
  function Right(r: Rect): real { r.x + r.w }
  function Top(r: Rect): real { r.y }
  function Bottom(r: Rect): real { r.y + r.h }

  /** The edges lie exactly one extent apart, and a non-negative extent keeps
      them in order. */
  lemma EdgeOffsets(r: Rect)
    ensures Right(r) - Left(r) == r.w && Bottom(r) - Top(r) == r.h
    ensures r.w >= 0.0 ==> Left(r) <= Right(r)
    ensures r.h >= 0.0 ==> Top(r) <= Bottom(r)
  {
  }

  /** `From<(u32, u32, u32, u32)>`: the four components are stored unchanged,
      so every field is non-negative and the edges are ordered. */
  function FromTuple(x: u32, y: u32, w: u32, h: u32): (r: Rect)
    ensures r.x == x as real && r.y == y as real && r.w == w as real && r.h == h as real
    ensures r.x >= 0.0 && r.y >= 0.0 && r.w >= 0.0 && r.h >= 0.0
    ensures Left(r) <= Right(r) && Top(r) <= Bottom(r)
  {
    Rect(x as real, y as real, w as real, h as real)
  }

  /** egui's point and rectangle: the rectangle is given by its two corners. */
  datatype Pos2 = Pos2(x: real, y: real)
  datatype EguiRect = EguiRect(min: Pos2, max: Pos2)

  /** `From<egui::Rect>` as written: the minimum corner becomes the origin and
      the maximum corner is stored as the extent, so the right and bottom
      edges land at `min + max` rather than at the maximum corner. */
  function FromEguiRect(e: EguiRect): (r: Rect)
    ensures Left(r) == e.min.x && Top(r) == e.min.y
    ensures Right(r) == e.min.x + e.max.x && Bottom(r) == e.min.y + e.max.y
  {
    Rect(e.min.x, e.min.y, e.max.x, e.max.y)
  }

  /** A corner-to-extent conversion that keeps the rectangle's edges: the
      extent is the distance between the corners. */
  function FromEguiRectSpan(e: EguiRect): (r: Rect)
    ensures Left(r) == e.min.x && Top(r) == e.min.y
    ensures Right(r) == e.max.x && Bottom(r) == e.max.y
    ensures e.min.x <= e.max.x && e.min.y <= e.max.y ==> r.w >= 0.0 && r.h >= 0.0
  {
    Rect(e.min.x, e.min.y, e.max.x - e.min.x, e.max.y - e.min.y)
  }

  /** The corners (1, 0) and (3, 2) come out with the right edge at 4, one
      unit past the maximum corner. */
  lemma EguiConversionShiftsRightEdge()
    ensures var e := EguiRect(Pos2(1.0, 0.0), Pos2(3.0, 2.0));
            Right(FromEguiRect(e)) == 4.0 && Right(FromEguiRect(e)) != e.max.x
  {
  }

  /** The conversion as written agrees with the edge-keeping one exactly when
      the minimum corner is the origin. */
  lemma EguiConversionsAgreeAtOrigin(e: EguiRect)
    ensures FromEguiRect(e) == FromEguiRectSpan(e) <==> e.min == Pos2(0.0, 0.0)
  {
    if FromEguiRect(e) == FromEguiRectSpan(e) {
      assert e.max.x == e.max.x - e.min.x;
      assert e.max.y == e.max.y - e.min.y;
    }
  }
}
