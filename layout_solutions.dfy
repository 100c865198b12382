/** Assignments that satisfy the constraint system built by
    `Layout::horizontal`: its required part is always satisfiable, and with
    non-negative weights the chunks can be laid side by side, either from 0 or
    from the area's left edge. */
module LayoutSolutions {

  import opened Geometry
  import opened LinearConstraints
  import opened Layout
  import opened LayoutProperties

  /** The value of a variable when the area bounds sit on the area's edges and
      every chunk is collapsed onto its required lower bound. */
  function CollapsedValue(area: Rect, chunks: seq<real>, v: VarId): real
    requires Divisible(chunks, Sum(chunks))
  {
    if v == AREA_LEFT then Left(area)
    else if v == AREA_RIGHT then Right(area)
    else if (v - 2) / 2 < |chunks| then OfWidth(Prefix(chunks, Sum(chunks), (v - 2) / 2), area.w)
    else 0.0
  }

  function Collapsed(area: Rect, chunks: seq<real>): VarId -> real
    requires Divisible(chunks, Sum(chunks))
  {
    (v: VarId) => CollapsedValue(area, chunks, v)
  }

  /** The required constraints alone can always be met together, whatever the
      area and the weights: collapsing every chunk onto its lower bound does. */
  lemma RequiredAlwaysSatisfiable(area: Rect, chunks: seq<real>)
    requires Divisible(chunks, Sum(chunks))
    ensures HoldsAt(HorizontalConstraints(area, chunks), Required, Collapsed(area, chunks))
  {
    var a := Collapsed(area, chunks);
    var total := Sum(chunks);
    forall i | 0 <= i < |chunks| ensures WithinBounds(chunks, total, area.w, i, a) {
      assert (ChunkLeft(i) - 2) / 2 == i && (ChunkRight(i) - 2) / 2 == i;
    }
    ChunksRequiredMeaning(chunks, total, area.w, |chunks|, a);
    AreaPinsMeaning(area, a);
    HoldsAtAppend(AreaPins(area), ChunksConstraints(chunks, total, area.w, |chunks|), Required, a);
  }

  /** The value of a variable when the area bounds sit on the area's edges and
      chunk `i` runs from its running share of the width to the next one. */
  function IdealValue(area: Rect, chunks: seq<real>, v: VarId): real
    requires Divisible(chunks, Sum(chunks))
  {
    if v == AREA_LEFT then Left(area)
    else if v == AREA_RIGHT then Right(area)
    else if (v - 2) / 2 < |chunks| then OfWidth(Prefix(chunks, Sum(chunks), (v - 2) / 2 + (v - 2) % 2), area.w)
    else 0.0
  }

  function Ideal(area: Rect, chunks: seq<real>): VarId -> real
    requires Divisible(chunks, Sum(chunks))
  {
    (v: VarId) => IdealValue(area, chunks, v)
  }

  lemma IdealBounds(area: Rect, chunks: seq<real>, i: nat)
    requires Divisible(chunks, Sum(chunks)) && i < |chunks|
    ensures Ideal(area, chunks)(ChunkLeft(i)) == OfWidth(Prefix(chunks, Sum(chunks), i), area.w)
    ensures Ideal(area, chunks)(ChunkRight(i)) == OfWidth(Prefix(chunks, Sum(chunks), i + 1), area.w)
  {
    assert (ChunkLeft(i) - 2) / 2 == i && (ChunkLeft(i) - 2) % 2 == 0;
    assert (ChunkRight(i) - 2) / 2 == i && (ChunkRight(i) - 2) % 2 == 1;
  }

  lemma OfWidthAdds(p: real, s: real, w: real)
    ensures OfWidth(p + s, w) - OfWidth(p, w) == OfWidth(s, w)
  {
    assert (p + s) * w == p * w + s * w;
  }

  lemma IdealChunk(area: Rect, chunks: seq<real>, i: nat)
    requires NonNegative(chunks) && Sum(chunks) > 0.0 && area.w >= 0.0 && i < |chunks|
    ensures WithinBounds(chunks, Sum(chunks), area.w, i, Ideal(area, chunks))
    ensures OnTarget(chunks, Sum(chunks), area.w, i, Ideal(area, chunks))
  {
    var total := Sum(chunks);
    var p, s := Prefix(chunks, total, i), PartialArea(chunks[i], total);
    IdealBounds(area, chunks, i);
    assert Prefix(chunks, total, i + 1) == p + s;
    PrefixMonotone(chunks, total, i, i + 1);
    ScaleMonotone(p, p + s, area.w);
    OfWidthAdds(p, s, area.w);
  }

  /** With non-negative weights and width, placing every chunk between its
      running shares of the width meets every constraint, the strong extent
      targets included. */
  lemma IdealSatisfiesAll(area: Rect, chunks: seq<real>)
    requires NonNegative(chunks) && Sum(chunks) > 0.0 && area.w >= 0.0
    ensures HoldsAt(HorizontalConstraints(area, chunks), Required, Ideal(area, chunks))
    ensures HoldsAt(HorizontalConstraints(area, chunks), Strong, Ideal(area, chunks))
  {
    var a := Ideal(area, chunks);
    var total := Sum(chunks);
    var tail := ChunksConstraints(chunks, total, area.w, |chunks|);
    forall i | 0 <= i < |chunks|
      ensures WithinBounds(chunks, total, area.w, i, a) && OnTarget(chunks, total, area.w, i, a)
    {
      IdealChunk(area, chunks, i);
    }
    ChunksRequiredMeaning(chunks, total, area.w, |chunks|, a);
    ChunksStrongMeaning(chunks, total, area.w, |chunks|, a);
    AreaPinsMeaning(area, a);
    HoldsAtAppend(AreaPins(area), tail, Required, a);
    HoldsAtAppend(AreaPins(area), tail, Strong, a);
  }

  /** In that placement adjacent chunks share an edge, the first chunk starts
      at 0 and the last ends at the area's width. */
  lemma IdealPlacement(area: Rect, chunks: seq<real>)
    requires chunks != [] && Sum(chunks) != 0.0
    ensures forall i | 0 <= i < |chunks| - 1 ::
      Ideal(area, chunks)(ChunkRight(i)) == Ideal(area, chunks)(ChunkLeft(i + 1))
    ensures Ideal(area, chunks)(ChunkLeft(0)) == 0.0
    ensures Ideal(area, chunks)(ChunkRight(|chunks| - 1)) == area.w
  {
    forall i | 0 <= i < |chunks| - 1
      ensures Ideal(area, chunks)(ChunkRight(i)) == Ideal(area, chunks)(ChunkLeft(i + 1))
    {
      IdealBounds(area, chunks, i);
      IdealBounds(area, chunks, i + 1);
    }
    IdealBounds(area, chunks, 0);
    IdealBounds(area, chunks, |chunks| - 1);
    SharesSumToOne(chunks);
    var one := Prefix(chunks, Sum(chunks), |chunks|);
    assert OfWidth(one, area.w) == area.w;
  }

  /** The side-by-side placement shifted right so that it starts at the
      area's left edge; the area's bound variables stay on its edges. */
  function AnchoredValue(area: Rect, chunks: seq<real>, v: VarId): real
    requires Divisible(chunks, Sum(chunks))
  {
    if v == AREA_LEFT || v == AREA_RIGHT then IdealValue(area, chunks, v)
    else Left(area) + IdealValue(area, chunks, v)
  }

  function Anchored(area: Rect, chunks: seq<real>): VarId -> real
    requires Divisible(chunks, Sum(chunks))
  {
    (v: VarId) => AnchoredValue(area, chunks, v)
  }

  /** Off the area's bound variables, the anchored placement is the
      side-by-side one moved right by `Left(area)`. */
  lemma AnchoredIsShifted(area: Rect, chunks: seq<real>, v: VarId)
    requires Divisible(chunks, Sum(chunks)) && v != AREA_LEFT && v != AREA_RIGHT
    ensures Anchored(area, chunks)(v) == Left(area) + Ideal(area, chunks)(v)
  {
  }

  lemma AnchoredChunk(area: Rect, chunks: seq<real>, i: nat)
    requires NonNegative(chunks) && Sum(chunks) > 0.0 && area.w >= 0.0 && area.x >= 0.0 && i < |chunks|
    ensures WithinBounds(chunks, Sum(chunks), area.w, i, Anchored(area, chunks))
    ensures OnTarget(chunks, Sum(chunks), area.w, i, Anchored(area, chunks))
  {
    IdealChunk(area, chunks, i);
    AnchoredIsShifted(area, chunks, ChunkLeft(i));
    AnchoredIsShifted(area, chunks, ChunkRight(i));
  }

  /** The constraints do not force the chunks away from the area either: when
      the area lies right of the origin, the side-by-side placement shifted to
      start at the area's left edge meets every constraint. Which solution the
      solver picks is not determined by the constraints. */
  lemma AnchoredSatisfiesAll(area: Rect, chunks: seq<real>)
    requires NonNegative(chunks) && Sum(chunks) > 0.0 && area.w >= 0.0 && area.x >= 0.0
    ensures HoldsAt(HorizontalConstraints(area, chunks), Required, Anchored(area, chunks))
    ensures HoldsAt(HorizontalConstraints(area, chunks), Strong, Anchored(area, chunks))
  {
    var a := Anchored(area, chunks);
    var total := Sum(chunks);
    var tail := ChunksConstraints(chunks, total, area.w, |chunks|);
    forall i | 0 <= i < |chunks|
      ensures WithinBounds(chunks, total, area.w, i, a) && OnTarget(chunks, total, area.w, i, a)
    {
      AnchoredChunk(area, chunks, i);
    }
    ChunksRequiredMeaning(chunks, total, area.w, |chunks|, a);
    ChunksStrongMeaning(chunks, total, area.w, |chunks|, a);
    assert a(AREA_LEFT) == Left(area) && a(AREA_RIGHT) == Right(area);
    AreaPinsMeaning(area, a);
    HoldsAtAppend(AreaPins(area), tail, Required, a);
    HoldsAtAppend(AreaPins(area), tail, Strong, a);
  }

  /** In the anchored placement the first chunk starts at the area's left
      edge, the last ends at its right edge, and adjacent chunks share an edge. */
  lemma AnchoredPlacement(area: Rect, chunks: seq<real>)
    requires chunks != [] && Sum(chunks) != 0.0
    ensures forall i | 0 <= i < |chunks| - 1 ::
      Anchored(area, chunks)(ChunkRight(i)) == Anchored(area, chunks)(ChunkLeft(i + 1))
    ensures Anchored(area, chunks)(ChunkLeft(0)) == Left(area)
    ensures Anchored(area, chunks)(ChunkRight(|chunks| - 1)) == Right(area)
  {
    IdealPlacement(area, chunks);
    forall i | 0 <= i < |chunks| - 1
      ensures Anchored(area, chunks)(ChunkRight(i)) == Anchored(area, chunks)(ChunkLeft(i + 1))
    {
      AnchoredIsShifted(area, chunks, ChunkRight(i));
      AnchoredIsShifted(area, chunks, ChunkLeft(i + 1));
    }
    AnchoredIsShifted(area, chunks, ChunkLeft(0));
    AnchoredIsShifted(area, chunks, ChunkRight(|chunks| - 1));
  }

  /** When the area lies left of the origin, no assignment that meets the
      required constraints starts the first chunk at the area's left edge:
      that chunk's lower bound is 0. */
  lemma CannotAnchorLeftOfOrigin(area: Rect, chunks: seq<real>, a: VarId -> real)
    requires chunks != [] && Sum(chunks) != 0.0 && area.x < 0.0
    requires HoldsAt(HorizontalConstraints(area, chunks), Required, a)
    ensures a(ChunkLeft(0)) > Left(area)
  {
    var total := Sum(chunks);
    var tail := ChunksConstraints(chunks, total, area.w, |chunks|);
    HoldsAtAppend(AreaPins(area), tail, Required, a);
    ChunksRequiredMeaning(chunks, total, area.w, |chunks|, a);
    assert WithinBounds(chunks, total, area.w, 0, a);
    assert OfWidth(Prefix(chunks, total, 0), area.w) == 0.0;
  }
}
