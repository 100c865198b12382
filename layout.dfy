/** The `Layout` builder of `src/layout.rs` and the constraint system that
    `Layout::horizontal` hands to its solver. The solver is an external
    library; what it receives is modelled as the sequence of constraints
    added to it, in order, and the solving itself is not modelled. */
module Layout {

  import opened Numeric
  import opened Geometry
  import opened LinearConstraints

  /** egui's `Direction`. */
  datatype Direction = LeftToRight | RightToLeft | TopDown | BottomUp

  /** The sizing rules a layout may carry. The source declares them but never
      interprets them. */
  datatype LayoutConstraint =
    | Percentage(percent: u16)
    | Ratio(numerator: u32, denominator: u32)
    | Length(length: u16)
    | Max(max: u16)
    | Min(min: u16)

  datatype Layout = Layout(direction: Direction, constraints: seq<LayoutConstraint>)

  /** `Layout::default`: left to right, with no sizing rules. */
  function Default(): (l: Layout)
    ensures l.direction == LeftToRight && l.constraints == []
  {
    Layout(LeftToRight, [])
  }

  /** `Layout::constraints`: replaces the sizing rules, keeps the direction. */
  function WithConstraints(l: Layout, cs: seq<LayoutConstraint>): (r: Layout)
    ensures r.constraints == cs && r.direction == l.direction
  {
    l.(constraints := cs)
  }

  // The solver variables `horizontal` allocates: the two area bounds first,
  // then a left and a right bound per chunk. Each allocation is fresh, so
  // distinct roles get distinct numbers.
  const AREA_LEFT: VarId := 0
  const AREA_RIGHT: VarId := 1
  function ChunkLeft(i: nat): VarId { 2 + 2 * i }
  function ChunkRight(i: nat): VarId { 3 + 2 * i }

  /** The sum of the weights, added from the first to the last. */
  function Sum(s: seq<real>): real
  {
    if s == [] then 0.0 else Sum(s[..|s| - 1]) + s[|s| - 1]
  }

  /** The weights can be divided by `total`: some weight exists only if the
      total is non-zero. */
  predicate Divisible(chunks: seq<real>, total: real)
  {
    chunks == [] || total != 0.0
  }

  /** `partial_area`: the fraction `numerator / total` of the width a chunk
      asks for. */
  function PartialArea(numerator: real, total: real): real
    requires total != 0.0
  {
    numerator / total
  }

  /** The given fraction of the width `w`. */
  function OfWidth(fraction: real, w: real): real
  {
    fraction * w
  }

  /** The running share `curr` before chunk `n`: the shares of the first `n`
      chunks, accumulated one at a time. */
  function Prefix(chunks: seq<real>, total: real, n: nat): real
    requires n <= |chunks| && Divisible(chunks, total)
  {
    if n == 0 then 0.0 else Prefix(chunks, total, n - 1) + PartialArea(chunks[n - 1], total)
  }

  /** The two required pins of the area's bounds to its left and right edges. */
  function AreaPins(area: Rect): seq<Constraint>
  {
    [ Constraint(Variable(AREA_LEFT), Eq, Required, Constant(Left(area))),
      Constraint(Variable(AREA_RIGHT), Eq, Required, Constant(Right(area))) ]
  }

  /** The three constraints added for chunk `i`, whose share of the width is
      `share` and whose running share before it is `curr`. */
  function ChunkConstraints(i: nat, share: real, curr: real, w: real): seq<Constraint>
  {
    [ Constraint(Difference(ChunkRight(i), ChunkLeft(i)), Eq, Strong, Constant(OfWidth(share, w))),
      Constraint(Variable(ChunkLeft(i)), Ge, Required, Constant(OfWidth(curr, w))),
      Constraint(Variable(ChunkRight(i)), Ge, Required, Variable(ChunkLeft(i))) ]
  }

  /** The constraints added for the first `n` chunks. */
  function ChunksConstraints(chunks: seq<real>, total: real, w: real, n: nat): seq<Constraint>
    requires n <= |chunks| && Divisible(chunks, total)
  {
    if n == 0 then []
    else ChunksConstraints(chunks, total, w, n - 1)
         + ChunkConstraints(n - 1, PartialArea(chunks[n - 1], total), Prefix(chunks, total, n - 1), w)
  }

  /** Everything `horizontal` adds to its solver, in order. */
  function HorizontalConstraints(area: Rect, chunks: seq<real>): seq<Constraint>
    requires Divisible(chunks, Sum(chunks))
  {
    AreaPins(area) + ChunksConstraints(chunks, Sum(chunks), area.w, |chunks|)
  }

  /** `Layout::horizontal`: pins the area bounds, then walks the chunk weights
      adding three constraints per chunk while accumulating the running share.
      Returns the layout it builds and the constraints it added. */
  method Horizontal(area: Rect, chunks: seq<real>) returns (layout: Layout, added: seq<Constraint>)
    requires Divisible(chunks, Sum(chunks))
    ensures layout.direction == LeftToRight && layout.constraints == []
    ensures added == HorizontalConstraints(area, chunks)
  {
    added := [ Constraint(Variable(AREA_LEFT), Eq, Required, Constant(Left(area))),
               Constraint(Variable(AREA_RIGHT), Eq, Required, Constant(Right(area))) ];
    var total := Sum(chunks);
    var curr := 0.0;
    for i := 0 to |chunks|
      invariant curr == Prefix(chunks, total, i)
      invariant added == AreaPins(area) + ChunksConstraints(chunks, total, area.w, i)
    {
      var left, right := ChunkLeft(i), ChunkRight(i);
      var partialArea := chunks[i] / total;
      var chunk := [ Constraint(Difference(right, left), Eq, Strong, Constant(partialArea * area.w)),
                     Constraint(Variable(left), Ge, Required, Constant(curr * area.w)),
                     Constraint(Variable(right), Ge, Required, Variable(left)) ];
      ghost var spec := ChunkConstraints(i, partialArea, curr, area.w);
      assert chunk[0] == spec[0];
      assert chunk[1] == spec[1];
      assert chunk[2] == spec[2];
      assert chunk == spec;
      assert (added + chunk)[..2] == AreaPins(area);
      assert (added + chunk)[2..] == ChunksConstraints(chunks, total, area.w, i + 1);
      added := added + chunk;
      curr := curr + partialArea;
    }
    layout := Layout(LeftToRight, []);
  }
}
