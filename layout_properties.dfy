/** What the constraint system built by `Layout::horizontal` says: its shape,
    the shares and running shares it is built from, and assignments that
    satisfy it. */
module LayoutProperties {

  import opened Geometry
  import opened LinearConstraints
  import opened Layout

  predicate NonNegative(chunks: seq<real>)
  {
    forall k | 0 <= k < |chunks| :: chunks[k] >= 0.0
  }

  lemma {:induction false} ChunksConstraintsLength(chunks: seq<real>, total: real, w: real, n: nat)
    requires n <= |chunks| && Divisible(chunks, total)
    ensures |ChunksConstraints(chunks, total, w, n)| == 3 * n
  {
    if n > 0 {
      ChunksConstraintsLength(chunks, total, w, n - 1);
    }
  }

  /** Chunk `i`'s three constraints sit at positions `3 * i` to `3 * i + 2`. */
  lemma {:induction false} ChunksConstraintsAt(chunks: seq<real>, total: real, w: real, n: nat, i: nat)
    requires n <= |chunks| && Divisible(chunks, total) && i < n
    ensures |ChunksConstraints(chunks, total, w, n)| == 3 * n
    ensures ChunksConstraints(chunks, total, w, n)[3 * i .. 3 * i + 3]
         == ChunkConstraints(i, PartialArea(chunks[i], total), Prefix(chunks, total, i), w)
  {
    ChunksConstraintsLength(chunks, total, w, n);
    ChunksConstraintsLength(chunks, total, w, n - 1);
    if i < n - 1 {
      ChunksConstraintsAt(chunks, total, w, n - 1, i);
      var prev := ChunksConstraints(chunks, total, w, n - 1);
      var last := ChunkConstraints(n - 1, PartialArea(chunks[n - 1], total), Prefix(chunks, total, n - 1), w);
      assert (prev + last)[3 * i .. 3 * i + 3] == prev[3 * i .. 3 * i + 3];
    }
  }

  lemma ChunkConstraintsShape(i: nat, share: real, curr: real, w: real)
    ensures var cs := ChunkConstraints(i, share, curr, w);
      && |cs| == 3
      && cs[0] == Constraint(Difference(ChunkRight(i), ChunkLeft(i)), Eq, Strong, Constant(OfWidth(share, w)))
      && cs[1] == Constraint(Variable(ChunkLeft(i)), Ge, Required, Constant(OfWidth(curr, w)))
      && cs[2] == Constraint(Variable(ChunkRight(i)), Ge, Required, Variable(ChunkLeft(i)))
  {
  }

  /** The running share before chunk `n` is the sum of the first `n` weights
      divided by the total. */
  lemma {:induction false} PrefixIsScaledSum(chunks: seq<real>, total: real, n: nat)
    requires n <= |chunks| && Divisible(chunks, total) && total != 0.0
    ensures Prefix(chunks, total, n) == Sum(chunks[..n]) / total
  {
    if n == 0 {
      assert chunks[..0] == [];
    } else {
      PrefixIsScaledSum(chunks, total, n - 1);
      assert chunks[..n][..n - 1] == chunks[..n - 1];
      assert Sum(chunks[..n]) == Sum(chunks[..n - 1]) + chunks[n - 1];
    }
  }

  /** With the total taken as the sum of the weights, the shares add up to 1:
      `curr` is 1 once every chunk has been visited. */
  lemma SharesSumToOne(chunks: seq<real>)
    requires chunks != [] && Sum(chunks) != 0.0
    ensures Prefix(chunks, Sum(chunks), |chunks|) == 1.0
  {
    PrefixIsScaledSum(chunks, Sum(chunks), |chunks|);
    assert chunks[..|chunks|] == chunks;
    assert Sum(chunks) / Sum(chunks) == 1.0;
  }

  /** The whole emitted system: two required pins of the area bounds to the
      area's left and right edges, then for chunk `i` a strong target of
      `n_i / total` of the width for its extent, a required lower bound of
      `(n_0 + ... + n_(i-1)) / total` of the width for its left edge, and a
      required `right >= left`. */
  lemma HorizontalConstraintsAt(area: Rect, chunks: seq<real>, total: real, i: nat)
    requires total == Sum(chunks) && Divisible(chunks, total) && i < |chunks|
    ensures var cs := HorizontalConstraints(area, chunks);
      && |cs| == 2 + 3 * |chunks|
      && cs[0] == Constraint(Variable(AREA_LEFT), Eq, Required, Constant(Left(area)))
      && cs[1] == Constraint(Variable(AREA_RIGHT), Eq, Required, Constant(Right(area)))
      && cs[2 + 3 * i] == Constraint(Difference(ChunkRight(i), ChunkLeft(i)), Eq, Strong,
                                     Constant(OfWidth(PartialArea(chunks[i], total), area.w)))
      && cs[3 + 3 * i] == Constraint(Variable(ChunkLeft(i)), Ge, Required,
                                     Constant(OfWidth(Prefix(chunks, total, i), area.w)))
      && cs[4 + 3 * i] == Constraint(Variable(ChunkRight(i)), Ge, Required, Variable(ChunkLeft(i)))
  {
    var tail := ChunksConstraints(chunks, total, area.w, |chunks|);
    var triple := ChunkConstraints(i, PartialArea(chunks[i], total), Prefix(chunks, total, i), area.w);
    ChunksConstraintsAt(chunks, total, area.w, |chunks|, i);
    ChunkConstraintsShape(i, PartialArea(chunks[i], total), Prefix(chunks, total, i), area.w);
    TripleAfterPins(AreaPins(area), tail, i, triple);
  }

  /** Behind two leading pins, the triple at `3 * i` in `tail` is found at `2 + 3 * i`. */
  lemma TripleAfterPins(pins: seq<Constraint>, tail: seq<Constraint>, i: nat, triple: seq<Constraint>)
    requires |pins| == 2 && 3 * i + 3 <= |tail| && tail[3 * i .. 3 * i + 3] == triple
    ensures |triple| == 3
    ensures (pins + tail)[2 + 3 * i] == triple[0]
    ensures (pins + tail)[3 + 3 * i] == triple[1]
    ensures (pins + tail)[4 + 3 * i] == triple[2]
  {
  }

  /** The required lower bound on chunk `i`'s left edge is the fraction
      `(n_0 + ... + n_(i-1)) / total` of the width. */
  lemma LowerBoundIsRunningShare(area: Rect, chunks: seq<real>, i: nat)
    requires Divisible(chunks, Sum(chunks)) && i < |chunks|
    ensures var cs := HorizontalConstraints(area, chunks);
      |cs| == 2 + 3 * |chunks| && cs[3 + 3 * i].rhs == Constant(OfWidth(Sum(chunks[..i]) / Sum(chunks), area.w))
  {
    HorizontalConstraintsAt(area, chunks, Sum(chunks), i);
    PrefixIsScaledSum(chunks, Sum(chunks), i);
  }

  lemma ChunkCensus(cs: seq<Constraint>)
    requires |cs| == 3 && cs[0].strength == Strong && cs[1].strength == Required && cs[2].strength == Required
    ensures Count(cs, Required) == 2 && Count(cs, Strong) == 1
  {
    assert cs[1..][1..][1..] == [];
    assert Count(cs[1..][1..], Required) == 1 && Count(cs[1..][1..], Strong) == 0;
  }

  lemma {:induction false} ChunksCensus(chunks: seq<real>, total: real, w: real, n: nat)
    requires n <= |chunks| && Divisible(chunks, total)
    ensures Count(ChunksConstraints(chunks, total, w, n), Required) == 2 * n
    ensures Count(ChunksConstraints(chunks, total, w, n), Strong) == n
  {
    if n > 0 {
      ChunksCensus(chunks, total, w, n - 1);
      var last := ChunkConstraints(n - 1, PartialArea(chunks[n - 1], total), Prefix(chunks, total, n - 1), w);
      CountAppend(ChunksConstraints(chunks, total, w, n - 1), last, Required);
      CountAppend(ChunksConstraints(chunks, total, w, n - 1), last, Strong);
      ChunkCensus(last);
    }
  }

  /** Exactly three constraints per chunk beside the two pins: two required
      and one strong for each chunk. */
  lemma ConstraintCensus(area: Rect, chunks: seq<real>)
    requires Divisible(chunks, Sum(chunks))
    ensures |HorizontalConstraints(area, chunks)| == 2 + 3 * |chunks|
    ensures Count(HorizontalConstraints(area, chunks), Required) == 2 + 2 * |chunks|
    ensures Count(HorizontalConstraints(area, chunks), Strong) == |chunks|
  {
    var total := Sum(chunks);
    ChunksConstraintsLength(chunks, total, area.w, |chunks|);
    ChunksCensus(chunks, total, area.w, |chunks|);
    CountAppend(AreaPins(area), ChunksConstraints(chunks, total, area.w, |chunks|), Required);
    CountAppend(AreaPins(area), ChunksConstraints(chunks, total, area.w, |chunks|), Strong);
    var pins := AreaPins(area);
    assert pins[1..][1..] == [];
    assert Count(pins[1..], Required) == 1 && Count(pins[1..], Strong) == 0;
  }

  /** Weights [1, 4]: the first chunk targets 1/5 of the width, the second 4/5,
      and the second's left edge is bounded below by 1/5 of the width. */
  lemma OneFourSplit(area: Rect)
    ensures var cs := HorizontalConstraints(area, [1.0, 4.0]);
      && |cs| == 8
      && cs[2].rhs.constant == area.w / 5.0
      && cs[5].rhs.constant == 4.0 * area.w / 5.0
      && cs[6].rhs.constant == area.w / 5.0
  {
    var chunks := [1.0, 4.0];
    assert chunks[..1] == [1.0] && chunks[..1][..0] == [];
    assert Sum(chunks) == 5.0;
    HorizontalConstraintsAt(area, chunks, 5.0, 0);
    HorizontalConstraintsAt(area, chunks, 5.0, 1);
  }

  lemma {:induction false} PrefixMonotone(chunks: seq<real>, total: real, i: nat, j: nat)
    requires j <= |chunks| && NonNegative(chunks) && total > 0.0 && i <= j
    ensures Prefix(chunks, total, i) <= Prefix(chunks, total, j)
  {
    if i < j {
      PrefixMonotone(chunks, total, i, j - 1);
      assert PartialArea(chunks[j - 1], total) >= 0.0;
    }
  }

  lemma ScaleMonotone(p: real, q: real, w: real)
    requires p <= q && w >= 0.0
    ensures OfWidth(p, w) <= OfWidth(q, w)
  {
    assert q * w - p * w == (q - p) * w;
  }

  /** With non-negative weights and a non-negative width, the required lower
      bounds on the chunks' left edges never decrease from one chunk to the
      next. */
  lemma LowerBoundsNonDecreasing(area: Rect, chunks: seq<real>, i: nat, j: nat)
    requires NonNegative(chunks) && Sum(chunks) > 0.0 && area.w >= 0.0
    requires i <= j < |chunks|
    ensures var cs := HorizontalConstraints(area, chunks);
      |cs| == 2 + 3 * |chunks| && cs[3 + 3 * i].rhs.constant <= cs[3 + 3 * j].rhs.constant
  {
    var total := Sum(chunks);
    var cs := HorizontalConstraints(area, chunks);
    var lo, hi := OfWidth(Prefix(chunks, total, i), area.w), OfWidth(Prefix(chunks, total, j), area.w);
    assert |cs| == 2 + 3 * |chunks| && cs[3 + 3 * i].rhs.constant == lo by {
      LowerBoundAt(area, chunks, i);
    }
    assert cs[3 + 3 * j].rhs.constant == hi by {
      LowerBoundAt(area, chunks, j);
    }
    assert lo <= hi by {
      PrefixMonotone(chunks, total, i, j);
      ScaleMonotone(Prefix(chunks, total, i), Prefix(chunks, total, j), area.w);
    }
  }

  /** The constant of chunk `i`'s required lower bound is `curr * area.w`. */
  lemma LowerBoundAt(area: Rect, chunks: seq<real>, i: nat)
    requires Divisible(chunks, Sum(chunks)) && i < |chunks|
    ensures var cs := HorizontalConstraints(area, chunks);
      |cs| == 2 + 3 * |chunks| && cs[3 + 3 * i].rhs.constant == OfWidth(Prefix(chunks, Sum(chunks), i), area.w)
  {
    HorizontalConstraintsAt(area, chunks, Sum(chunks), i);
  }

  /** Only the pins depend on the area's origin: the chunk constraints are the
      same wherever the area sits, so the chunk lower bounds ignore `area.x`. */
  lemma ChunkConstraintsIgnoreOrigin(area: Rect, chunks: seq<real>, x: real, y: real)
    requires Divisible(chunks, Sum(chunks))
    ensures HorizontalConstraints(area, chunks)[2..]
         == HorizontalConstraints(area.(x := x, y := y), chunks)[2..]
  {
    var tail := ChunksConstraints(chunks, Sum(chunks), area.w, |chunks|);
    assert HorizontalConstraints(area, chunks)[2..] == tail;
    assert HorizontalConstraints(area.(x := x, y := y), chunks)[2..] == tail;
  }

  predicate Mentions(c: Constraint, v: VarId)
  {
    (exists t | t in c.lhs.terms :: t.variable == v) || (exists t | t in c.rhs.terms :: t.variable == v)
  }

  lemma {:induction false} ChunksAvoidAreaBounds(chunks: seq<real>, total: real, w: real, n: nat)
    requires n <= |chunks| && Divisible(chunks, total)
    ensures forall c | c in ChunksConstraints(chunks, total, w, n) ::
      !Mentions(c, AREA_LEFT) && !Mentions(c, AREA_RIGHT)
  {
    if n > 0 {
      ChunksAvoidAreaBounds(chunks, total, w, n - 1);
    }
  }

  /** No chunk constraint mentions the area's bound variables: the chunks are
      tied to the area only through `area.w` in their constants, so they are
      not anchored to the area's left and right edges. */
  lemma ChunksDetachedFromArea(area: Rect, chunks: seq<real>, k: nat)
    requires Divisible(chunks, Sum(chunks)) && 2 <= k < |HorizontalConstraints(area, chunks)|
    ensures !Mentions(HorizontalConstraints(area, chunks)[k], AREA_LEFT)
    ensures !Mentions(HorizontalConstraints(area, chunks)[k], AREA_RIGHT)
  {
    var tail := ChunksConstraints(chunks, Sum(chunks), area.w, |chunks|);
    ChunksAvoidAreaBounds(chunks, Sum(chunks), area.w, |chunks|);
    assert HorizontalConstraints(area, chunks)[k] == tail[k - 2];
  }

  lemma HoldsAtAppend(xs: seq<Constraint>, ys: seq<Constraint>, s: Strength, a: VarId -> real)
    ensures HoldsAt(xs + ys, s, a) <==> HoldsAt(xs, s, a) && HoldsAt(ys, s, a)
  {
    if HoldsAt(xs, s, a) && HoldsAt(ys, s, a) {
      forall c | c in xs + ys && c.strength == s ensures Holds(c, a) {
        assert c in xs || c in ys;
      }
    }
  }

  /** The pins are met exactly when the area's bound variables sit on the
      area's edges; they place no strong demand. */
  lemma AreaPinsMeaning(area: Rect, a: VarId -> real)
    ensures HoldsAt(AreaPins(area), Required, a)
        <==> a(AREA_LEFT) == Left(area) && a(AREA_RIGHT) == Right(area)
    ensures HoldsAt(AreaPins(area), Strong, a)
  {
    var cs := AreaPins(area);
    EvalBuilders(AREA_LEFT, AREA_RIGHT, AREA_LEFT, Left(area), a);
    EvalBuilders(AREA_RIGHT, AREA_RIGHT, AREA_LEFT, Right(area), a);
    assert forall c :: c in cs <==> c == cs[0] || c == cs[1];
  }

  /** Chunk `i`'s required constraints are met exactly when its left bound is
      at least its running share of the width and its right bound is not left
      of its left bound. */
  lemma ChunkRequiredMeaning(i: nat, share: real, curr: real, w: real, a: VarId -> real)
    ensures HoldsAt(ChunkConstraints(i, share, curr, w), Required, a)
        <==> a(ChunkLeft(i)) >= OfWidth(curr, w) && a(ChunkRight(i)) >= a(ChunkLeft(i))
  {
    var cs := ChunkConstraints(i, share, curr, w);
    ChunkConstraintsShape(i, share, curr, w);
    EvalBuilders(ChunkLeft(i), ChunkRight(i), ChunkLeft(i), OfWidth(curr, w), a);
    assert forall c :: c in cs <==> c == cs[0] || c == cs[1] || c == cs[2];
  }

  /** Chunk `i`'s strong constraint is met exactly when its extent is its
      share of the width. */
  lemma ChunkStrongMeaning(i: nat, share: real, curr: real, w: real, a: VarId -> real)
    ensures HoldsAt(ChunkConstraints(i, share, curr, w), Strong, a)
        <==> a(ChunkRight(i)) - a(ChunkLeft(i)) == OfWidth(share, w)
  {
    var cs := ChunkConstraints(i, share, curr, w);
    ChunkConstraintsShape(i, share, curr, w);
    EvalBuilders(ChunkRight(i), ChunkRight(i), ChunkLeft(i), OfWidth(share, w), a);
    assert forall c :: c in cs <==> c == cs[0] || c == cs[1] || c == cs[2];
  }

  /** The constraints of strength `s` added for the first `n` chunks hold under `a`. */
  predicate ChunksHold(chunks: seq<real>, total: real, w: real, n: nat, s: Strength, a: VarId -> real)
    requires n <= |chunks| && Divisible(chunks, total)
  {
    HoldsAt(ChunksConstraints(chunks, total, w, n), s, a)
  }

  /** Chunk `i`'s left bound is at least its running share of the width, and
      its right bound is not left of its left bound. */
  predicate WithinBounds(chunks: seq<real>, total: real, w: real, i: nat, a: VarId -> real)
    requires i < |chunks| && Divisible(chunks, total)
  {
    a(ChunkLeft(i)) >= OfWidth(Prefix(chunks, total, i), w) && a(ChunkRight(i)) >= a(ChunkLeft(i))
  }

  /** Each of the first `n` chunks is within its bounds. */
  predicate AllWithinBounds(chunks: seq<real>, total: real, w: real, n: nat, a: VarId -> real)
    requires n <= |chunks| && Divisible(chunks, total)
  {
    forall i | 0 <= i < n :: WithinBounds(chunks, total, w, i, a)
  }

  /** Chunk `i`'s extent is its share of the width. */
  predicate OnTarget(chunks: seq<real>, total: real, w: real, i: nat, a: VarId -> real)
    requires i < |chunks| && Divisible(chunks, total)
  {
    a(ChunkRight(i)) - a(ChunkLeft(i)) == OfWidth(PartialArea(chunks[i], total), w)
  }

  /** Each of the first `n` chunks is on its target extent. */
  predicate AllOnTarget(chunks: seq<real>, total: real, w: real, n: nat, a: VarId -> real)
    requires n <= |chunks| && Divisible(chunks, total)
  {
    forall i | 0 <= i < n :: OnTarget(chunks, total, w, i, a)
  }

  /** One step of an inductive equivalence: if both sides grow by the same
      conjunct and agreed before, they agree after. */
  lemma IffChain(now: bool, before: bool, allNow: bool, allBefore: bool, step: bool)
    requires now <==> before && step
    requires allNow <==> allBefore && step
    requires before <==> allBefore
    ensures now <==> allNow
  {
  }

  /** An assignment meets the required chunk constraints exactly when every
      chunk is within its bounds. */
  lemma {:induction false} ChunksRequiredMeaning(chunks: seq<real>, total: real, w: real, n: nat, a: VarId -> real)
    requires n <= |chunks| && Divisible(chunks, total)
    ensures ChunksHold(chunks, total, w, n, Required, a)
        <==> AllWithinBounds(chunks, total, w, n, a)
  {
    if n > 0 {
      ChunksRequiredMeaning(chunks, total, w, n - 1, a);
      ChunksRequiredStep(chunks, total, w, n, a);
      WithinBoundsSplit(chunks, total, w, n, a);
      IffChain(ChunksHold(chunks, total, w, n, Required, a),
               ChunksHold(chunks, total, w, n - 1, Required, a),
               AllWithinBounds(chunks, total, w, n, a), AllWithinBounds(chunks, total, w, n - 1, a),
               WithinBounds(chunks, total, w, n - 1, a));
    }
  }

  /** The required constraints of the first `n` chunks hold exactly when those of
      the first `n - 1` do and chunk `n - 1`'s do. */
  lemma ChunksRequiredStep(chunks: seq<real>, total: real, w: real, n: nat, a: VarId -> real)
    requires 0 < n <= |chunks| && Divisible(chunks, total)
    ensures ChunksHold(chunks, total, w, n, Required, a)
        <==> ChunksHold(chunks, total, w, n - 1, Required, a) && WithinBounds(chunks, total, w, n - 1, a)
  {
    var last := ChunkConstraints(n - 1, PartialArea(chunks[n - 1], total), Prefix(chunks, total, n - 1), w);
    HoldsAtAppend(ChunksConstraints(chunks, total, w, n - 1), last, Required, a);
    ChunkRequiredMeaning(n - 1, PartialArea(chunks[n - 1], total), Prefix(chunks, total, n - 1), w, a);
  }

  lemma WithinBoundsSplit(chunks: seq<real>, total: real, w: real, n: nat, a: VarId -> real)
    requires 0 < n <= |chunks| && Divisible(chunks, total)
    ensures AllWithinBounds(chunks, total, w, n, a) <==> AllWithinBounds(chunks, total, w, n - 1, a) && WithinBounds(chunks, total, w, n - 1, a)
  {
  }

  /** An assignment meets the strong chunk constraints exactly when every
      chunk is on its target extent. */
  lemma {:induction false} ChunksStrongMeaning(chunks: seq<real>, total: real, w: real, n: nat, a: VarId -> real)
    requires n <= |chunks| && Divisible(chunks, total)
    ensures ChunksHold(chunks, total, w, n, Strong, a)
        <==> AllOnTarget(chunks, total, w, n, a)
  {
    if n > 0 {
      ChunksStrongMeaning(chunks, total, w, n - 1, a);
      ChunksStrongStep(chunks, total, w, n, a);
      OnTargetSplit(chunks, total, w, n, a);
      IffChain(ChunksHold(chunks, total, w, n, Strong, a),
               ChunksHold(chunks, total, w, n - 1, Strong, a),
               AllOnTarget(chunks, total, w, n, a), AllOnTarget(chunks, total, w, n - 1, a),
               OnTarget(chunks, total, w, n - 1, a));
    }
  }

  /** The strong constraints of the first `n` chunks hold exactly when those of
      the first `n - 1` do and chunk `n - 1`'s do. */
  lemma ChunksStrongStep(chunks: seq<real>, total: real, w: real, n: nat, a: VarId -> real)
    requires 0 < n <= |chunks| && Divisible(chunks, total)
    ensures ChunksHold(chunks, total, w, n, Strong, a)
        <==> ChunksHold(chunks, total, w, n - 1, Strong, a) && OnTarget(chunks, total, w, n - 1, a)
  {
    var last := ChunkConstraints(n - 1, PartialArea(chunks[n - 1], total), Prefix(chunks, total, n - 1), w);
    HoldsAtAppend(ChunksConstraints(chunks, total, w, n - 1), last, Strong, a);
    ChunkStrongMeaning(n - 1, PartialArea(chunks[n - 1], total), Prefix(chunks, total, n - 1), w, a);
  }

  lemma OnTargetSplit(chunks: seq<real>, total: real, w: real, n: nat, a: VarId -> real)
    requires 0 < n <= |chunks| && Divisible(chunks, total)
    ensures AllOnTarget(chunks, total, w, n, a) <==> AllOnTarget(chunks, total, w, n - 1, a) && OnTarget(chunks, total, w, n - 1, a)
  {
  }
}
