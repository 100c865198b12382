# rustide core, modelled in Dafny

rustide is a small egui-based editor shell. This project models the three
parts of it that hold logic of their own:

- **Layout geometry and chunk shares** (`src/layout.rs`). This covers the `Rect` value and its edges, and its two
  `From` conversions. It also covers the `Layout` builder and the constraint list that `Layout::horizontal`
  hands to the cassowary solver. Chunk weights become shares `n_i / total`, and a running prefix
  `curr` gives each chunk's lower bound. Per chunk the method emits one STRONG extent
  constraint and two REQUIRED constraints, after two REQUIRED pins of the area's
  bounds. The solver is not modelled. Instead, `Horizontal` returns the exact
  constraint list it would have added, as data over abstract variable ids
  (module `LinearConstraints`), and the lemmas say what that list means under
  any assignment of values to the variables.
- **Keyboard chords** (`src/ui.rs`). A `Chord` is an optional key plus four
  tri-state requirements on ctrl, command, shift and alt, built by value. It is matched
  against an input snapshot, which is the set of keys pressed this frame plus the
  four modifier flags.
- **Message envelope** (`src/interop.rs`). This covers the request, response and editor-state datatypes, the
  `From` injections into `RustideMessage`, and the `is_*`/`as_*` helpers.

Files:
- `wrappers.dfy` holds `Option`.
- `numeric.dfy` holds the `u16`, `u32` and `usize` ranges.
- `geometry.dfy` holds `Rect` and the conversions.
- `linear_constraints.dfy` holds cassowary's vocabulary as data, with its meaning.
- `layout.dfy` holds `Layout` and `Horizontal`.
- `layout_properties.dfy` holds the lemmas about the emitted constraints.
- `layout_solutions.dfy` holds assignments that satisfy the emitted constraints.
- `ui.dfy` holds the chords.
- `interop.dfy` holds the messages.

`f32` is modelled as exact `real` arithmetic. Integer fields keep their Rust
ranges as subset types.

## Model

| member | source | states |
|---|---|---|
| Geometry.EdgeOffsets | src/layout.rs:17-34 | right is left plus width and bottom is top plus height; with non-negative width (height) left <= right (top <= bottom) |
| Geometry.FromTuple | src/layout.rs:36-45 | the four `u32` components are stored unchanged as x, y, w, h, so every field is non-negative and the edges are ordered |
| Geometry.FromEguiRect | src/layout.rs:47-59 | as written: left and top are the egui `min` corner, but right is `min.x + max.x` and bottom is `min.y + max.y`, because `max` is stored as the size |
| Geometry.EguiConversionShiftsRightEdge | src/layout.rs:47-59 | for the egui rect with corners (1,0) and (3,2) the converted right edge is 4, not the egui right edge 3 |
| Geometry.EguiConversionsAgreeAtOrigin | src/layout.rs:47-59 | the as-written conversion agrees with the span conversion exactly when the egui `min` corner is the origin |
| Geometry.FromEguiRectSpan | src/layout.rs:47-59 | corrected conversion: the converted rect has the same four edges as the egui rect, and a well-ordered egui rect gives a non-negative size |
| Layout.Default | src/layout.rs:103-108 | the default layout runs left to right with no constraints |
| Layout.WithConstraints | src/layout.rs:109-112 | the constraint list is replaced by the given one and the direction is unchanged |
| Layout.Horizontal | src/layout.rs:126-158 | the loop emits exactly the constraint list `HorizontalConstraints` (area pins, then three constraints per chunk with `curr` the running prefix of shares); the returned layout is always left to right and empty |
| LinearConstraints.EvalBuilders | src/layout.rs:133-148 | a variable expression evaluates to the variable's value, a constant to itself, and `right - left` to the difference of the two values |
| LayoutProperties.ChunksConstraintsLength | src/layout.rs:140-151 | after n iterations exactly 3n chunk constraints were emitted |
| LayoutProperties.ChunksConstraintsAt | src/layout.rs:140-151 | constraints 3i..3i+3 are chunk i's three constraints, with share `n_i/total` and running prefix `curr` after i steps |
| LayoutProperties.PrefixIsScaledSum | src/layout.rs:137-150 | `curr` after n steps is the sum of the first n weights divided by `total` |
| LayoutProperties.SharesSumToOne | src/layout.rs:137-151 | for a non-empty weight list with non-zero sum, `curr` is 1 after the loop |
| LayoutProperties.HorizontalConstraintsAt | src/layout.rs:129-151 | the list has 2 + 3n entries: the REQUIRED EQ pins of the area bounds to left and right, then for chunk i the STRONG EQ `right - left == (n_i/total)*w`, the REQUIRED GE `left >= curr*w` and the REQUIRED GE `right >= left` |
| LayoutProperties.LowerBoundIsRunningShare | src/layout.rs:147-150 | chunk i's REQUIRED lower bound is `(sum of weights before i / total) * area.w` |
| LayoutProperties.ConstraintCensus | src/layout.rs:131-151 | with n chunks: 2 + 3n constraints, 2 + 2n of them REQUIRED and n STRONG |
| LayoutProperties.OneFourSplit | src/layout.rs:121-125 | weights [1, 4] give extents w/5 and 4w/5, and the second chunk's lower bound is w/5 |
| LayoutProperties.PrefixMonotone | src/layout.rs:150 | with non-negative weights and positive total, `curr` never decreases |
| LayoutProperties.LowerBoundsNonDecreasing | src/layout.rs:147-150 | with non-negative weights, positive total and non-negative width, chunk lower bounds are non-decreasing in i |
| LayoutProperties.ChunkConstraintsIgnoreOrigin | src/layout.rs:146-148 | the chunk constraints do not depend on `area.x` or `area.y` |
| LayoutProperties.ChunksDetachedFromArea | src/layout.rs:139-149 | no chunk constraint mentions the area's bound variables; only the two pins do. The chunks' lower bounds start at 0, not at `area.left()` (`ChunkConstraintsIgnoreOrigin`), so nothing ties the chunks to the area's edges |
| LayoutProperties.AreaPinsMeaning | src/layout.rs:131-136 | the pins hold exactly when the bound variables equal the area's left and right edges |
| LayoutProperties.ChunkRequiredMeaning | src/layout.rs:147-148 | a chunk's REQUIRED constraints hold exactly when `curr*w <= left <= right` |
| LayoutProperties.ChunkStrongMeaning | src/layout.rs:146 | a chunk's STRONG constraint holds exactly when `right - left` is its share of the width |
| LayoutProperties.ChunksRequiredMeaning | src/layout.rs:140-151 | all REQUIRED chunk constraints hold iff every chunk lies at or after its lower bound with right >= left |
| LayoutProperties.ChunksStrongMeaning | src/layout.rs:140-151 | all STRONG chunk constraints hold iff every chunk has exactly its share of the width |
| LayoutSolutions.RequiredAlwaysSatisfiable | src/layout.rs:129-151 | for every area and every weight list that is empty or has a non-zero sum, the REQUIRED constraints have a solution (every chunk collapsed onto its lower bound) |
| LayoutSolutions.IdealSatisfiesAll | src/layout.rs:121-151 | with non-negative weights, positive total and non-negative width, placing chunks side by side from 0 satisfies every REQUIRED and STRONG constraint |
| LayoutSolutions.IdealPlacement | src/layout.rs:121-151 | in that placement each chunk ends where the next begins, the first starts at 0 and the last ends at `area.w` |
| LayoutSolutions.AnchoredSatisfiesAll | src/layout.rs:129-151 | when also `area.x >= 0`, the side-by-side placement shifted right by `area.left()` meets every REQUIRED and STRONG constraint too, so the constraints admit both placements and which one the solver returns is not determined by them |
| LayoutSolutions.AnchoredPlacement | src/layout.rs:129-151 | in the shifted placement adjacent chunks share an edge, the first starts at `area.left()` and the last ends at `area.right()` |
| LayoutSolutions.CannotAnchorLeftOfOrigin | src/layout.rs:138-147 | when `area.x < 0`, every assignment meeting the REQUIRED constraints starts the first chunk strictly right of `area.left()`, because that chunk's lower bound is 0 |
| Ui.New | src/ui.rs:10-15 | a new chord has no key and all four modifiers unset |
| Ui.Meets | src/ui.rs:19-30 | an unset requirement is always met; `Some(m)` is met exactly when the flag is `m` |
| Ui.Matches | src/ui.rs:16-34 | a match implies the chord has a key, the key was pressed, and every set requirement equals its modifier flag |
| Ui.MatchesExactly | src/ui.rs:16-34 | a chord matches iff it has a key, that key was pressed and all four requirements are met |
| Ui.NewNeverMatches | src/ui.rs:10-34 | `Chord::new()` matches no input |
| Ui.UnsetModifierIgnored | src/ui.rs:19-30 | flipping a modifier whose slot is unset never changes whether the chord matches |
| Ui.SetModifierRequired | src/ui.rs:19-30 | if a chord with a set slot matches, that modifier's flag equals the slot's value |
| Ui.Key | src/ui.rs:35-38 | the key becomes `Some(k)`; the modifier requirements are unchanged |
| Ui.Require | src/ui.rs:39-54 | the given slot becomes `Some(true)`; the key and the other three slots are unchanged |
| Ui.Ctrl | src/ui.rs:39-42 | slot 0 becomes `Some(true)`; key and other slots unchanged |
| Ui.Command | src/ui.rs:43-46 | slot 1 becomes `Some(true)`; key and other slots unchanged |
| Ui.Shift | src/ui.rs:47-50 | slot 2 becomes `Some(true)`; key and other slots unchanged |
| Ui.Alt | src/ui.rs:51-54 | slot 3 becomes `Some(true)`; key and other slots unchanged |
| Ui.RequireIdempotent | src/ui.rs:39-54 | setting a modifier twice is the same as setting it once |
| Ui.RequireCommutes | src/ui.rs:39-54 | modifier setters commute |
| Ui.KeyLastWins | src/ui.rs:35-38 | setting the key twice keeps the second key |
| Ui.CtrlShiftChord | src/app.rs:91 | `Chord::new().ctrl().shift().key(E)` matches exactly when E was pressed with ctrl and shift held, whatever command and alt are |
| Interop.DefaultState | src/interop.rs:4-11 | the derived default state has an empty name, age 0, no files and selection 0 |
| Interop.FromResponse | src/interop.rs:32-36 | a response is injected as the `Response` variant carrying it |
| Interop.FromRequest | src/interop.rs:38-42 | a request is injected as the `Request` variant carrying it |
| Interop.IsResponse | src/interop.rs:45-48 | true exactly when the message is a `Response` of some value |
| Interop.IsRequest | src/interop.rs:50-53 | true exactly when the message is a `Request` of some value |
| Interop.AsResponse | src/interop.rs:55-61 | `Some` exactly when `is_response`, and the projected value injects back to the message |
| Interop.AsRequest | src/interop.rs:63-69 | `Some` exactly when `is_request`, and the projected value injects back to the message |
| Interop.ExactlyOneKind | src/interop.rs:26-53 | every message is exactly one of a request and a response |
| Interop.RequestRoundTrip | src/interop.rs:38-69 | projecting an injected request gives it back, and projecting it as a response gives `None` |
| Interop.ResponseRoundTrip | src/interop.rs:32-69 | projecting an injected response gives it back, and projecting it as a request gives `None` |
| Interop.ProjectionsCover | src/interop.rs:55-69 | every message has a projection, and it is the injection of that projection |

## Left out

- The cassowary solver: `Solver::new`, `add_constraints(...).unwrap()` and the solving itself. It is an external library. `Horizontal` returns the list of constraints it adds, and the solver is not simulated. The chunks have no upper bounds, so the constraints admit many solutions (`LayoutSolutions.IdealSatisfiesAll`, `LayoutSolutions.AnchoredSatisfiesAll`), and which one the solver returns is not modelled.
- Variable identity. `Variable::new()` is modelled as a fixed numbering: 0 and 1 for the area bounds, and `2 + 2i`, `3 + 2i` for chunk i.
- `Layout::solve` (src/layout.rs:113-120): a stub with debug output that returns a fixed rect, with its solver call commented out.
- The meaning of `Percentage`, `Ratio`, `Length`, `Max` and `Min`. `LayoutConstraint` is declared as a datatype, but the source never interprets it.
- The `ctx: &egui::Context` parameter of `horizontal`: it is never used.
- The `println!`/`dbg!` output and the unused lazy `bounds` iterator at src/layout.rs:139.
- Layout.Horizontal: `f32` rounding is not modelled, and neither are the infinities and NaN that a zero `total` produces. The method requires the weights to sum to a non-zero value whenever there is at least one chunk. An empty list needs no division and is accepted.
- LayoutSolutions.RequiredAlwaysSatisfiable: says nothing about non-empty weight lists that sum to zero, such as `[0.0, 0.0]` or `[1.0, -1.0]`. For these the source puts a NaN or infinite constant into the STRONG target of every chunk and, from the second chunk on, into the REQUIRED lower bounds (chunk 0's lower bound is `0.0 * area.w`), and whether the solver's `add_constraints(...).unwrap()` succeeds is not modelled.
- Geometry.FromTuple: does not model the rounding of `u32 as f32` above 2^24; the stored value is the exact integer.
- Geometry.FromEguiRect: egui's coordinates are `f32` and are modelled as `real`.
- The egui `InputState` beyond a set of keys pressed this frame and four modifier flags. The flags are independent in the model, so the coupling of egui's `command` to ctrl (or to the command key on macOS) is not captured. Every chord lemma quantifies over all inputs, so each still holds under that coupling. The key type is a type parameter.
- `Chords::chord_pressed` (src/app.rs:114-122) is a one-line forwarder to `matches`. Beyond that, src/app.rs is not part of this model: GUI widgets, the per-frame `update`, the channel-draining `listen` and the unsafe byte-wise `diff`.
- `Link`, `Listen`, `Send` and `Endpoint` (src/interop.rs:71-101): `std::sync::mpsc` channel plumbing.
- src/main.rs (CLI, backend thread, directory listing, sleep loop) and src/alloc.rs (allocator hook, atomics, JSON logging) are not part of this model.

## Findings

| source | as written | input that shows it | evidently intended | confidence | as-written member | corrected member |
|---|---|---|---|---|---|---|
| src/layout.rs:47-59 | `From<egui::Rect>` stores the `max` corner as width and height, so `right()` is `min.x + max.x` | egui rect with min (1,0) and max (3,2): the converted right edge is 4, not 3 | width `max.x - min.x` and height `max.y - min.y`, so the converted rect keeps the egui rect's edges | high, not executed | Geometry.FromEguiRect, Geometry.EguiConversionShiftsRightEdge | Geometry.FromEguiRectSpan |
