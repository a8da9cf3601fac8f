# svgcleaner: transform folding and the cleaning driver, in Dafny

This project models two parts of svgcleaner, an SVG optimiser written in Rust.

**The transform-folding pass** `apply_transform_to_shapes` rewrites an
attributed SVG tree in place, in two stages.

- *Stage A* looks at each `g` element with a `transform`. When the group's
  transform and attributes are valid, and every SVG child is a `rect`,
  `circle`, `ellipse` or `line` that passes the three validity guards, the
  group's matrix is pushed onto each child. A child that has its own
  transform gets the group's matrix times its own, so its own matrix acts
  first on a point. The group then loses its `transform`.
- *Stage B* looks at each of the four shapes that has a `transform` and
  passes the guards. Its coordinate pairs go through the matrix. When the
  matrix has a scale part, its sizes and radii are multiplied by the x-scale
  and `stroke-width` is rewritten as the effective width times the
  x-scale. The `transform` is removed.

**The convergence driver** of `main` runs a loop: parse, clean, write into
the reused buffer. Without `--multipass` it runs once. With `--multipass` it
stops when an output is as long as the previous one, and that length starts
at 0. After the loop come:

- the "not bigger than the input" check;
- the optional trailing newline, added after that check;
- the save.

Parse and clean failures go to `on_err`, which copies the input to the
output only when both are files, the copy-on-error flag is set and the
paths differ. A missing input file stops the run before anything is
loaded.

Files:

- `transforms.dfy` — affine matrices over `real`, `append` as the matrix product.
- `attributes.dfy` — a node's attribute map and `get_ts`, `transform_coords`,
  `scale_coord` and the stroke-width update.
- `shapes.dfy`:
  - the folding pass as functions (`Pass`, the stage functions, the
    per-shape closures and `FoldShape`);
  - the class `Document`, whose methods perform the pass loop by loop and
    are proved to compute exactly those functions.
- `shape_properties.dfy` — what the pass guarantees: all-or-nothing
  push-down, composition order, idempotence, and that a folded shape
  describes the same figure.
- `shape_examples.dfy` — the unit tests of the pass, replayed on the model.
- `driver.dfy` — the driver: the loop as a method proved against a
  specification of its trace, the decisions after the loop, and `Run`.
- `wrappers.dfy` — `Option`.

The document is a snapshot of the tree as a list of nodes in which every
parent comes before its children (a pre-order listing is one such list):
node `j` has a tag, a parent that comes before it, and an attribute map. The pass never changes the tree's
shape, only attribute maps.

The helpers whose bodies are not part of this model are fields of a `Utils`
record:

- the guards `has_valid_transform`, `is_valid_attrs` and `is_valid_coords`;
- `get_scale`.

Every result holds for any choice of them. The example lemmas ask of them
only the answers their test relies on.

The test `keep_2` (src/task/apply_transforms/shapes.rs:271-284) expects a
group with the non-uniform `scale(2 3)` to be left alone. The guard stays
abstract, and `ShapeExamples.Keep2` shows that the document is unchanged
when the guard rejects that group.

## Model

| member | source | states |
|---|---|---|
| Transforms.Append | src/task/apply_transforms/shapes.rs:63-69 | `ts1.append(ts2)` is the matrix whose action is ts2 first, then ts1 |
| Transforms.AppendIdentity | src/task/apply_transforms/shapes.rs:66-71 | composing with the identity changes nothing, on either side; a child without a transform is the same as one with the identity |
| Transforms.AppendAssociative | src/task/apply_transforms/shapes.rs:63-69 | `append` is associative: a matrix pushed onto a child that already holds a product is the same product however it is grouped; within one pass a group that folds has no group child, so a child receives at most one push per pass; a push onto a child that already holds a pushed product happens only across separate runs |
| Transforms.SameAction | src/task/apply_transforms/shapes.rs:63-69 | two matrices that agree on the origin and the two unit points (1, 0) and (0, 1) are equal |
| Transforms.TranslateThenScale | src/task/apply_transforms/shapes.rs:192-208 | `translate(tx ty) scale(sx sy)` is the single matrix (sx, 0, 0, sy, tx, ty) |
| Attributes.GetTs | src/task/apply_transforms/shapes.rs:60 | a node without a `transform` has the identity matrix |
| Attributes.TransformCoordsSpec | src/task/apply_transforms/shapes.rs:121 | `transform_coords` moves the point (missing coordinates read as 0) through the matrix, writes both coordinates unit-less, and changes no other attribute |
| Shapes.RectGeometry | src/task/apply_transforms/shapes.rs:119-133 | the `process_rect` closure maps (x, y) through the matrix; only when there is a scale part are width, height, rx and ry multiplied by the x-scale; the only keys added are x and y; nothing else changes |
| Shapes.ScaleRectSizes | src/task/apply_transforms/shapes.rs:126-130 | the four `scale_coord` calls scale exactly the present width, height, rx and ry; no key is created |
| Shapes.CircleGeometry | src/task/apply_transforms/shapes.rs:135-144 | the `process_circle` closure maps (cx, cy) through the matrix and scales r only when there is a scale part; nothing else changes |
| Shapes.EllipseGeometry | src/task/apply_transforms/shapes.rs:146-156 | the `process_ellipse` closure maps (cx, cy) and scales both rx and ry by the x-scale only when there is a scale part; nothing else changes |
| Shapes.LineGeometry | src/task/apply_transforms/shapes.rs:158-163 | the `process_line` closure maps both end points through the matrix and scales nothing |
| Shapes.Geometry | src/task/apply_transforms/shapes.rs:119-163 | the four closures agree with one per-shape table: which pairs are points, which keys are sizes, and that every other key is kept |
| Shapes.Unfolded | src/task/apply_transforms/shapes.rs:104-110 | after the closure and `attrs.remove(Transform)` the node has no transform, its keys are the old ones plus the shape's coordinates, and the closure's guarantees hold for the node's own matrix |
| Shapes.FoldShape | src/task/apply_transforms/shapes.rs:95-117 | a folded shape has no transform; `stroke-width` is added only when there is a scale part, and is then the effective width times the x-scale; the closure's guarantees hold, and every other attribute is kept |
| Shapes.FoldShapeIsProcess | src/task/apply_transforms/shapes.rs:95-117 | `process` called with the closure of the node's shape computes `FoldShape` |
| Shapes.Children | src/task/apply_transforms/shapes.rs:44 | `children()` lists exactly the nodes whose parent is `g`, in document order |
| Shapes.GroupFoldsLocal | src/task/apply_transforms/shapes.rs:39-57 | whether a group folds depends only on its own attributes and those of its children |
| Shapes.Document.AllChildrenFoldable | src/task/apply_transforms/shapes.rs:44-57 | the `.all(...)` loop answers true exactly when every SVG child is a rect, circle, ellipse or line passing the three guards |
| Shapes.Document.PushToChildren | src/task/apply_transforms/shapes.rs:63-73 | each SVG child of `g` gets the group matrix composed with its own (or the group matrix alone); no other node changes |
| Shapes.Document.PushDownGroupTransforms | src/task/apply_transforms/shapes.rs:35-80 | the first loop leaves the document that stage A specifies: every group is judged on the attributes it started with |
| Shapes.Document.AtVisit | src/task/apply_transforms/shapes.rs:38-57 | when the first loop reaches a group, it and its children still hold the attributes they had when the pass began |
| Shapes.Document.NoChange | src/task/apply_transforms/shapes.rs:38-41 | visiting a group that does not fold changes no node |
| Shapes.Document.RecalcStrokeWidthOf | src/task/apply_transforms/shapes.rs:112-116 | only the node's `stroke-width` is rewritten, as the effective width times sx |
| Shapes.Document.Process | src/task/apply_transforms/shapes.rs:95-117 | a node failing any guard is left as it is; otherwise it gets the closure's rewrite, loses its transform and, when there is a scale part, gets its stroke width rewritten |
| Shapes.Document.ProcessRect | src/task/apply_transforms/shapes.rs:119-133 | `process_rect` leaves `FoldShape` on a rect that passes the guards and nothing changed otherwise |
| Shapes.Document.ProcessCircle | src/task/apply_transforms/shapes.rs:135-144 | the same for `process_circle` |
| Shapes.Document.ProcessEllipse | src/task/apply_transforms/shapes.rs:146-156 | the same for `process_ellipse` |
| Shapes.Document.ProcessLine | src/task/apply_transforms/shapes.rs:158-163 | the same for `process_line` |
| Shapes.Document.FoldShapeTransforms | src/task/apply_transforms/shapes.rs:82-92 | the second loop folds each shape with a transform that passes the guards and touches no other node |
| Shapes.Document.ApplyTransformToShapes | src/task/apply_transforms/shapes.rs:29-93 | the pass leaves exactly `Pass` of the old attributes: stage A, then stage B on its result |
| ShapeProperties.FoldingGroupPushesToAll | src/task/apply_transforms/shapes.rs:59-79 | a group that folds loses its transform, and every SVG child gets the group's matrix composed with its own |
| ShapeProperties.NonFoldingGroupPushesNothing | src/task/apply_transforms/shapes.rs:38-59 | all or nothing: a group that does not fold (bad guard or one bad child) keeps its attributes and gives its children nothing |
| ShapeProperties.PushedTransformComposes | src/task/apply_transforms/shapes.rs:63-72 | a pushed child's transform acts as its own matrix first and the group's second, with or without a transform of its own |
| ShapeProperties.FoldOnlyGuardedShapes | src/task/apply_transforms/shapes.rs:82-92 | stage B changes only the four shapes with a transform that pass the guards, and leaves them with no transform |
| ShapeProperties.NoShapeFoldsAfterPass | src/task/apply_transforms/shapes.rs:82-110 | after the pass no node is a shape that stage B would fold |
| ShapeProperties.NoGroupFoldsAfterPass | src/task/apply_transforms/shapes.rs:35-80 | after the pass no group would push its transform down |
| ShapeProperties.PassIdempotent | src/task/apply_transforms/shapes.rs:29-93 | running the pass on its own output changes nothing |
| ShapeProperties.PassWithoutTransforms | src/task/apply_transforms/shapes.rs:35-36 | a document without any transform is left as it is |
| ShapeProperties.PassWhenNothingFolds | src/task/apply_transforms/shapes.rs:38-41 | a document where no group and no shape qualifies is left as it is |
| ShapeProperties.GroupChildEndToEnd | src/task/apply_transforms/shapes.rs:59-110 | a shape in a folding group, when its guards pass on the pushed transform, ends with no transform and with each point mapped through its own matrix and then the group's |
| ShapeProperties.SizeScales | src/task/apply_transforms/shapes.rs:123-131 | under a uniform scale each size of the shape ends as the old size times the scale; a missing size still reads as 0 |
| ShapeProperties.RectFoldKeepsCorner | src/task/apply_transforms/shapes.rs:119-133 | the rewritten rect's far corner (x + width, y + height) is the image of the old corner |
| ShapeProperties.CircleFoldKeepsExtent | src/task/apply_transforms/shapes.rs:135-144 | the rewritten circle's rightmost point (cx + r, cy) is the image of the old one |
| ShapeProperties.EllipseFoldKeepsExtent | src/task/apply_transforms/shapes.rs:146-156 | the rewritten ellipse's box corner (cx + rx, cy + ry) is the image of the old one |
| ShapeExamples.Apply1Keys | src/task/apply_transforms/shapes.rs:183-190 | apply_1: a pure translation folds and inserts no `stroke-width` |
| ShapeExamples.Apply1Sizes | src/task/apply_transforms/shapes.rs:183-190 | apply_1: width and height stay 10 |
| ShapeExamples.Apply1Point | src/task/apply_transforms/shapes.rs:183-190 | apply_1: (10, 10) becomes (20, 30) |
| ShapeExamples.Ts2IsTranslateThenScale | src/task/apply_transforms/shapes.rs:192-199 | the tests' `translate(10 20) scale(2)` is the matrix (2, 0, 0, 2, 10, 20) used as `TS_2` |
| ShapeExamples.Apply2Point | src/task/apply_transforms/shapes.rs:192-199 | apply_2: (10, 10) becomes (30, 40) |
| ShapeExamples.Apply2Sizes | src/task/apply_transforms/shapes.rs:192-199 | apply_2: width and height 10 become 20 |
| ShapeExamples.Apply2Stroke | src/task/apply_transforms/shapes.rs:192-199 | apply_2: the default stroke width 1 becomes 2 |
| ShapeExamples.Apply2Radii | src/task/apply_transforms/shapes.rs:192-199 | apply_2: after the whole fold, rx and ry 2 become 4 |
| ShapeExamples.ApplyCircle1Point | src/task/apply_transforms/shapes.rs:219-226 | apply_circle_1: the centre becomes (30, 40) |
| ShapeExamples.ApplyCircle1Sizes | src/task/apply_transforms/shapes.rs:219-226 | apply_circle_1: r 15 becomes 30 and stroke width 2 is written |
| ShapeExamples.ApplyEllipse1Point | src/task/apply_transforms/shapes.rs:228-235 | apply_ellipse_1: the centre becomes (30, 40) |
| ShapeExamples.ApplyEllipse1Radii | src/task/apply_transforms/shapes.rs:228-235 | apply_ellipse_1: rx and ry 15 become 30 |
| ShapeExamples.ApplyEllipse1Stroke | src/task/apply_transforms/shapes.rs:228-235 | apply_ellipse_1: stroke width 2 is written |
| ShapeExamples.ApplyLine1First | src/task/apply_transforms/shapes.rs:237-244 | apply_line_1: (x1, y1) becomes (30, 50) |
| ShapeExamples.ApplyLine1Second | src/task/apply_transforms/shapes.rs:237-244 | apply_line_1: (x2, y2) becomes (30, 50) |
| ShapeExamples.ApplyLine1Stroke | src/task/apply_transforms/shapes.rs:237-244 | apply_line_1: a line gets stroke width 2 although nothing on it is scaled |
| ShapeExamples.Apply3Keys | src/task/apply_transforms/shapes.rs:201-208 | apply_3: x and y are written although missing, no rx or ry is invented, stroke width is added |
| ShapeExamples.Apply3Point | src/task/apply_transforms/shapes.rs:201-208 | apply_3: the missing (0, 0) becomes (10, 20) |
| ShapeExamples.Apply3Sizes | src/task/apply_transforms/shapes.rs:201-208 | apply_3: width and height 10 become 20 |
| ShapeExamples.Apply3Stroke | src/task/apply_transforms/shapes.rs:201-208 | apply_3: the default stroke width 1 becomes 2 |
| ShapeExamples.Apply4 | src/task/apply_transforms/shapes.rs:210-217 | apply_4: the inherited stroke width 2 becomes an explicit 4 |
| ShapeExamples.Apply4Sizes | src/task/apply_transforms/shapes.rs:210-217 | apply_4: width and height 10 become 20 |
| ShapeExamples.Apply4Point | src/task/apply_transforms/shapes.rs:210-217 | apply_4: missing x and y are written as 0 |
| ShapeExamples.ApplyG1GroupFolds | src/task/apply_transforms/shapes.rs:246-261 | apply_g_1: the group qualifies for the push-down, since all three children are rects passing the guards |
| ShapeExamples.ApplyG1Push | src/task/apply_transforms/shapes.rs:246-261 | apply_g_1, stage A: the group keeps no transform; the scaled rect gets the product matrix and both plain rects get the group's |
| ShapeExamples.ApplyG1Pass | src/task/apply_transforms/shapes.rs:246-261 | apply_g_1, the whole pass: the group ends with no attributes, and each rect ends as the fold of its pushed map with the inherited stroke width 1 |
| ShapeExamples.ApplyG1Sizes | src/task/apply_transforms/shapes.rs:246-261 | apply_g_1: the first rect's width and height become 40 |
| ShapeExamples.ApplyG1Stroke | src/task/apply_transforms/shapes.rs:246-261 | apply_g_1: the first rect's stroke width becomes 4 |
| ShapeExamples.ApplyG1Point | src/task/apply_transforms/shapes.rs:246-261 | apply_g_1: the first rect's (10, 10) becomes (50, 60) |
| ShapeExamples.ApplyG1RestPoint | src/task/apply_transforms/shapes.rs:246-261 | apply_g_1: the second and third rects end with no transform, and (10, 10) becomes (30, 40) |
| ShapeExamples.ApplyG1RestSizes | src/task/apply_transforms/shapes.rs:246-261 | apply_g_1: the second and third rects' width and height become 20 |
| ShapeExamples.ApplyG1RestStroke | src/task/apply_transforms/shapes.rs:246-261 | apply_g_1: the second and third rects' stroke width becomes 2 |
| ShapeExamples.Keep1 | src/task/apply_transforms/shapes.rs:263-269 | keep_1: a rect whose x is `10in` fails the coordinate guard, and the document is unchanged |
| ShapeExamples.Keep2 | src/task/apply_transforms/shapes.rs:271-284 | keep_2: the `scale(2 3)` group and the masked group keep their transforms, and the document is unchanged |
| Driver.RunCycle | src/main.rs:127-153 | a cycle fails to parse, fails to clean, or leaves as the new buffer exactly the serialisation of the cleaned document |
| Driver.CleanLoop | src/main.rs:117-166 | the loop's run satisfies the loop specification: each buffer is the output of a cycle on the one before, every cycle but the last asked for another, and the exit says why it stopped |
| Driver.TracesAgree | src/main.rs:117-166 | two runs from the same input go through the same buffers |
| Driver.NotAProperPrefix | src/main.rs:117-166 | a complete run cannot be the beginning of a longer one |
| Driver.LoopSpecUnique | src/main.rs:117-166 | the loop specification determines the run: the buffers and the way the loop ends are unique |
| Driver.ContinuesBeforeLast | src/main.rs:155-165 | every cycle before the last was in multipass mode and changed the length |
| Driver.OneCycleWithoutMultipass | src/main.rs:155-158 | without multipass exactly one cycle runs, on the input, and its result is the exit |
| Driver.MultipassStopsOnEqualLength | src/main.rs:119-165 | with multipass the loop stops exactly when an output is as long as the previous one (a later output of equal length ends it as `Finished`, an earlier one of different length never does); the first cycle stops only on an empty output |
| Driver.OnError | src/main.rs:96-115 | the copy is attempted exactly when both sides are files, the flag is set and the paths differ; `on_err` exits unless that copy fails |
| Driver.Finish | src/main.rs:168-188 | output bigger than the input without the allow-bigger flag goes to the error path and nothing is saved; otherwise the buffer, plus a newline when asked, goes to the output |
| Driver.SaveResult | src/main.rs:168-188 | the size check, the newline and the save, run in that order, end exactly as `Finish` says |
| Driver.Run | src/main.rs:83-188 | a missing input file ends the run before loading; otherwise the loop runs on the loaded input and the outcome follows from how it ended |
| Driver.SavedNotBigger | src/main.rs:168-182 | without allow-bigger the saved data is at most the input's size, plus one byte for the newline |
| Driver.NewlineAfterSizeCheck | src/main.rs:177-182 | the newline comes after the size check: an output as long as the input is saved one byte longer |
| Driver.ParseFailureSavesNothing | src/main.rs:127-134 | a failed parse saves nothing |
| Driver.CleanFailureKeepsOldBuffer | src/main.rs:136-144 | a failed clean saves nothing when `on_err` exits; when its copy fails, what can be saved is the buffer before the failing cycle |
| Driver.CopyOnlyBetweenDifferentFiles | src/main.rs:99-111 | whenever the run ends after a copy, the flag was set, both sides were files, the paths differed, the copy went from input to output, and the copy that ended the run (the retried one when a clean failure led to the size check) succeeded |
| Driver.CopyRetriedAfterBiggerBuffer | src/main.rs:136-173 | after a clean failure whose copy failed, a kept buffer bigger than the input calls `on_err` again, and that second copy alone decides whether the run exits or returns |

## Left out

- The svgdom library: the parser, the serialiser, the `descendants` and `children` iterators, and the `Transform` type. The tree is a list of nodes with every parent before its children, and a transform is a record of six reals.
- Floating-point arithmetic: numbers are exact reals. `has_scale` is modelled as an exact comparison of `get_scale` with (1, 1).
- The bodies of the `utils` helpers are not part of this model. `has_valid_transform`, `is_valid_attrs`, `is_valid_coords` and `get_scale` are abstract functions of a node's attributes.
- The bodies of `transform_coords`, `scale_coord` and `get_ts` are not part of this model either. They are modelled from their role in the pass: missing or non-length coordinates read as 0, and only present length sizes are scaled.
- `recalc_stroke_width`'s inheritance lookup: the width a node inherits is an input (`inherited[i]`, 1 when no ancestor sets one).
- Text nodes, comments and other non-SVG children: they are one tag, `NonSvg`, which every loop skips.
- Command-line parsing, logging, stdin, stdout and file I/O, `fs::copy` and `process::exit`. Each becomes an answer in `Env` or a value of `Outcome`. The two `fs::copy` calls a run can make have separate answers (`copyOk`, `retryCopyOk`).
- The process exit status is not modelled; only the outcome of the run is.
- Loading the input: it either fails or yields the raw bytes.
- The "% smaller" report: it is floating point and only printed.
- The cleaning passes inside `clean_doc`, and parsing and serialisation. They are opaque functions that may fail.
- Driver.CleanLoop: the loop is given at most `fuel` cycles and ends with `FuelExhausted` when they run out, because the multipass loop need not terminate (lengths may oscillate).
- ShapeProperties.RectFoldKeepsCorner: stated only for a matrix without rotation or skew whose two scale factors are equal and are what `get_scale` reports. With any other matrix the folded shape is not the same figure; the pass relies on its guards to exclude those.
- ShapeProperties.CircleFoldKeepsExtent: the same uniform-scale restriction.
- ShapeProperties.EllipseFoldKeepsExtent: the same uniform-scale restriction.
- ShapeProperties.SizeScales: the same uniform-scale restriction.
- The examples leave out the whitespace text nodes of the test documents, and the `mask` element of keep_2 is an `OtherSvg` node with an `id`.
