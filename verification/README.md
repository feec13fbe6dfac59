# Geometry kernel: bodies, containment and bounding boxes

This project models a small geometry kernel over a closed family of rigid
3-D bodies:

- a `Ball` (centre and radius);
- a `Cuboid` (the source's `RectangularCuboid`: an axis-aligned box whose position is its centre);
- a `Cylinder` (its axis is world Z; its position is the centre of its extent);
- a `Compound` (an ordered, non-empty list of parts, nested to any depth).

A compound's position is its first part's position, fixed when it is built.
Over these bodies the kernel answers two questions:

- whether a point lies in a body;
- the body's axis-aligned bounding box.

It implements them in two dispatch styles. In direct dispatch each variant
implements the operation itself. In the visitor style there is one operation
object per operation, with one handler per variant. A third operation,
Boxify, is built on the bounding-box visitor. It replaces every leaf by its
bounding box and rebuilds every compound from its rewritten parts.

Modules, one per component:

- `Vectors` (`vectors.dfy`): the vector value type over exact reals. It has subtraction, squared length and componentwise `<=`/`>=`.
- `Aggregates` (`aggregates.dfy`): `MinOf`, `MaxOf` and `Any` over sequences, as the compound operations use them.
- `Bodies` (`bodies.dfy`): the shared `Body` datatype and the compound constructor with its error case. It also holds a cuboid's corners (`GetMinValue`/`GetMaxValue`) and the per-axis min/max aggregation of the parts' boxes.
- `Virtual` (`virtual.dfy`): direct dispatch, with `ContainsPoint` and `GetBoundingBox`.
- `Visitor` (`visitor.dfy`): the bounding-box visitor and the Boxify visitor. Each visitor is one function whose `match` on the variant plays the role of `Accept`.
- `Dispatch` (`dispatch.dfy`): the two dispatch styles compute the same box.
- `Scenarios` (`scenarios.dfy`): concrete bodies and the answers the kernel gives for them.

`Valid(b)` is the shape the constructors can produce. Every compound in it
has at least one part and carries its first part's position. The operations
that read `parts[0]` or take a minimum over the parts require it.

## Model

| member | source | states |
|---|---|---|
| `Aggregates.MinOf` | Virtual/VirtualTask.cs:129-135 | The minimum of a non-empty list is at most every element and equals one of them. |
| `Aggregates.MaxOf` | Virtual/VirtualTask.cs:130-136 | The maximum of a non-empty list is at least every element and equals one of them. |
| `Aggregates.Any` | Virtual/VirtualTask.cs:121-124 | `Any` over a list is true exactly when some element is true. It is false on an empty list. |
| `Bodies.NewCompound` | Visitor/VisitorTask.cs:85-88 | Building a compound fails exactly when the parts list is empty. Otherwise the compound keeps the parts in order and takes its position from the first part. It is well-formed exactly when every part is. |
| `Bodies.CornerGeometry` | Visitor/VisitorTask.cs:47-55 | A cuboid's `GetMinValue` and `GetMaxValue` corners are its sizes apart on every axis, and their midpoint is its position. They are ordered exactly when no size is negative. The least corner lies below the position, and the position below the greatest corner, under the same condition. |
| `Bodies.FromCorners` | Visitor/VisitorTask.cs:141-143 | The box built from the midpoint and the corner differences has exactly the given least and greatest corners. |
| `Bodies.CornersRoundTrip` | Visitor/VisitorTask.cs:47-55 | Rebuilding a cuboid from its own `GetMinValue`/`GetMaxValue` corners gives back the same cuboid. |
| `Bodies.MinCorner` | Visitor/VisitorTask.cs:125-136 | On each axis the aggregated least corner is at most every box's least corner. It equals the least corner of some box. |
| `Bodies.MaxCorner` | Visitor/VisitorTask.cs:127-138 | On each axis the aggregated greatest corner is at least every box's greatest corner. It equals the greatest corner of some box. |
| `Bodies.Enclose` | Visitor/VisitorTask.cs:122-143 | Every part's box lies inside the enclosing box. |
| `Bodies.EncloseIsLeast` | Visitor/VisitorTask.cs:122-143 | Any box that contains every part's box also contains the enclosing box, so the enclosing box is the least one. |
| `Bodies.EncloseOne` | Visitor/VisitorTask.cs:122-143 | Enclosing a single box gives back exactly that box. |
| `Bodies.EncloseNonNegative` | Virtual/VirtualTask.cs:139-141 | If every part's box has ordered corners, the enclosing box has ordered corners and non-negative sizes. |
| `Virtual.ContainsPoint` | Virtual/VirtualTask.cs:28-124 | A ball contains p iff the squared distance from p to the centre is at most radius². A cuboid contains p iff p lies between its two corners on every axis, faces included. A cylinder contains p iff the planar squared distance is at most radius² and p.z lies within sizeZ/2 of the centre. A compound contains p iff some part does. |
| `Virtual.PartsContain` | Virtual/VirtualTask.cs:121-124 | The answers for a point are one per part, in part order, each that part's own containment answer. |
| `Virtual.GetBoundingBox` | Virtual/VirtualTask.cs:35-142 | A leaf's box is centred at the leaf's position. |
| `Virtual.PartBoxes` | Virtual/VirtualTask.cs:129-136 | The parts' boxes are one per part, in part order, each that part's own box. |
| `Virtual.BoundingBoxNonNegative` | Virtual/VirtualTask.cs:35-142 | With non-negative radii and sizes, every box (compounds included) has its least corner below its greatest. |
| `Virtual.CuboidContainsCentre` | Virtual/VirtualTask.cs:54-81 | For a cuboid with non-negative sizes, `GetMinValue` ≤ `GetMaxValue` componentwise, and the cuboid contains its own centre. |
| `Virtual.BoundingBoxSound` | Virtual/VirtualTask.cs:28-142 | With non-negative radii, every point a body contains is contained in its bounding box, through any depth of nesting. Sizes may be negative. |
| `Virtual.BoundingBoxLeast` | Virtual/VirtualTask.cs:28-142 | With non-negative radii and sizes, any box that contains every point of a body contains its bounding box, through any depth of nesting. Together with soundness this makes the bounding box the least box around the body. |
| `Virtual.LeafBoxLeast` | Virtual/VirtualTask.cs:28-109 | With non-negative radii and sizes, a ball, cuboid or cylinder touches every face of its bounding box. Any box holding all its points holds the bounding box. |
| `Visitor.BoundingBox` | Visitor/VisitorTask.cs:104-145 | A cuboid's box is an identical cuboid. Every leaf's box is centred at the leaf's position. |
| `Visitor.PartBoxes` | Visitor/VisitorTask.cs:125-138 | The parts' boxes are one per part, in part order, each that part's own box from a fresh visitor. |
| `Visitor.LeafBoxCorners` | Visitor/VisitorTask.cs:106-120 | A ball's box reaches one radius from the centre on every axis. A cylinder's box reaches one radius in X and Y and half its height in Z. |
| `Visitor.CompoundBoxIsLeast` | Visitor/VisitorTask.cs:122-143 | Every part's box lies inside the compound's box. Any box containing all the parts' boxes contains the compound's box. |
| `Visitor.CompoundBoxCorners` | Visitor/VisitorTask.cs:122-143 | On each axis the compound's least corner is the minimum of the parts' least corners, and its greatest corner is the maximum of their greatest corners. Each is bounded by every part and attained by some part. |
| `Visitor.BoundingBoxNonNegative` | Visitor/VisitorTask.cs:122-143 | With non-negative radii and sizes, every bounding box has ordered corners and non-negative sizes. |
| `Visitor.OnePartCompound` | Visitor/VisitorTask.cs:122-143 | A compound of exactly one part has exactly that part's bounding box. |
| `Visitor.Boxify` | Visitor/VisitorTask.cs:150-175 | A leaf becomes its bounding box. The result is well-formed, has the same nesting shape, has the same position, and has only cuboid leaves. |
| `Visitor.BoxifyParts` | Visitor/VisitorTask.cs:167-172 | The rewritten parts are one per part, in part order, each that part boxified. |
| `Visitor.BoxifyFixesCuboidTrees` | Visitor/VisitorTask.cs:155-158 | A tree whose leaves are all cuboids is unchanged by Boxify. |
| `Visitor.BoxifyIdempotent` | Visitor/VisitorTask.cs:150-175 | Boxify applied twice equals Boxify applied once. |
| `Visitor.BoxifyKeepsBoundingBox` | Visitor/VisitorTask.cs:150-175 | Boxify keeps the bounding box of the tree. It also keeps the box of each part of a compound, position by position. |
| `Dispatch.SameBoundingBox` | Virtual/VirtualTask.cs:126-142 | Direct dispatch and the bounding-box visitor give the same box for every well-formed tree. |
| `Scenarios.BallBoundary` | Virtual/VirtualTask.cs:28-33 | A ball of radius 2 at the origin contains (2,0,0) and does not contain (2.0001,0,0). |
| `Scenarios.CylinderBoundary` | Virtual/VirtualTask.cs:96-105 | A cylinder of radius 1 and height 4 at the origin contains (0,0,2) and (1,0,0). It does not contain (0,0,2.01) or (1,0.1,0). |
| `Scenarios.TwoBallsBox` | Visitor/VisitorTask.cs:122-143 | Two balls of radius r at (0,0,0) and (10,0,0) form a compound. Its box is centred at (5,0,0) and has size (10+2r, 2r, 2r). |
| `Scenarios.EmptyCompoundRefused` | Visitor/VisitorTask.cs:85-88 | Building a compound from no parts fails. |

## Left out

- The vector type's own source is not part of this model. Vectors are triples of reals. `-`, squared length and `<=`/`>=` are componentwise, as their use in the cuboid containment test implies.
- IEEE double rounding is not modelled. All quantities are exact reals. Identities such as the one-part compound box and the cylinder's top face `minZ + sizeZ` equalling `z + sizeZ/2` hold exactly only over reals.
- The generic visitor interface, `Accept` and the `TryAcceptVisitor` extension method are modelled as one `match` per operation. `TryAcceptVisitor` is not part of this model and is taken to call `Accept`.
- The statement after the compound handler's `return` (Visitor/VisitorTask.cs:144) can never run and has no counterpart.
- Bodies.NewCompound: on an empty list the source fails with an index error from `parts[0]`. The model returns `Failure(EmptyParts)` instead of modelling an exception. Operations on trees require `Valid`, so no compound they see is empty.
- The two source namespaces each declare their own body classes with the same fields. The direct-dispatch classes carry `ContainsPoint` and `GetBoundingBox`; the visitor classes carry `Accept`. The model has one `Body` datatype for both, with each style's operations as functions over it.
- A compound keeps the caller's parts list without copying it (Visitor/VisitorTask.cs:87, Virtual/VirtualTask.cs:119), and reads its position once, when it is built (Visitor/VisitorTask.cs:85, Virtual/VirtualTask.cs:117). If the caller later replaces the first entry, the compound's position no longer equals its first part's. If the caller empties the list, computing the bounding box throws from `Min`. The model's parts are an immutable sequence, and `Valid` rules both states out.
- Each compound computes its parts' boxes six times, once per axis and corner. The model computes them once and reads all six values from that list. The values are the same, because the operations are pure.
- `Min` and `Max` from the query library fold from the left. The model folds from the right. Over reals without NaN the result is the same.
- The visitor side defines no containment visitor, so only bounding boxes are compared across dispatch styles.
- Negative radii and sizes are not rejected anywhere, as in the source. The properties that need non-negative values say so in their `requires`.
