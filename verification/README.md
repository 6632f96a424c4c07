# termdraw, modelled in Dafny

termdraw is a terminal canvas editor. The user drags with the left mouse button to place shapes on the character grid: a filled box, a border, a line or an arrow. Every pass of the UI loop clears the terminal and redraws all the shapes. This project models the editor's core:

- `shapes.dfy` (module `Shapes`, from `src/shapes.rs`): `Point` and its hand-written `eq`, `ne` and `_here`; `set_value`. It also has `RectangleShape::new`, which turns the two ends of a drag into four named corners, and the `LineShape` and `Shape` types.
- `canvas.dfy` (module `Canvas`, `State` from `src/main.rs`): the append-only list of placed shapes, as a class.
- `render.dfy` (module `Render`, from `src/render.rs`): the rasterisers `calculte_box`, `calculte_border` (with `Vec::dedup`), `calculte_arrow` and `calculte_points`. They are imperative methods proved against specification functions. This module also has the shape dispatch of `render_canvas` and the in-order painting of `render_points`. The terminal is a `Screen` class whose grid maps (column, row) to a glyph.
- `editor.dfy` (module `Editor`, the `ui` loop of `src/main.rs`): decoded events as a datatype, and `React`, one event's effect as a pure transition. `Editor` is a class holding the loop's variables. Its `HandleEvent` and `Frame` methods are proved against `React` and `Run`.

The model follows the code as written, including its quirks:

- `Point::ne` holds only when both coordinates differ. So two points that share one coordinate are neither `eq` nor `ne`.
- `RectangleShape::new` uses one corner convention for upward drags (`start.y > end.y`) and another for downward ones. In every branch `bottom_left` is the (min x, min y) corner.
- So `calculte_box` of any rectangle built by `new` is empty (`BoxOfNewRectangleIsEmpty`), and filled boxes placed through the editor never show (`RunKeepsBoxesInvisible`).
- A border from an upward drag is empty. A border from a downward drag is just two parallel lines (`BorderOfNewRectangle`).
- A `Line` draws nothing. An `Arrow` draws only an `X` at each end; `calculte_arrow` is defined but never called.
- The drag start is not cleared on release, so a second release places a second shape (`RepeatedRelease`).
- `terminal::size()` returns (columns, rows), and the code binds that pair to `theight`, `twith` in that order. A `Resize(columns, rows)` then sets `theight` to the rows. Neither value is used when drawing.

`DrawMode`'s variants are named `BoxMode`, `BorderMode`, `LineMode` and `ArrowMode` so that they do not clash with the `Shape` constructors.

## Model

| member | source | states |
|---|---|---|
| `Shapes.SetValue` | src/shapes.rs:8-11 | the result has the same cell as the input and carries `Some(c)` |
| `Shapes.Eq` | src/shapes.rs:18-20 | `eq` holds exactly when the two points are identical once their glyphs are erased |
| `Shapes.Ne` | src/shapes.rs:14-16 | `ne` implies not `eq` |
| `Shapes.EqIgnoresValue` | src/shapes.rs:18-20 | point equality holds exactly when x and y match; changing either glyph never changes it |
| `Shapes.EqIsEquivalence` | src/shapes.rs:18-20 | point equality is reflexive, symmetric and transitive |
| `Shapes.NeIsNotNegatedEq` | src/shapes.rs:14-20 | `ne` implies not `eq`; a pair is neither `eq` nor `ne` exactly when one coordinate matches and the other differs |
| `Shapes.NeitherEqNorNeWitness` | src/shapes.rs:14-20 | (1,2) and (1,3) are neither equal nor unequal |
| `Shapes.Here` | src/shapes.rs:26-28 | `_here(row, column)` holds exactly when the point `eq`s a point at (row, column), whatever its glyph |
| `Shapes.RectEq` | src/shapes.rs:31 | the derived rectangle equality holds exactly when the two rectangles have the same corner cells, in the same order |
| `Shapes.NewRectangle` | src/shapes.rs:39-81 | `start` and `end` are both corners; every other corner carries no glyph; `bottom_left` is (min x, min y) |
| `Shapes.NewRectangleCorners` | src/shapes.rs:39-81 | the set of corner cells is exactly the four bounding-box corners {min x, max x} × {min y, max y} |
| `Shapes.NewRectangleSymmetric` | src/shapes.rs:39-81 | `new(p, q)` and `new(q, p)` have the same corner set |
| `Shapes.NewRectangleUpward` | src/shapes.rs:40-59 | when `start.y > end.y`: top_left (min x, max y), top_right (max x, max y), bottom_left (min x, min y), bottom_right (max x, min y) |
| `Shapes.NewRectangleDownward` | src/shapes.rs:60-79 | when `start.y <= end.y`: leftward drags put top_left at (max x, max y) and top_right at (min x, max y); otherwise top_left is (max x, min y) and top_right (max x, max y) |
| `Shapes.NewRectangleEqIgnoresValues` | src/shapes.rs:31-37 | the derived rectangle equality does not depend on the glyphs of the drag ends |
| `Shapes.NewRectangleTestCases` | src/shapes.rs:108-189 | the two unit-test drags (2,5)→(4,2) and (4,5)→(2,2) give the expected corners |
| `Shapes.NewLine` | src/shapes.rs:90-92 | a line keeps both ends unchanged and unnormalised |
| `Canvas.State.constructor` | src/main.rs:88-90 | a new state holds no shapes |
| `Canvas.State.Insert` | src/main.rs:84-86 | the shape is appended; the length grows by one and the earlier shapes are unchanged |
| `Render.BoxPointsShape` | src/render.rs:51-60 | the box has one block per cell of [top_right.x, bottom_left.x) × [top_right.y, bottom_left.y), so its length is the product of the range lengths; it is ordered x-major with y ascending, and every point is a block |
| `Render.BoxOfNewRectangleIsEmpty` | src/render.rs:53 | `calculte_box` of any rectangle built by `RectangleShape::new` is empty |
| `Render.CalculateBox` | src/render.rs:51-60 | the nested loops return exactly the box sequence |
| `Render.DedupProperties` | src/render.rs:31 | after `dedup` no two neighbours are equal, no point is new and the length does not grow; every input point keeps an equal copy |
| `Render.DedupKeepsDistinctNeighbours` | src/render.rs:31 | an input with no equal neighbours is returned unchanged |
| `Render.DedupKeepsFirstOfRuns` | src/render.rs:31 | `dedup` equals the order-preserving filter that keeps each point exactly when it is the first or differs from the input's previous point, so the first of every run of equal points stays |
| `Render.DedupExample` | src/render.rs:31 | for [a, a, b, a] the result is [a, b, a]: only the adjacent repeat goes |
| `Render.DedupIdempotent` | src/render.rs:31 | deduplicating twice is deduplicating once |
| `Render.DedupSameMembers` | src/render.rs:31 | when all points carry the same glyph, the output has exactly the input's points |
| `Render.RemoveAdjacentDuplicates` | src/render.rs:31 | the keep-unless-equal-to-last loop computes `Dedup` |
| `Render.BorderPointsShape` | src/render.rs:18-33 | every border point is a block, either from the first loop (x ∈ {top_left.x, bottom_left.x}, y ∈ [top_left.y, top_right.y)) or from the second (y ∈ {top_left.y, bottom_left.y}, x ∈ [top_right.x, top_left.x)); no neighbours are equal; the length is at most 2·(both range lengths) |
| `Render.BorderOfNewRectangle` | src/render.rs:18-33 | on rectangles from `new`: upward drags give no border; leftward downward drags give two horizontal lines at min y and max y; other downward drags give two vertical lines at min x and max x |
| `Render.CalculateBorder` | src/render.rs:18-33 | the two loops followed by dedup return exactly the border sequence |
| `Render.ArrowPointsShape` | src/render.rs:36-45 | an arrow has max(end.y − start.y, 0) + 1 points in column start.x: a rule at rows start.y, start.y+1, …, then a head at end.y |
| `Render.CalculateArrow` | src/render.rs:36-45 | the loop and the final push return exactly the arrow sequence |
| `Render.MarkPoints` | src/render.rs:62-64 | exactly two points, at start's cell and then end's cell, both marked `X` |
| `Render.ShapePointsOfLines` | src/render.rs:81-82 | a line shape yields nothing; an arrow shape yields only its two `X` end marks |
| `Render.PaintAppend` | src/render.rs:93-99 | painting `a` then `b` is painting `a + b` |
| `Render.PaintLastWins` | src/render.rs:93-99 | a cell shows the glyph of the last point with a glyph written to it |
| `Render.PaintUntouched` | src/render.rs:93-99 | a cell that no glyph-carrying point lands on keeps its contents; points without a glyph change nothing |
| `Render.PaintShapesIsOneStream` | src/render.rs:74-85 | painting shape by shape in insertion order is painting every shape's points as one stream |
| `Render.LaterShapeWins` | src/render.rs:74-85 | a later shape overwrites every earlier shape at each cell where it writes a glyph last |
| `Render.Screen.Clear` | src/main.rs:167 | clearing empties the grid |
| `Render.Screen.RenderPoints` | src/render.rs:90-102 | the grid becomes the old grid painted with the points in order |
| `Render.Screen.RenderCanvas` | src/render.rs:73-88 | the grid becomes the old grid painted with every shape's rasterised points, in insertion order |
| `Editor.InitialSession` | src/main.rs:106-111 | the loop starts in box mode, with no drag start and no shapes; `theight` holds the column count and `twith` the row count, as `terminal::size()` is bound |
| `Editor.KeyBindings` | src/main.rs:115-124 | `b`, `s`, `l` and `a` select Border, Box, Line and Arrow; Esc and `q` quit; every other key leaves the session unchanged |
| `Editor.PressRecordsStart` | src/main.rs:126-128 | a left press sets the drag start to (column, row) with no glyph and changes nothing else |
| `Editor.ReleasePlacesShape` | src/main.rs:129-149 | a left release without a drag start places nothing. With one, it appends one shape: a rectangle from `RectangleShape::new` in Box/Border mode, the raw points in Line/Arrow mode. Mode, drag start and size are unchanged |
| `Editor.RepeatedRelease` | src/main.rs:129-149 | two releases after one press place two shapes from the same start |
| `Editor.ResizeSetsDimensions` | src/main.rs:158-161 | a resize sets `theight` to the rows and `twith` to the columns, and nothing else |
| `Editor.OtherEventsIgnored` | src/main.rs:150-157 | drags, other buttons and other mouse or terminal events leave the session unchanged |
| `Editor.RunAppendsOnly` | src/main.rs:113-164 | over any batch of events, shapes are only appended, at most one per event |
| `Editor.RunKeepsBoxesInvisible` | src/main.rs:137-147 | every filled box placed through the editor rasterises to nothing |
| `Editor.Editor.constructor` | src/main.rs:106-111 | the loop's variables start as the initial session, with a fresh empty state and screen |
| `Editor.Editor.HandleEvent` | src/main.rs:114-163 | the fields change exactly as `React` says, and a quit leaves them untouched |
| `Editor.Editor.Frame` | src/main.rs:112-172 | pending events are handled in order until one quits. Otherwise the screen is cleared and then shows exactly the placed shapes painted in insertion order |

## Left out

- Terminal setup and teardown are not modelled: raw mode, alternate screen, mouse capture and cursor hiding. They are calls into the terminal library with no logic of their own.
- Event polling, reading and decoding are not modelled either. Events arrive as the `Event` datatype. Key modifiers and press/release kinds are not distinguished, as the source does not distinguish them.
- Cursor movement, the byte writes, `flush` and the 10 ms sleep are abstracted. Each glyph write is a grid update at the point's own cell. The model does not capture what the terminal does with a position outside the visible window.
- The tokio entry point and the tracing log setup are left out. They are runtime plumbing with no effect on the drawing.
- The commented-out neighbour lookup (`ViewVisor`, `get_view_visor`) and the commented-out alternative dispatch lines in `render_canvas` are not part of the program, so they are not modelled.
- `render_canvas`'s terminal-size arguments are unused by the source, so they are dropped.
- Rust's ownership and cloning are modelled as plain values. `set_value` on a moved-in copy is a record update.
