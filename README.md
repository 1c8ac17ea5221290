# OakTree widget logic in Dafny

OakTree is a GUI library for Minecraft mods. This project models its per-frame widget
logic as Dafny and proves what each widget promises:

- item slots: taking, placing and merging stacks with the cursor;
- buttons: the press/hold/release and toggle state machine;
- hover and slider controls, and paged panels;
- the GUI driver: mouse edge detection and the top-most capture sweep;
- the root panel: the dirty list and the interact/prepare/draw/tooltip passes;
- the float-coordinate box and split-box nodes;
- the texture and colour styles, and anchor and alignment offsets.

Each Java class whose methods update fields is a Dafny `class` with those fields.
Calls it makes to code outside the model are recorded in a `ghost` log. That covers
callbacks, sounds, network syncs, tooltips, child layout and `setMouseWithin`.
Values the unseen base classes supply become fields or parameters: the true position,
the area, the mouse flag, the result of `super.interact`, the child list and the
tree walk.

Java semantics are written out where they differ from Dafny's:
- `int` halving truncates toward zero (`JavaNumerics.Half`).
- The `(int)` cast truncates, and maps NaN to 0 (`JavaNumerics.Trunc`, `FloatToInt`).
- A float division by zero gives an infinity or NaN (`SliderControls.DragPercent`).
- Floats are modelled as reals, so rounding is not.

The source comes from three API generations that do not compose:
- the `net.redstoneparadox` nodes, on floats;
- the `io.github...client.gui` controls, on `ControlGui`;
- the `io.github...control` controls, with `interact(..., captured)`.

So each class is modelled against its own view of its base class.

## Model

| member | source | states |
|---|---|---|
| JavaNumerics.Half | src/main/java/io/github/redstoneparadox/oaktree/client/gui/control/Anchor.java:20 | Java's `a / 2`: the remainder is at most 1 in size and takes the sign of `a` |
| JavaNumerics.Trunc | src/main/java/io/github/redstoneparadox/oaktree/client/gui/control/SliderControl.java:75 | the `(int)` cast of a finite float lies within 1 of it, toward zero |
| InteractiveControls.HitTestIsInclusiveRect | src/main/java/io/github/redstoneparadox/oaktree/client/gui/control/InteractiveControl.java:16 | the hit test includes all four edges: the far corner of a control of non-negative size is a hit, one pixel past either far edge is not |
| InteractiveControls.InteractiveControl.PreDraw | src/main/java/io/github/redstoneparadox/oaktree/client/gui/control/InteractiveControl.java:12-17 | an invisible control keeps every field; a visible one takes its true position and its mouse flag is the inclusive hit test |
| InteractiveControls.InteractiveControl.RelativeMousePosition | src/main/java/io/github/redstoneparadox/oaktree/client/gui/control/InteractiveControl.java:19-21 | adding the true position back to the result gives the mouse position |
| InteractiveControls.InteractiveControl.SetMouseWithin | src/main/java/io/github/redstoneparadox/oaktree/client/gui/control/InteractiveControl.java:27-30 | the flag becomes exactly the argument, and nothing else changes |
| InteractiveControls.InteractiveControl.constructor | src/main/java/io/github/redstoneparadox/oaktree/client/gui/control/InteractiveControl.java:10 | the mouse flag starts false |
| HoverControls.FrameEvents | src/main/java/io/github/redstoneparadox/oaktree/client/gui/control/HoverControl.java:44-55 | enter fires iff the latch was clear and the mouse is over the control; exit fires iff the latch was set and the mouse is not; the hover callback fires iff the frame ends latched; at most two callbacks fire, and then enter comes before hover |
| HoverControls.EnterExitAlternate | src/main/java/io/github/redstoneparadox/oaktree/client/gui/control/HoverControl.java:44-55 | over any run of frames, enter and exit strictly alternate, and the hover callback fires once per frame with the mouse over the control |
| HoverControls.TransitionsAppend | src/main/java/io/github/redstoneparadox/oaktree/client/gui/control/HoverControl.java:44-55 | the enter/exit subsequence and the hover count of a concatenated run split over its parts |
| HoverControls.NextStyle | src/main/java/io/github/redstoneparadox/oaktree/client/gui/control/HoverControl.java:57-62 | latched: the hover style, or the base style when it is missing; not latched: the current style kept, or the base style when there is none |
| HoverControls.HoverControl.constructor | src/main/java/io/github/redstoneparadox/oaktree/client/gui/control/HoverControl.java:14-18 | id "hover", latch clear, no style, empty internal theme |
| HoverControls.HoverControl.HoverStyle | src/main/java/io/github/redstoneparadox/oaktree/client/gui/control/HoverControl.java:20-23 | the internal theme gains ("self", "hover") mapped to the style and keeps every other entry |
| HoverControls.HoverControl.PreDraw | src/main/java/io/github/redstoneparadox/oaktree/client/gui/control/HoverControl.java:41-63 | the latch equals the mouse flag; the callbacks of `FrameEvents` are logged; the style is `NextStyle` |
| SliderControls.Clamp100 | src/main/java/io/github/redstoneparadox/oaktree/client/gui/control/SliderControl.java:54 | the result is in [0, 100], and equals the value when the value is already in range |
| SliderControls.DragPercent | src/main/java/io/github/redstoneparadox/oaktree/client/gui/control/SliderControl.java:52-58 | NaN exactly when both offset and travel are 0; otherwise a value in [0, 100], the clamped offset/travel*100; with no travel, 100 for a positive offset and 0 for a negative one |
| SliderControls.DragMonotone | src/main/java/io/github/redstoneparadox/oaktree/client/gui/control/SliderControl.java:54 | with positive travel, dragging further never lowers the percentage |
| SliderControls.DragEnds | src/main/java/io/github/redstoneparadox/oaktree/client/gui/control/SliderControl.java:54 | the start of the travel gives 0 and its end gives 100 |
| SliderControls.DragExample | src/main/java/io/github/redstoneparadox/oaktree/client/gui/control/SliderControl.java:54 | a 10-long thumb on a 110-long track: local offset 55 gives 55.0; offsets before and past the track clamp to 0 and 100 |
| SliderControls.Thumb | src/main/java/io/github/redstoneparadox/oaktree/client/gui/control/SliderControl.java:68-81 | along the axis the thumb is `barLength` long at the truncated offset; across the axis it takes the track's full size and position |
| SliderControls.ThumbOffsetInRange | src/main/java/io/github/redstoneparadox/oaktree/client/gui/control/SliderControl.java:75-79 | for a percentage in [0, 100] (or NaN) and non-negative travel, the offset lies in [0, travel] |
| SliderControls.ThumbInsideTrack | src/main/java/io/github/redstoneparadox/oaktree/client/gui/control/SliderControl.java:68-81 | the thumb lies inside the track when the percentage is in range and the track is at least `barLength` long |
| SliderControls.SliderControl.constructor | src/main/java/io/github/redstoneparadox/oaktree/client/gui/control/SliderControl.java:11-17 | the defaults: no style, 0 percent, vertical, thumb length 1 |
| SliderControls.SliderControl.SliderStyle | src/main/java/io/github/redstoneparadox/oaktree/client/gui/control/SliderControl.java:23-26 | stores the style |
| SliderControls.SliderControl.ScrollPercent | src/main/java/io/github/redstoneparadox/oaktree/client/gui/control/SliderControl.java:28-31 | stores the percentage unclamped |
| SliderControls.SliderControl.Horizontal | src/main/java/io/github/redstoneparadox/oaktree/client/gui/control/SliderControl.java:33-36 | stores the orientation |
| SliderControls.SliderControl.BarLength | src/main/java/io/github/redstoneparadox/oaktree/client/gui/control/SliderControl.java:38-41 | stores the thumb length |
| SliderControls.SliderControl.PreDraw | src/main/java/io/github/redstoneparadox/oaktree/client/gui/control/SliderControl.java:49-62 | without the mouse over the slider and the left button held nothing changes; otherwise the percentage is `DragPercent` along the axis and exactly one slide event carries it |
| SliderControls.SliderControl.Draw | src/main/java/io/github/redstoneparadox/oaktree/client/gui/control/SliderControl.java:65-84 | without a slider style nothing is drawn; otherwise the thumb is `Thumb` over the control's area |
| SliderControls.SliderControl.ApplyTheme | src/main/java/io/github/redstoneparadox/oaktree/client/gui/control/SliderControl.java:87-90 | the default and slider styles become the theme's |
| Controls.IndexOf | src/main/java/io/github/redstoneparadox/oaktree/client/gui/control/PagePanelControl.java:43 | -1 exactly when the element is absent; otherwise the first index holding it |
| PagePanels.ClampPage | src/main/java/io/github/redstoneparadox/oaktree/client/gui/control/PagePanelControl.java:12-18 | below 0 gives 0, at or past the size gives size - 1, anything else is kept |
| PagePanels.ClampInRange | src/main/java/io/github/redstoneparadox/oaktree/client/gui/control/PagePanelControl.java:13-15 | with at least one child the page is a valid index |
| PagePanels.ClampIdempotent | src/main/java/io/github/redstoneparadox/oaktree/client/gui/control/PagePanelControl.java:12-18 | with at least one child, re-clamping changes nothing |
| PagePanels.EmptyPanelOscillates | src/main/java/io/github/redstoneparadox/oaktree/client/gui/control/PagePanelControl.java:13-14 | with no children every `p >= 0` gives -1, and re-clamping alternates between 0 and -1 |
| PagePanels.PagingSaturates | src/main/java/io/github/redstoneparadox/oaktree/client/gui/control/PagePanelControl.java:20-28 | next on the last page and previous on the first page stay put |
| PagePanels.PagePanelControl.constructor | src/main/java/io/github/redstoneparadox/oaktree/client/gui/control/PagePanelControl.java:6-10 | id "page_panel_control", page 0 |
| PagePanels.PagePanelControl.Page | src/main/java/io/github/redstoneparadox/oaktree/client/gui/control/PagePanelControl.java:12-18 | the page becomes `ClampPage` of the argument |
| PagePanels.PagePanelControl.NextPage | src/main/java/io/github/redstoneparadox/oaktree/client/gui/control/PagePanelControl.java:20-23 | the page becomes the clamp of page + 1 |
| PagePanels.PagePanelControl.PreviousPage | src/main/java/io/github/redstoneparadox/oaktree/client/gui/control/PagePanelControl.java:25-28 | the page becomes the clamp of page - 1 |
| PagePanels.PagePanelControl.FlipPages | src/main/java/io/github/redstoneparadox/oaktree/client/gui/control/PagePanelControl.java:30-33 | the page becomes the clamp of page + count |
| PagePanels.PagePanelControl.ArrangeChildren | src/main/java/io/github/redstoneparadox/oaktree/client/gui/control/PagePanelControl.java:35-39 | exactly the child at the page is laid out; a null slot does nothing; a page outside the list fails as `List.get` does |
| PagePanels.PagePanelControl.ShouldDraw | src/main/java/io/github/redstoneparadox/oaktree/client/gui/control/PagePanelControl.java:41-44 | a child is drawn iff the page holds it and no earlier page does, or the page is -1 and the child is not among the children at all (`indexOf` answers -1 for a missing element) |
| PagePanels.PagePanelControl.OnlyCurrentPageDrawn | src/main/java/io/github/redstoneparadox/oaktree/client/gui/control/PagePanelControl.java:41-44 | among children listed once, a child is drawn iff its index is the page |
| PagePanels.PagePanelControl.DuplicateChildHidden | src/main/java/io/github/redstoneparadox/oaktree/client/gui/control/PagePanelControl.java:41-44 | a child listed twice is not drawn when the page is its second position |
| BoxNodes.MarginOf | src/main/java/net/redstoneparadox/oaktree/client/gui/nodes/BoxNode.java:18-21 | a margin that is not positive becomes 0; a positive one is kept |
| BoxNodes.ChildFrame | src/main/java/net/redstoneparadox/oaktree/client/gui/nodes/BoxNode.java:38-42 | the child frame is the offset box shrunk by each side's margin, with no clamp |
| BoxNodes.ChildFrameInside | src/main/java/net/redstoneparadox/oaktree/client/gui/nodes/BoxNode.java:38-42 | with non-negative margins the child frame stays inside the box, and it has negative width when the margins exceed the width |
| BoxNodes.BoxNode.constructor | src/main/java/net/redstoneparadox/oaktree/client/gui/nodes/BoxNode.java:11-16 | zero margins and no child |
| BoxNodes.BoxNode.SetMargin | src/main/java/net/redstoneparadox/oaktree/client/gui/nodes/BoxNode.java:18-28 | all four margins become `MarginOf` the argument |
| BoxNodes.BoxNode.AddChild | src/main/java/net/redstoneparadox/oaktree/client/gui/nodes/BoxNode.java:30-33 | the new child replaces any previous one |
| BoxNodes.BoxNode.PreDraw | src/main/java/net/redstoneparadox/oaktree/client/gui/nodes/BoxNode.java:35-47 | the box logs the call, then hands its child, if any, the shrunk frame |
| BoxNodes.BoxNode.Draw | src/main/java/net/redstoneparadox/oaktree/client/gui/nodes/BoxNode.java:49-61 | the same as `PreDraw`, for the draw pass |
| BoxNodes.BoxNode.PassesAgree | src/main/java/net/redstoneparadox/oaktree/client/gui/nodes/BoxNode.java:38-56 | both passes hand the child the same frame for the same offset |
| SplitBoxNodes.ClampPercent | src/main/java/net/redstoneparadox/oaktree/client/gui/nodes/SplitBoxNode.java:21-28 | the percentage clamped to [0, 100]; in-range values are kept |
| SplitBoxNodes.ClampPercentIdempotent | src/main/java/net/redstoneparadox/oaktree/client/gui/nodes/SplitBoxNode.java:21-28 | clamping twice is clamping once |
| SplitBoxNodes.Split | src/main/java/net/redstoneparadox/oaktree/client/gui/nodes/SplitBoxNode.java:61-78 | the first half takes `percent/100` of the split axis; the second starts where it ends, and the two sizes sum to the node's size; both halves share the other axis |
| SplitBoxNodes.SplitSizesInRange | src/main/java/net/redstoneparadox/oaktree/client/gui/nodes/SplitBoxNode.java:65-74 | with the percentage in range and a non-negative size, both halves have sizes between 0 and the node's size |
| SplitBoxNodes.SplitBoxNode.constructor | src/main/java/net/redstoneparadox/oaktree/client/gui/nodes/SplitBoxNode.java:9-19 | two distinct fresh boxes, both expanding, split at 50 percent, side by side |
| SplitBoxNodes.SplitBoxNode.SetSplitPercent | src/main/java/net/redstoneparadox/oaktree/client/gui/nodes/SplitBoxNode.java:21-30 | the percentage becomes `ClampPercent` of the argument |
| SplitBoxNodes.SplitBoxNode.SetVertical | src/main/java/net/redstoneparadox/oaktree/client/gui/nodes/SplitBoxNode.java:32-35 | stores the orientation |
| SplitBoxNodes.SplitBoxNode.AddLeftChild | src/main/java/net/redstoneparadox/oaktree/client/gui/nodes/SplitBoxNode.java:37-40 | the left box's child is replaced |
| SplitBoxNodes.SplitBoxNode.AddRightChild | src/main/java/net/redstoneparadox/oaktree/client/gui/nodes/SplitBoxNode.java:42-45 | the right box's child is replaced |
| SplitBoxNodes.SplitBoxNode.SetLeftMargin | src/main/java/net/redstoneparadox/oaktree/client/gui/nodes/SplitBoxNode.java:47-50 | the left box's four margins become `MarginOf` the value |
| SplitBoxNodes.SplitBoxNode.SetRightMargin | src/main/java/net/redstoneparadox/oaktree/client/gui/nodes/SplitBoxNode.java:52-55 | the right box's four margins become `MarginOf` the value |
| SplitBoxNodes.SplitBoxNode.PreDraw | src/main/java/net/redstoneparadox/oaktree/client/gui/nodes/SplitBoxNode.java:58-80 | both boxes are laid out, in the two `Split` halves of the node's size at its position plus the offset |
| SplitBoxNodes.SplitBoxNode.Draw | src/main/java/net/redstoneparadox/oaktree/client/gui/nodes/SplitBoxNode.java:82-102 | both boxes are drawn, in the two `Split` halves of the node's size at its true position |
| ColorStyles.Plain | src/main/java/io/github/redstoneparadox/oaktree/client/gui/style/ColorStyle.java:19-21 | the one-argument constructor: no border colour, border width 1 |
| ColorStyles.Draw | src/main/java/io/github/redstoneparadox/oaktree/client/gui/style/ColorStyle.java:24-27 | one rectangle without a border colour and two with one, the enlarged one first; the last is the target; every rectangle uses the fill colour; for a non-negative width the outer one covers the inner |
| ColorStyles.NegativeBorderDoesNotCover | src/main/java/io/github/redstoneparadox/oaktree/client/gui/style/ColorStyle.java:25 | a negative border width gives an outer rectangle that does not surround the fill |
| TextureStyles.TilesPerRow | src/main/java/io/github/redstoneparadox/oaktree/client/gui/style/TextureStyle.java:107-111 | every row has at least one tile |
| TextureStyles.Row | src/main/java/io/github/redstoneparadox/oaktree/client/gui/style/TextureStyle.java:99-105 | a row holds exactly `cols` tiles |
| TextureStyles.RowMajor | src/main/java/io/github/redstoneparadox/oaktree/client/gui/style/TextureStyle.java:98-112 | the tiling of `n` rows has `n * cols` tiles, and the one at `r * cols + c` is the tile of row `r` and column `c` |
| TextureStyles.RowsBeforeLength | src/main/java/io/github/redstoneparadox/oaktree/client/gui/style/TextureStyle.java:98-112 | `n` rows hold `n * cols` tiles |
| TextureStyles.RowEndsAtLastColumn | src/main/java/io/github/redstoneparadox/oaktree/client/gui/style/TextureStyle.java:107-108 | the remaining width goes negative exactly after a row's last tile |
| TextureStyles.RowsEndAtRowCount | src/main/java/io/github/redstoneparadox/oaktree/client/gui/style/TextureStyle.java:98-110 | the remaining height stays positive exactly until the last row is drawn |
| TextureStyles.RowShape | src/main/java/io/github/redstoneparadox/oaktree/client/gui/style/TextureStyle.java:107-111 | for a non-negative width, every row has `width / drawWidth + 1` tiles, and the last is `width % drawWidth` wide (zero on an exact multiple) |
| TextureStyles.TileHeightsPositive | src/main/java/io/github/redstoneparadox/oaktree/client/gui/style/TextureStyle.java:98-103 | no tile of the tiling has zero height |
| TextureStyles.TilingDiverges | src/main/java/io/github/redstoneparadox/oaktree/client/gui/style/TextureStyle.java:98-112 | outside `TilingTerminates` the remaining height stays positive after any number of iterations, so the loop never ends |
| TextureStyles.DivSmall | src/main/java/io/github/redstoneparadox/oaktree/client/gui/style/TextureStyle.java:107-111 | a width below the tile width has quotient 0 and remainder itself |
| TextureStyles.DivStep | src/main/java/io/github/redstoneparadox/oaktree/client/gui/style/TextureStyle.java:107-111 | one tile width fewer lowers the quotient by one and keeps the remainder |
| TextureStyles.DivUnique | src/main/java/io/github/redstoneparadox/oaktree/client/gui/style/TextureStyle.java:107-111 | quotient and remainder are determined by `n == d*q + m` with `0 <= m < d` |
| TextureStyles.TextureStyle.constructor | src/main/java/io/github/redstoneparadox/oaktree/client/gui/style/TextureStyle.java:15-28 | the defaults: origin (0, 0), not tiled, zero sizes, white tint, scale 2 |
| TextureStyles.TextureStyle.DrawOrigin | src/main/java/io/github/redstoneparadox/oaktree/client/gui/style/TextureStyle.java:30-34 | stores the texture origin |
| TextureStyles.TextureStyle.SetTiled | src/main/java/io/github/redstoneparadox/oaktree/client/gui/style/TextureStyle.java:43-46 | stores the tiling flag |
| TextureStyles.TextureStyle.TextureSize | src/main/java/io/github/redstoneparadox/oaktree/client/gui/style/TextureStyle.java:48-52 | stores the texture size |
| TextureStyles.TextureStyle.FileDimensions | src/main/java/io/github/redstoneparadox/oaktree/client/gui/style/TextureStyle.java:54-58 | stores the file size |
| TextureStyles.TextureStyle.Tint | src/main/java/io/github/redstoneparadox/oaktree/client/gui/style/TextureStyle.java:60-63 | stores the tint |
| TextureStyles.TextureStyle.Scale | src/main/java/io/github/redstoneparadox/oaktree/client/gui/style/TextureStyle.java:72-75 | stores the scale |
| TextureStyles.TextureStyle.Draw | src/main/java/io/github/redstoneparadox/oaktree/client/gui/style/TextureStyle.java:78-92 | untiled: the same call twice, clipped to `min(width, textureWidth)` by `min(height, textureHeight)` at the texture origin; tiled: the row-major `Tiling` of the target |
| TextureStyles.TextureStyle.DrawTiled | src/main/java/io/github/redstoneparadox/oaktree/client/gui/style/TextureStyle.java:94-113 | the loop emits exactly `Tiling`: each tile is cut to what remains and placed at (width - remainingWidth, height - remainingHeight) from the origin |
| Anchors.GetOffset | src/main/java/io/github/redstoneparadox/oaktree/client/gui/control/Anchor.java:16-36 | x is 0, `width`/2 truncated, or `width` by column alone; y likewise by row; for non-negative sizes the point is inside the rectangle, and a centre is at most one pixel left of the true middle |
| Anchors.OffsetAxesIndependent | src/main/java/io/github/redstoneparadox/oaktree/client/gui/control/Anchor.java:16-36 | anchors in the same column share x, and anchors in the same row share y |
| Anchors.CenterOfNegativeWidth | src/main/java/io/github/redstoneparadox/oaktree/client/gui/control/Anchor.java:19-33 | halving -5 gives -2 (toward zero), not Dafny's -3 |
| Alignments.GetOffset | src/main/java/net/redstoneparadox/oaktree/client/gui/util/Alignment.java:14-34 | x is 0, `width`/2 or `width` by column; y likewise by row; halving is exact, so a centre is equidistant from both edges; for non-negative sizes the point is inside |
| Themes.Add | src/main/java/io/github/redstoneparadox/oaktree/client/gui/control/HoverControl.java:21 | the key maps to the style, every other entry is kept, and the key set gains just that key |
| SlotControls.Combined | src/main/java/io/github/redstoneparadox/oaktree/client/gui/control/SlotControl.java:179-190 | with unequal items neither stack changes; otherwise the counts move between the stacks and their sum is conserved; items and capacities never change |
| SlotControls.CombinedBounds | src/main/java/io/github/redstoneparadox/oaktree/client/gui/control/SlotControl.java:179-190 | on well-formed stacks with a non-negative amount, neither stack leaves [0, maxCount], nothing moves back from `to`, and no more than the amount moves |
| SlotControls.CombineStacks | src/main/java/io/github/redstoneparadox/oaktree/client/gui/control/SlotControl.java:179-190 | the recursion terminates on every input, and its result is `Combined`: `min(amount, from.count, to.maxCount - to.count)` units move when the items are equal |
| SlotControls.Split | src/main/java/io/github/redstoneparadox/oaktree/client/gui/control/SlotControl.java:132 | the split-off part holds `min(n, count)` units and the two parts sum to the original |
| SlotControls.RemoveStack | src/main/java/io/github/redstoneparadox/oaktree/client/gui/control/SlotControl.java:106 | a non-empty slot stack goes entirely to the caller and leaves the slot empty; an empty slot yields the empty stack |
| SlotControls.RemoveSome | src/main/java/io/github/redstoneparadox/oaktree/client/gui/control/SlotControl.java:110 | `n` units are split off a non-empty stack; nothing is taken from an empty stack or for `n <= 0` |
| SlotControls.Click | src/main/java/io/github/redstoneparadox/oaktree/client/gui/control/SlotControl.java:103-140 | a transfer branch is taken iff a button is just clicked and taking (empty cursor) or inserting (full cursor) is allowed; otherwise cursor and slot are unchanged |
| SlotControls.TakeBranch | src/main/java/io/github/redstoneparadox/oaktree/client/gui/control/SlotControl.java:103-112 | with an empty cursor: a left click moves the whole stack to the cursor and empties the slot; a right click moves `count / 2` and leaves the rest, so a one-unit stack stays in the slot and the cursor stays empty |
| SlotControls.InsertIntoEmptyBranch | src/main/java/io/github/redstoneparadox/oaktree/client/gui/control/SlotControl.java:118-133 | into an empty slot: a left click moves the whole cursor stack and empties the cursor; a right click moves exactly one unit |
| SlotControls.ClickConservesItems | src/main/java/io/github/redstoneparadox/oaktree/client/gui/control/SlotControl.java:103-140 | a click neither creates nor destroys units of any item, and keeps both stacks well formed |
| SlotControls.ItemFilterQuirk | src/main/java/io/github/redstoneparadox/oaktree/client/gui/control/SlotControl.java:58-66 | an empty item filter accepts every stack; one naming two different items accepts none |
| SlotControls.FilterItems | src/main/java/io/github/redstoneparadox/oaktree/client/gui/control/SlotControl.java:59-64 | the loop accepts iff the stack's item equals every listed item |
| SlotControls.FilterTags | src/main/java/io/github/redstoneparadox/oaktree/client/gui/control/SlotControl.java:69-74 | the loop accepts iff the stack's item is in every listed tag |
| SlotControls.IconCentred | src/main/java/io/github/redstoneparadox/oaktree/client/gui/control/SlotControl.java:165-166 | the 16-pixel icon is centred; the spare room on its two sides differs by at most one pixel |
| SlotControls.Highlight | src/main/java/io/github/redstoneparadox/oaktree/client/gui/control/SlotControl.java:173 | the highlight is the area shrunk by the border on every side |
| SlotControls.HighlightInside | src/main/java/io/github/redstoneparadox/oaktree/client/gui/control/SlotControl.java:173 | a non-negative border keeps the highlight inside the slot |
| SlotControls.SlotControl.constructor | src/main/java/io/github/redstoneparadox/oaktree/client/gui/control/SlotControl.java:26-41 | an 18 by 18 slot with border 1 that allows every insertion and every take |
| SlotControls.SlotControl.HighlightStyle | src/main/java/io/github/redstoneparadox/oaktree/client/gui/control/SlotControl.java:43-46 | stores the highlight style |
| SlotControls.SlotControl.SlotBorder | src/main/java/io/github/redstoneparadox/oaktree/client/gui/control/SlotControl.java:48-51 | stores the border |
| SlotControls.SlotControl.CanInsert | src/main/java/io/github/redstoneparadox/oaktree/client/gui/control/SlotControl.java:53-56 | stores the insertion predicate |
| SlotControls.SlotControl.CanTake | src/main/java/io/github/redstoneparadox/oaktree/client/gui/control/SlotControl.java:78-81 | stores the take predicate |
| SlotControls.SlotControl.FilterByItems | src/main/java/io/github/redstoneparadox/oaktree/client/gui/control/SlotControl.java:58-66 | insertion is then allowed exactly for stacks whose item is every listed item |
| SlotControls.SlotControl.FilterByTags | src/main/java/io/github/redstoneparadox/oaktree/client/gui/control/SlotControl.java:68-76 | insertion is then allowed exactly for stacks whose item is in every listed tag |
| SlotControls.SlotControl.PreDraw | src/main/java/io/github/redstoneparadox/oaktree/client/gui/control/SlotControl.java:90-155 | with no inventory screen handler, no inventory or no mouse over the slot, nothing changes; otherwise the cursor and the slot become `Click`'s, one sync with the slot's new stack follows any transfer branch, and a tooltip is shown for a non-empty original stack |
| SlotControls.SlotControl.Draw | src/main/java/io/github/redstoneparadox/oaktree/client/gui/control/SlotControl.java:158-177 | without an inventory screen handler nothing is drawn; a missing inventory fails; otherwise the stack's icon is centred and the highlight is drawn while the mouse is over the slot |
| ButtonControls.StepCases | src/main/java/io/github/redstoneparadox/oaktree/control/ButtonControl.java:143-176 | toggle: the held flag flips exactly on a captured click; the flip fires click only when it turns on from a press on the button (release otherwise); held fires last on every frame that ends held. Push: a captured held mouse fires click once when it turns held from a press on the button, and held on every such frame; a captured released mouse releases on every frame; losing the capture releases once |
| ButtonControls.KeyFor | src/main/java/io/github/redstoneparadox/oaktree/control/ButtonControl.java:178-186 | held wins over hovered, hovered means captured and not held, otherwise the default key |
| ButtonControls.ToggleParity | src/main/java/io/github/redstoneparadox/oaktree/control/ButtonControl.java:143-146 | after any run of frames a toggle is its initial state flipped once per captured click |
| ButtonControls.HoldFiresClickOnce | src/main/java/io/github/redstoneparadox/oaktree/control/ButtonControl.java:161-168 | holding a push button pressed on it fires exactly one click (none if already held) and leaves it held |
| ButtonControls.ClicksAppend | src/main/java/io/github/redstoneparadox/oaktree/control/ButtonControl.java:161-168 | the click count of a concatenation is the sum of the parts' |
| ButtonControls.RemoveFirst | src/main/java/io/github/redstoneparadox/oaktree/control/ButtonControl.java:205 | `List.remove`: an absent element leaves the list unchanged; otherwise exactly its first occurrence is cut out |
| ButtonControls.RemoveFirstCount | src/main/java/io/github/redstoneparadox/oaktree/control/ButtonControl.java:205 | removal takes exactly one copy of the element out of the list's multiset |
| ButtonControls.RegisterThenCleanup | src/main/java/io/github/redstoneparadox/oaktree/control/ButtonControl.java:44-205 | registering a new button and cleaning it up restores the listener list |
| ButtonControls.ButtonControl.constructor | src/main/java/io/github/redstoneparadox/oaktree/control/ButtonControl.java:27-45 | a push button with do-nothing actions and clear mouse state, appended to the listeners |
| ButtonControls.ButtonControl.SetToggleable | src/main/java/io/github/redstoneparadox/oaktree/control/ButtonControl.java:53-55 | stores the toggle flag |
| ButtonControls.ButtonControl.IsToggleable | src/main/java/io/github/redstoneparadox/oaktree/control/ButtonControl.java:57-59 | returns the toggle flag |
| ButtonControls.ButtonControl.SetText | src/main/java/io/github/redstoneparadox/oaktree/control/ButtonControl.java:67-79 | stores the text |
| ButtonControls.ButtonControl.GetText | src/main/java/io/github/redstoneparadox/oaktree/control/ButtonControl.java:81-83 | returns the text |
| ButtonControls.ButtonControl.SetClickSound | src/main/java/io/github/redstoneparadox/oaktree/control/ButtonControl.java:92-94 | stores the sound |
| ButtonControls.ButtonControl.GetClickSound | src/main/java/io/github/redstoneparadox/oaktree/control/ButtonControl.java:96-98 | returns the sound |
| ButtonControls.ButtonControl.OnClickAction | src/main/java/io/github/redstoneparadox/oaktree/control/ButtonControl.java:106-108 | stores the click action |
| ButtonControls.ButtonControl.WhileHeldAction | src/main/java/io/github/redstoneparadox/oaktree/control/ButtonControl.java:116-118 | stores the action in the click slot and leaves the held slot unchanged |
| ButtonControls.ButtonControl.OnReleaseAction | src/main/java/io/github/redstoneparadox/oaktree/control/ButtonControl.java:126-128 | stores the release action |
| ButtonControls.ButtonControl.HeldRunsAreIdle | src/main/java/io/github/redstoneparadox/oaktree/control/ButtonControl.java:33 | while `whileHeld` keeps its do-nothing default, every held-action run in a run of callbacks does nothing |
| ButtonControls.ButtonControl.RunsSnoc | src/main/java/io/github/redstoneparadox/oaktree/control/ButtonControl.java:143-176 | running one more callback appends its event |
| ButtonControls.ButtonControl.ToggleStep | src/main/java/io/github/redstoneparadox/oaktree/control/ButtonControl.java:143-160 | the toggle branch: held flag and callbacks as `Step` gives them for a toggle; while the held action keeps its default, its runs do nothing |
| ButtonControls.ButtonControl.PushStep | src/main/java/io/github/redstoneparadox/oaktree/control/ButtonControl.java:161-176 | the push branch: held flag and callbacks as `Step` gives them for a push button; while the held action keeps its default, its runs do nothing |
| ButtonControls.ButtonControl.StepAndFire | src/main/java/io/github/redstoneparadox/oaktree/control/ButtonControl.java:143-176 | the toggle or the push branch by the button's kind: held flag and callbacks as `Step` gives them; while the held action keeps its default, its runs do nothing |
| ButtonControls.ButtonControl.Interact | src/main/java/io/github/redstoneparadox/oaktree/control/ButtonControl.java:131-189 | the base result is returned unchanged; the mouse position is recorded; the held flag and the callbacks run follow `Step` with the inclusive press-on-button test; the painter key is `KeyFor`; while the held action keeps its do-nothing default, every held-action run logged does nothing |
| ButtonControls.ButtonControl.OnMouseButton | src/main/java/io/github/redstoneparadox/oaktree/control/ButtonControl.java:209-222 | other buttons change nothing; for the left button, clicked is pressed-and-not-released and held is not-released; a click records the press position and plays the sound, anything else forgets the position |
| ButtonControls.ButtonControl.Cleanup | src/main/java/io/github/redstoneparadox/oaktree/control/ButtonControl.java:203-206 | runs the base cleanup and removes the button's first occurrence from the listeners |
| ControlGuis.EdgeDetect | src/main/java/io/github/redstoneparadox/oaktree/client/gui/ControlGui.java:48-74 | held becomes the button's state; clicked iff it is down and was not held |
| ControlGuis.OneClickPerPress | src/main/java/io/github/redstoneparadox/oaktree/client/gui/ControlGui.java:48-60 | over any run of frames a click is reported exactly once per press, where a press is a frame, counted by index, on which the button is down and was up on the frame before |
| ControlGuis.Reversed | src/main/java/io/github/redstoneparadox/oaktree/client/gui/ControlGui.java:78 | `Collections.reverse`: the element at `k` is the one at `n - 1 - k` |
| ControlGuis.FirstHit | src/main/java/io/github/redstoneparadox/oaktree/client/gui/ControlGui.java:80-87 | the first hit control of the list, or the length when none is hit |
| ControlGuis.SweepShape | src/main/java/io/github/redstoneparadox/oaktree/client/gui/ControlGui.java:80-93 | the sweep calls every interactive control of the list exactly once, at most one call sets true, and none does once the capture is taken |
| ControlGuis.ReversedKeepsTargets | src/main/java/io/github/redstoneparadox/oaktree/client/gui/ControlGui.java:78 | reversing keeps the set of interactive controls |
| ControlGuis.EveryTargetHasLastMention | src/main/java/io/github/redstoneparadox/oaktree/client/gui/ControlGui.java:80-93 | every interactive control in the list has a last mention, so the sweep's final answer to it is determined |
| ControlGuis.DistinctMeansLast | src/main/java/io/github/redstoneparadox/oaktree/client/gui/ControlGui.java:80-93 | when no control is listed twice, every interactive entry is its control's last mention |
| ControlGuis.RepeatedControlEndsWithLastCall | src/main/java/io/github/redstoneparadox/oaktree/client/gui/ControlGui.java:80-93 | a control listed twice and hit both times is told true and then false |
| ControlGuis.ControlGui.constructor | src/main/java/io/github/redstoneparadox/oaktree/client/gui/ControlGui.java:23-31 | the flags start false, with no pending character and no theme |
| ControlGuis.ControlGui.OnCharTyped | src/main/java/io/github/redstoneparadox/oaktree/client/gui/ControlGui.java:37 | the keyboard hook records the character |
| ControlGuis.ControlGui.UpdateMouseFlags | src/main/java/io/github/redstoneparadox/oaktree/client/gui/ControlGui.java:48-74 | both buttons go through `EdgeDetect`, independently |
| ControlGuis.ControlGui.CaptureSweep | src/main/java/io/github/redstoneparadox/oaktree/client/gui/ControlGui.java:79-93 | the control of each last mention ends marked within iff that entry is the first hit, even when the first hit is not interactive, and a control listed more than once keeps the answer of its last mention; the calls are those of `SweepCalls`; only the mouse flags of the listed controls change |
| ControlGuis.ControlGui.SweepStep | src/main/java/io/github/redstoneparadox/oaktree/client/gui/ControlGui.java:81-92 | one entry of the sweep: it takes the capture iff it is hit and nothing took it before, its control is told so, and every earlier last mention keeps its answer; only that control's mouse flag changes |
| ControlGuis.ControlGui.Draw | src/main/java/io/github/redstoneparadox/oaktree/client/gui/ControlGui.java:44-101 | edge detection on both buttons (so clicked implies held); over the reversed z list each control ends with the answer of its last mention, true only for the first hit; the sweep precedes the root's pre-draw, draw and resize; no character is pending afterwards; of the listed controls only the mouse flags change |
| ControlGuis.ControlGui.MouseButtonHeld | src/main/java/io/github/redstoneparadox/oaktree/client/gui/ControlGui.java:107-116 | the held flag of "left" or "right", false for any other name |
| ControlGuis.ControlGui.MouseButtonJustClicked | src/main/java/io/github/redstoneparadox/oaktree/client/gui/ControlGui.java:118-127 | the clicked flag of "left" or "right", false for any other name; a just-clicked button is held |
| ControlGuis.ControlGui.GetLastChar | src/main/java/io/github/redstoneparadox/oaktree/client/gui/ControlGui.java:129-131 | empty exactly when no character is pending, otherwise that character |
| ControlGuis.ControlGui.ApplyTheme | src/main/java/io/github/redstoneparadox/oaktree/client/gui/ControlGui.java:149-152 | stores the theme and sets the root up again |
| RootPanels.InteractPass | src/main/java/io/github/redstoneparadox/oaktree/control/RootPanelControl.java:68-78 | one interact call per listed control, from the last to the first; each is told it is captured iff a later control answered true while uncaptured |
| RootPanels.PreparePass | src/main/java/io/github/redstoneparadox/oaktree/control/RootPanelControl.java:80-82 | built one control at a time, the pass has one event per control and the `k`-th prepares control `k` |
| RootPanels.DrawPass | src/main/java/io/github/redstoneparadox/oaktree/control/RootPanelControl.java:84-86 | built one control at a time, the pass has one event per control and the `k`-th draws control `k` with the root's theme |
| RootPanels.TooltipPass | src/main/java/io/github/redstoneparadox/oaktree/control/RootPanelControl.java:88-90 | built one control at a time, the pass has one event per control and the `k`-th draws control `k`'s tooltip |
| RootPanels.CaptureIsSticky | src/main/java/io/github/redstoneparadox/oaktree/control/RootPanelControl.java:73-77 | once a control is told the capture is taken, every control asked after it is told so too |
| RootPanels.IgnoresAnswersAfterCapture | src/main/java/io/github/redstoneparadox/oaktree/control/RootPanelControl.java:73-77 | the pass depends only on the controls' answers while uncaptured |
| RootPanels.PainterTheme.Copy | src/main/java/io/github/redstoneparadox/oaktree/control/RootPanelControl.java:46 | a fresh theme object with the same styles |
| RootPanels.RootPanelControl.constructor | src/main/java/io/github/redstoneparadox/oaktree/control/RootPanelControl.java:23-29 | the default theme, an empty list, dirty |
| RootPanels.RootPanelControl.SetTheme | src/main/java/io/github/redstoneparadox/oaktree/control/RootPanelControl.java:36-38 | replaces the theme |
| RootPanels.RootPanelControl.GetTheme | src/main/java/io/github/redstoneparadox/oaktree/control/RootPanelControl.java:45-47 | a fresh copy, never the stored object, with the same styles |
| RootPanels.RootPanelControl.InteractAll | src/main/java/io/github/redstoneparadox/oaktree/control/RootPanelControl.java:68-78 | the downward loop with its latching `captured` flag makes exactly the calls of `InteractPass` |
| RootPanels.RootPanelControl.PrepareAll | src/main/java/io/github/redstoneparadox/oaktree/control/RootPanelControl.java:80-82 | the forward loop makes exactly the calls of `PreparePass` |
| RootPanels.RootPanelControl.DrawAll | src/main/java/io/github/redstoneparadox/oaktree/control/RootPanelControl.java:84-86 | the forward loop makes exactly the calls of `DrawPass` with the root's theme |
| RootPanels.RootPanelControl.TooltipAll | src/main/java/io/github/redstoneparadox/oaktree/control/RootPanelControl.java:88-90 | the forward loop makes exactly the calls of `TooltipPass` |
| RootPanels.RootPanelControl.Render | src/main/java/io/github/redstoneparadox/oaktree/control/RootPanelControl.java:57-91 | the list is rebuilt from the tree only when dirty, and is clean afterwards; then the interact, prepare, draw and tooltip passes run in that order, each over the whole list |
| RootPanels.RootPanelControl.InteractRoot | src/main/java/io/github/redstoneparadox/oaktree/control/RootPanelControl.java:93-96 | the root never takes the capture |
| RootPanels.RootPanelControl.Close | src/main/java/io/github/redstoneparadox/oaktree/control/RootPanelControl.java:98-100 | exactly one cleanup |
| RootPanels.RootPanelControl.MarkDirty | src/main/java/io/github/redstoneparadox/oaktree/control/RootPanelControl.java:102-105 | the list will be rebuilt on the next render |

## Left out

- `Color` arithmetic: float channel arithmetic, HSV conversion and packing are floating-point numerics. A colour is an opaque record.
- Rendering. `RenderHelper`, `ItemRenderer`, text drawing and texture binding become returned rectangles, returned texture calls or logged events.
- Button text centering (ButtonControl.java:195-199): it depends on font metrics.
- Sound playback, the network stack sync and the tooltip text. They are logged events: `PlaySound`, `SyncStack` and `ShowTooltip`.
- The keyboard hook's registration with the game's keyboard. It is modelled as the method `OnCharTyped`.
- `ItemStack` and `Inventory` internals. A stack is (item, count, maxCount), empty when the item is air or the count is not positive. `areItemsEqual` compares items only. `removeStack` and `split` follow the game's documented behaviour.
- Unseen base classes: `Control`, `Node`, `PanelControl`, `Theme.getStyle`, `zIndex`, `updateTree`, `setup` and `isPointWithin`. What they compute is an input: a style lookup, the listed tree, the hit flag, the base `interact` result or the layout position.
- IEEE float rounding. Float coordinates and percentages are reals.
- NaN or infinite margins and split percentages: not modelled.
- JavaNumerics.Trunc: does not model the saturation of `(int)` casts outside the `int` range.
- `int` overflow: the integers are unbounded.
- SlotControls.SlotControl.PreDraw: requires the slot index to lie inside an existing inventory. An out-of-range index, which throws in the source, is not modelled.
- SlotControls.SlotControl.Draw: requires the slot index to lie inside an existing inventory, as `PreDraw` does.
- SlotControls.SlotControl.PreDraw: the take and insert predicates see only the stack. The slot control passed as their first argument is not modelled.
- TextureStyles.TextureStyle.DrawTiled: requires `TilingTerminates`. On the other inputs the source loops forever, which `TilingDiverges` proves.
- TextureStyles.TextureStyle.Draw: requires `TilingTerminates` when tiled, for the same reason.
- The `(int)` casts of `width` and `height` in `TextureStyle.draw` are identities on `int`.
- The float `minWidth`/`minHeight` of a tile are whole numbers.
- `SplitBoxNode.addLeftChild`/`addRightChild` call the base `Node.setChild`, which is not part of this model. They are modelled as replacing the box's child, as `BoxNode.addChild` does.
- HoverControl's `onMouseEnter`, `onMouseExit` and `whileMouseHovers` setters, and SliderControl's `onSlide` setter. The callbacks they store are modelled only as the logged events they cause.
- ButtonControls.ButtonControl.constructor: the default click sound (the game's button click, ButtonControl.java:31) is the parameter `clickSoundId`, because the game's sound registry is not part of this model.
- SlotControls.SlotControl.constructor: the default highlight style (a translucent grey colour box, SlotControl.java:26) is the parameter `highlight`, because a style is an opaque reference in this model.
- InteractiveControls.InteractiveControl.PreDraw: the true position computed by the base `preDraw` is a parameter.
- `ControlGui.draw`'s calls to the root's `preDraw`/`draw` and to the screen's `setSize` are logged events. The window size and root size are parameters.
- `ControlGui.getScreenHandler`, `getTextRenderer`, `getX`/`getY`/`getTheme` and `close`: accessors or empty, with nothing to state.
- `RootPanelControl.render`'s tree walk (`updateTree`) and each control's answer to `interact` are inputs. The window's scaled size is not modelled.
- `Theme.vanilla` and `Theme.copy`: the theme object is a class with a style map, and a copy is a fresh object with the same map.
- Slider drag percentage: the divisor is the travel (track length minus thumb length), not the track length. A drag to local offset 55 on a 110-long track with a 10-long thumb gives 55 percent, not 50. `DragExample` follows the code.
