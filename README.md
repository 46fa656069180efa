# EDAViewer core in Dafny

EDAViewer shows chip designs read from LEF and DEF files in the browser.
This project models its decision logic and proves properties of it:

- **Placement geometry** (client/utils/transform.js): the eight DEF
  orientations, rectangle normalisation and the design-to-canvas mapping.
- **Layer colours and hatch patterns** (client/utils/textures.js): one
  palette slot and one fill builder per layer.
- **Viewer decisions** (client/components/viewer/DEFViewer.js):
  - which layer groups a pass rebuilds, recreates and re-attaches;
  - the click/double-click dispatcher;
  - the wire-shape filter and its stable sort;
  - the port side and indicator choice;
  - the ellipsis loop for cell labels;
  - the track and gcell line counts;
  - the viewport reset and zoom.
- **Visibility state and lookup tables** (client/components/viewer/Viewer.js).
- **The upload file list** (client/components/common/Upload/Upload.js).
- **The server's design model** (server/goopendb/goopendb.go):
  - the LEF/DEF file-set validation;
  - the library name;
  - reference resolution and its inverse, compaction;
  - geometry copies;
  - the enum names.
- **The components explorer walk** (ComponentsExplorerPanel.js).
- **The wire and layer dialogs** (ComponentDialogGenerator.js).
- **The deployment pieces**: the upload server's request checks and S3 URL
  split (deploy/server/main.go), and the edge function's redirect
  (deploy/edge/index.js).

Each module models one source file or one part of one. Larger files are
split: DEFViewer.js into Scene, ClickDispatch, WireShapes, PortIndicators,
Labels and GridLines; goopendb.go into DbEnums, DbDesign, DbReferences,
DbCompact and DbParse; textures.js into Textures and TexturesProperties.
The shared helpers Index, StableSort, Ascii and Wrappers belong to no
single file. Modules use datatypes and functions where the
source computes values, and methods with loop invariants where the source
loops or updates state in place. The main examples of in-place state are
the viewer's scene object, the upload component and the visibility table.
Each method is proved against a specification function, and the
properties of that function are proved as lemmas.

The outside world is left as parameters:
- the palette library, as a function from a name and a count to colours;
- text measurement, as a width function;
- the timer, as an explicit expiry event;
- URL parsing and file downloads, as given results;
- the order of Go map iteration, as a given permutation of the keys.

## Model

| member | source | states |
|---|---|---|
| Transform.OffsetOf | client/utils/transform.js:73-75 | a missing origin component adds 0, a present one adds its value |
| Transform.TransformPoint | client/utils/transform.js:16-77 | the point is oriented by the switch and then shifted by the origin, each coordinate separately |
| Transform.OrientIsPlacement | client/utils/transform.js:21-72 | each switch case is DEF's placement: Rk is k quarter turns, and MY, MX, MYR90 and MXR90 are a mirror, then a turn where the name says so; any value outside 0..7 leaves the point unchanged |
| Transform.R0Identity | client/utils/transform.js:22-23 | R0 with a zero origin, or with both origin components missing, returns the point unchanged |
| Transform.MissingOriginIsZero | client/utils/transform.js:73-76 | a missing origin component behaves as 0, for every orientation |
| Transform.OutOfRangeIsR0 | client/utils/transform.js:21-72 | an orientation outside 0..7 matches no case and behaves exactly like R0 plus translation |
| Transform.QuarterTurns | client/utils/transform.js:24-45 | R90 maps (x,y) to (-y,x) and R270 maps it to (y,-x); each undoes the other, and two R90s make R180 |
| Transform.R90FourTimes | client/utils/transform.js:24-30 | four R90 turns with a zero origin give back the point |
| Transform.InverseRoundTrip | client/utils/transform.js:21-72 | every orientation is undone by its inverse; R180, MY, MX, MYR90 and MXR90 are their own inverses; MYR90 maps (x,y) to (-y,-x) and MXR90 maps it to (y,x) |
| Transform.TransformRect | client/utils/transform.js:80-112 | the result always has XMin <= XMax and YMin <= YMax, and every other field of the rectangle is copied unchanged |
| Transform.TransformRectExtent | client/utils/transform.js:80-112 | for a normalised rectangle, R0, R180, MX and MY keep the width and height, and R90, R270, MYR90 and MXR90 swap them |
| Transform.TransformRectTurned | client/utils/transform.js:80-112 | a normalised rectangle's edges move to the places the orientation sends them |
| Transform.TurnedRoundTrip | client/utils/transform.js:80-112 | moving the edges by an orientation and then by its inverse restores the rectangle |
| Transform.TransformRectRoundTrip | client/utils/transform.js:80-112 | placing a normalised rectangle and undoing the placement gives back the rectangle |
| Transform.ConvertRectCoordsShape | client/utils/transform.js:4-13 | the width is (XMax-XMin)*sx and the height (YMax-YMin)*sy, independent of the offsets; the canvas y is height - YMax*sy + offsetY, so Y is flipped |
| Transform.ConvertRectCoordsMonotonic | client/utils/transform.js:4-13 | with positive scale factors, a normalised rectangle has a non-negative canvas width, and the canvas width grows strictly with the design width |
| Transform.FitToDie | client/components/viewer/DEFViewer.js:917-926 | the scale factors exist exactly when the die has non-zero extent in both directions |
| Transform.FitToDieFrames | client/components/viewer/DEFViewer.js:917-926 | with the fitted configuration, the die lands at (stroke, stroke) with the canvas size less twice the stroke |
| Textures.Package | client/utils/textures.js:27-35 | without a renderer the builder returns the picture, angle and alpha; with one it returns a texture of the same picture and alpha |
| Textures.HatchAttributes | client/utils/textures.js:4-36 | alpha defaults to 1.0; the angle is kept; simple mode gives a 1x1 single-colour picture; otherwise the tile is endX-startX wide and 2*lineThickness high, with a band of the colour above a band of the alternate colour (white by default) |
| Textures.HatchTileWidths | client/utils/textures.js:38-116 | the right, left and vertical tiles are max(width, height) wide, and the horizontal tile is 0 wide |
| Textures.HatchWrappersDropAlternate | client/utils/textures.js:38-116 | the four wrappers forward only colour, thickness and alpha, so every hatch tile is the colour over a white band whatever alternate colour the caller names |
| Textures.SquareGrid | client/utils/textures.js:125-133 | the grid has nine cells |
| Textures.GridCell | client/utils/textures.js:125-133 | cell 3*i+j is at column i, row j, at (i*size, j*size) |
| Textures.SquareGridCells | client/utils/textures.js:125-133 | only the centre cell (i=1, j=1) has the layer colour; the others have the alternate colour, and all cells are size by size |
| Textures.SquareHatchAttributes | client/utils/textures.js:118-153 | the nested loop builds the 3x3 grid, 3*squareSize on a side; simple mode gives a 1x1 single-colour picture; alpha defaults to 1.0; there is no angle |
| Textures.CountOf | client/utils/textures.js:162-196 | a type's layer count never exceeds the number of layers |
| Textures.CountOfPositive | client/utils/textures.js:224-259 | the layer being coloured counts towards its own type, so `ind % count` never divides by zero |
| Textures.MaxTypeCount | client/utils/textures.js:168-195 | every type except Masterslice has at most maxLayerTypeCount layers |
| Textures.MastersliceKeepsMax | client/utils/textures.js:184-185 | a Masterslice layer never raises maxLayerTypeCount |
| Textures.LastRoutingBefore | client/utils/textures.js:214-235 | the remembered left-hatch routing layer is an earlier routing layer; there is one whenever the toggle is set |
| Textures.Entry | client/utils/textures.js:216-261 | a layer gets an entry exactly when its Type is one of the six LayerType values |
| Textures.CountLayerTypes | client/utils/textures.js:162-196 | the counting loop ends with each type's layer count and the largest count over the non-Masterslice types |
| Textures.CountStep | client/utils/textures.js:178-195 | one more layer counts once, under its own type |
| Textures.MaxStep | client/utils/textures.js:178-195 | after one more layer, the running maximum is the old maximum or that type's new count, and Masterslice leaves it alone |
| Textures.NextEntry | client/utils/textures.js:216-261 | one step of the colouring loop writes the layer's entry; the toggle records whether an odd number of routing layers have been seen, and the remembered colour is the last left-hatch routing colour |
| Textures.GenerateMetalLayerColors | client/utils/textures.js:155-264 | the two loops produce the table the specification function defines |
| TexturesProperties.OddRoutingBetween | client/utils/textures.js:214-235 | from one routing layer to the next one, the toggle flips |
| TexturesProperties.ColorsUpToKeys | client/utils/textures.js:216-262 | the table has exactly one key per ID of a layer of a known type |
| TexturesProperties.ColorsUpToValue | client/utils/textures.js:216-262 | a known-type layer keeps its own entry when no later known-type layer has the same ID |
| TexturesProperties.MetalLayerColorsKeys | client/utils/textures.js:216-262 | every layer whose Type is one of the six gets an entry under its ID, and no other ID gets one |
| TexturesProperties.MetalLayerColorsValue | client/utils/textures.js:216-262 | the entry under a layer's ID is the one computed for that layer, unless a later known-type layer has the same ID |
| TexturesProperties.EntryShape | client/utils/textures.js:224-260 | each entry's colour is "#" plus a palette colour, and the palette index stays in range; the patterns are: Routing left or right hatch, Cut square, Masterslice right hatch, Overlap vertical, Implant horizontal, None vertical |
| TexturesProperties.RoutingAlternates | client/utils/textures.js:214-235 | the first routing layer takes the left hatch, and two routing layers with none between them take opposite hatches |
| TexturesProperties.RightHatchColor | client/utils/textures.js:217-233 | with sameColorConsecutiveLayers, a right-hatch routing layer shows the colour of the left-hatch routing layer before it; otherwise it uses palette[ind % routingLayerCount] |
| TexturesProperties.LastRoutingIsLatest | client/utils/textures.js:214-235 | the remembered routing layer is the latest routing layer before this one |
| ClickDispatch.Step | client/components/viewer/DEFViewer.js:37-54 | an activation with a click pending clears it and calls onDoubleClick only, never onClick; an activation at rest marks a click pending, arms the timeout and calls onClick only; an absent callback is skipped; the timeout expiring clears the pending click and calls nothing; a click is pending exactly while a timeout is armed |
| ClickDispatch.Trace | client/components/viewer/DEFViewer.js:37-54 | a run of events makes one callback entry per event; an expiry invokes no callback, and onClick or onDoubleClick is invoked only when it is installed |
| ClickDispatch.ClicksPairUp | client/components/viewer/DEFViewer.js:37-54 | over any run, the double clicks plus a click left pending at the end never outnumber the clicks plus a click pending at the start |
| ClickDispatch.DoubleClicksNeverOutnumber | client/components/viewer/DEFViewer.js:37-54 | starting from rest, there are never more double clicks than clicks |
| ClickDispatch.Gestures | client/components/viewer/DEFViewer.js:37-54 | one activation and then the timeout is one click; two activations within the timeout are a click and then a double click; both leave the shape at rest; without onDoubleClick the second activation calls nothing |
| ClickDispatch.Clickable.Install | client/components/viewer/DEFViewer.js:33-36 | installing the handlers leaves the shape with no click pending and no timeout armed |
| ClickDispatch.Clickable.Click | client/components/viewer/DEFViewer.js:37-54 | the click handler moves the shape's fields exactly as Step does and returns the callback Step calls |
| ClickDispatch.Clickable.Expire | client/components/viewer/DEFViewer.js:46-49 | the timeout clears the pending flag exactly as Step does |
| Scene.PassFlags | client/components/viewer/DEFViewer.js:757-846 | a group is rebuilt on the first run or when one of its flags is dirty: rows by rows; cells by cells or cellShapes; wires by wires, vias or specialWires; gcells by gcells; tracks by tracks; ports by ports or specialWires. The chip is never rebuilt. A rebuilt group is recreated when rows, cells, gcells or tracks is visible for its own group, when wires, vias or specialWires is visible for wires, and when ports or specialWires is visible for ports |
| Scene.DirtyFlagsDecide | client/components/viewer/DEFViewer.js:757-846 | on a live viewport, after onResetDirtyLayers no group is rebuilt; after onSetDirtyLayers every group but the chip is |
| Scene.ToggleRebuildsDependents | client/components/viewer/DEFViewer.js:757-846 | toggling one entry on a clean state makes the next pass rebuild exactly the groups that depend on that entry |
| Scene.AnyRebuilds | client/components/viewer/DEFViewer.js:757-846 | some group is rebuilt exactly when one of the six block conditions holds, and each condition sets runClearLayers |
| Scene.FlagOutcomes | client/components/viewer/DEFViewer.js:757-846 | after the blocks, each group's slot is its old container when the group is not rebuilt; otherwise it holds a new container when the group is shown and is empty when it is not; the chip's slot is filled once and then kept |
| Scene.PassStep | client/components/viewer/DEFViewer.js:757-864 | the flags tested by the front and back blocks give every slot its outcome, and runClearLayers is set exactly when some group is rebuilt |
| Scene.AllGroupsListed | client/components/viewer/DEFViewer.js:1008-1016 | the groups resetViewport lists are all seven, so every slot ends up empty |
| Scene.EmptyAttachment | client/components/viewer/DEFViewer.js:736-751 | a new viewport holds only its background, when it has one, and no group container |
| Scene.ZoomedIn | client/components/viewer/DEFViewer.js:1064-1071 | with a step above 1, zooming in makes a positive scale larger |
| Scene.ZoomedOut | client/components/viewer/DEFViewer.js:1072-1079 | zooming in from the zoomed-out scale gives back the scale |
| Scene.ZoomRoundTrip | client/components/viewer/DEFViewer.js:1064-1079 | zoomOut undoes zoomIn and zoomIn undoes zoomOut |
| Scene.DesignApp.constructor | client/components/viewer/DEFViewer.js:938-941 | the app reference starts with no application, no viewport and no containers |
| Scene.DesignApp.DestroyGroup | client/components/viewer/DEFViewer.js:759-763 | destroying a group's container takes it out of the viewport's children and empties its slot; nothing else changes |
| Scene.DesignApp.CreateGroup | client/components/viewer/DEFViewer.js:764-766 | a new container fills the empty slot; it is not attached until the closing loop |
| Scene.DesignApp.Block | client/components/viewer/DEFViewer.js:757-767 | one block runs exactly when its condition holds; it changes only its own slot: emptied, then refilled when the group is shown |
| Scene.DesignApp.Reattach | client/components/viewer/DEFViewer.js:847-860 | afterwards the viewport's children are the background (when there is one) and then every existing container, in the fixed order rows, cells, wires, gcells, tracks, chip, ports |
| Scene.DesignApp.ResetViewport | client/components/viewer/DEFViewer.js:1003-1027 | with no viewport nothing changes and no callback is called, so a second reset is a no-op; otherwise all seven slots are emptied and the app destroyed, and the selection is cleared and onResetDirtyLayers called exactly when clearState is set |
| Scene.DesignApp.ZoomIn | client/components/viewer/DEFViewer.js:1064-1071 | with a viewport the scale is multiplied by scaleStepFactor; without one nothing changes |
| Scene.DesignApp.ZoomOut | client/components/viewer/DEFViewer.js:1072-1079 | with a viewport the scale is divided by scaleStepFactor; without one nothing changes |
| Scene.DesignApp.Fit | client/components/viewer/DEFViewer.js:1080-1085 | with a viewport the scale becomes 1 and the position (0, 0); without one nothing changes |
| Scene.DesignApp.Prepare | client/components/viewer/DEFViewer.js:719-755 | a viewport whose size no longer matches is reset without clearing state; the run counts as first exactly when there was no application or the size changed, and then the viewport starts empty at scale 1, with a background unless it is transparent; a run that is not first keeps the zoom, the pan and the background |
| Scene.DesignApp.Create | client/components/viewer/DEFViewer.js:728-754 | the new application and viewport have the configured size, scale 1, no containers, and a background exactly when the background is not transparent |
| Scene.DesignApp.FrontBlocks | client/components/viewer/DEFViewer.js:757-802 | the rows, cells and wires blocks each change only their own slot, as their conditions say |
| Scene.DesignApp.BackBlocks | client/components/viewer/DEFViewer.js:803-846 | the gcells and tracks blocks, the chip outline when it is absent, and the ports block each change only their own slot |
| Scene.DesignApp.Pass | client/components/viewer/DEFViewer.js:757-846 | after the blocks, every group's slot has its outcome under the rebuild rule; the chip outline exists and is kept once made; runClearLayers is set exactly when some group was rebuilt |
| Scene.DesignApp.Render | client/components/viewer/DEFViewer.js:711-865 | without a canvas no field changes; otherwise the viewport has the configured size, every group gets its outcome, the children are re-stacked in the fixed order, and onResetDirtyLayers is called exactly when some group was rebuilt; a re-render at an unchanged size keeps the zoom, the pan and the background |
| WireShapes.Items | client/components/viewer/DEFViewer.js:241-249 | an ordinary net's items are its edges; a special net's items are the boxes of its special geometries |
| WireShapes.Boxes | client/components/viewer/DEFViewer.js:245-248 | gathering a special net's boxes throws exactly when one of its geometries is missing |
| WireShapes.ViaLayer | client/components/viewer/DEFViewer.js:257-261 | a via box is drawn on its via's cut layer, else its bottom layer, else its top layer; an unknown via throws |
| WireShapes.RawLayer | client/components/viewer/DEFViewer.js:253-264 | an ordinary net's edge uses its own layer; a special box with neither a layer nor a via keeps -1 |
| WireShapes.LayerId | client/components/viewer/DEFViewer.js:265-267 | a layer ID of -1 becomes 1, and any other ID is kept |
| WireShapes.Place | client/components/viewer/DEFViewer.js:251-368 | a drawn item carries its net, its position, whether it is a via, and a coloured layer other than -1; an item is hidden exactly when it is a via while vias are hidden, or a segment while wires are hidden; the colour lookup comes first, so an uncoloured layer throws even when the item would be hidden |
| WireShapes.NetShapes | client/components/viewer/DEFViewer.js:234-240 | an unrouted net gives no shapes, and neither does a special net while special wires are hidden |
| WireShapes.Collected | client/components/viewer/DEFViewer.js:234-369 | every collected shape belongs to one of the nets |
| WireShapes.Rank | client/components/viewer/DEFViewer.js:370-374 | the sort key is the layer ID when sortLayerBottomToTop is set and its negation otherwise |
| WireShapes.ItemShapesOf | client/components/viewer/DEFViewer.js:251-368 | the shapes of a net all carry the net's position, a coloured layer other than -1, and a kind that is shown |
| WireShapes.NetShapesOf | client/components/viewer/DEFViewer.js:234-369 | the shapes of a net come only from a routed net, and from a special one only while special wires are shown |
| WireShapes.CollectedShapesAllowed | client/components/viewer/DEFViewer.js:234-369 | every shape comes from a routed net; special nets only while special wires are shown; vias only while vias are shown; segments only while wires are shown; every shape has a coloured layer other than -1 |
| WireShapes.AllItemsDrawn | client/components/viewer/DEFViewer.js:251-368 | with vias and wires shown, a net that does not throw gives one shape per item, in item order |
| WireShapes.OrdinaryNetShapes | client/components/viewer/DEFViewer.js:262-276 | an ordinary net on coloured layers gives one shape per edge, on the edge's layer, which is a via exactly when the edge has one |
| WireShapes.Sorted | client/components/viewer/DEFViewer.js:370-377 | the shapes added to the container are the collected shapes rearranged (the same multiset), sorted by layer ID, ascending exactly when sortLayerBottomToTop is set |
| WireShapes.SortedKeepsLayerOrder | client/components/viewer/DEFViewer.js:370-374 | shapes on the same layer keep the order they were collected in, net by net and item by item |
| WireShapes.GatherBoxes | client/components/viewer/DEFViewer.js:245-248 | the loop gathers the boxes Boxes defines |
| WireShapes.NetPass | client/components/viewer/DEFViewer.js:234-369 | the per-net loop pushes the shapes NetShapes defines |
| WireShapes.ItemsPass | client/components/viewer/DEFViewer.js:251-368 | the per-item loop pushes the shapes ItemShapes defines, stopping at the first throw |
| WireShapes.CreateWiresContainer | client/components/viewer/DEFViewer.js:232-378 | createWiresContainer adds the sorted shapes |
| StableSort.Insert | client/components/viewer/DEFViewer.js:370-374 | inserting one element lengthens the list by one |
| StableSort.InsertMultiset | client/components/viewer/DEFViewer.js:370-374 | insertion adds the element and loses nothing |
| StableSort.InsertSorted | client/components/viewer/DEFViewer.js:370-374 | insertion into a sorted list keeps it sorted |
| StableSort.SortBy | client/components/viewer/DEFViewer.js:370-374 | the sort returns a sorted permutation of its input |
| StableSort.SortedByPairs | client/components/viewer/DEFViewer.js:370-374 | in a sorted list, any element ranks no higher than any later element |
| StableSort.SortByStable | client/components/viewer/DEFViewer.js:370-374 | the sort is stable: the elements of any one rank keep their relative order |
| StableSort.InsertWithRank | client/components/viewer/DEFViewer.js:370-374 | inserting into a sorted list puts the element after every element of its own rank |
| PortIndicators.NearestSide | client/components/viewer/DEFViewer.js:401-416 | the chosen side is at the smallest distance among \|x\|, \|x-stageWidth\|, \|y\| and \|y-stageHeight\|; every side tried earlier (Left, then Right, Top, Bottom) is strictly farther, because the comparisons are strict |
| PortIndicators.Arrows | client/components/viewer/DEFViewer.js:437-557 | no triangle when indicators are disabled; an Input port points inward and an Output port outward; an InOut port gets both; any other direction, FeedThru included, gets none |
| PortIndicators.InwardOppositeOutward | client/components/viewer/DEFViewer.js:437-513 | the inward and outward triangles of a side point opposite ways |
| PortIndicators.BoxShape | client/components/viewer/DEFViewer.js:400-561 | a box's shape carries its port and its position among the port's boxes |
| PortIndicators.BoxShapes | client/components/viewer/DEFViewer.js:400-561 | one shape per box, in box order |
| PortIndicators.PortShapes | client/components/viewer/DEFViewer.js:393-398 | a special port while special wires are hidden, or an ordinary port while ports are hidden, draws nothing |
| PortIndicators.PortShapesAllowed | client/components/viewer/DEFViewer.js:389-563 | every drawn box belongs to a shown port and carries the triangles of its port's direction on its own side |
| PortIndicators.BoxShapesArrows | client/components/viewer/DEFViewer.js:437-557 | each box of a port carries the triangles of the port's direction |
| PortIndicators.BoxShapesSides | client/components/viewer/DEFViewer.js:401-416 | each box lies on the nearest side to its canvas corner |
| PortIndicators.PortPass | client/components/viewer/DEFViewer.js:389-563 | the per-port loop draws the shapes PortShapes defines |
| PortIndicators.CreatePortsContainer | client/components/viewer/DEFViewer.js:380-566 | createPortsContainer draws every box of every shown port, in order, and throws on a missing geometry |
| Labels.Shortened | client/components/viewer/DEFViewer.js:194-201 | a shortened label is "..." followed by the name from position k |
| Labels.TrimFrom | client/components/viewer/DEFViewer.js:196-206 | the loop stops at the first position from k whose label fits, or at the name's length; no earlier position fits |
| Labels.LabelShape | client/components/viewer/DEFViewer.js:190-207 | the label is the whole name when that fits; otherwise it is "..." plus the name from position k, where 0 <= k <= the name's length, k is the first position whose label fits, and at k = the name's length the label is "..." alone |
| Labels.LabelLength | client/components/viewer/DEFViewer.js:190-207 | the label is never longer than the name plus the ellipsis |
| Labels.Ellipsize | client/components/viewer/DEFViewer.js:190-207 | the measuring loop produces the label LabelShape describes |
| GridLines.AxisLines | client/components/viewer/DEFViewer.js:580-609 | one line per grid value of the axis, in grid order, each with the track's layer |
| GridLines.LinesOfTracks | client/components/viewer/DEFViewer.js:579-610 | the number of lines along an axis is the total number of grid values along that axis; each line carries its own track's layer and a grid value of that track |
| GridLines.AxisMember | client/components/viewer/DEFViewer.js:580-609 | a line of one track's axis carries that track, its layer and one of its grid values |
| GridLines.LinesOfTracksComplete | client/components/viewer/DEFViewer.js:579-610 | every grid value of every track has its line |
| GridLines.TrackLines | client/components/viewer/DEFViewer.js:611-622 | the lines are drawn vertical first, then horizontal, and drawing fails exactly when some line has no layer or an uncoloured one |
| GridLines.LayerlessTrack | client/components/viewer/DEFViewer.js:592-607 | a track without a layer makes the pass throw once it has a GridX value |
| GridLines.PushAxis | client/components/viewer/DEFViewer.js:580-609 | the inner loop appends the axis's lines, and throws on a track with no layer that has a grid value |
| GridLines.CreateTracksContainer | client/components/viewer/DEFViewer.js:568-625 | createTracksContainer produces the lines TrackLines defines |
| GridLines.AllColored | client/components/viewer/DEFViewer.js:611-622 | the drawing loop succeeds exactly when every line has a coloured layer |
| GridLines.PatternLineCount | client/components/viewer/DEFViewer.js:661-662 | a pattern draws LineCount - 1 lines, and none when the count is at most 1 or missing |
| GridLines.PatternLines | client/components/viewer/DEFViewer.js:662-675 | a pattern's lines are numbered 0 to count - 1 |
| GridLines.AxisGCellLinesCount | client/components/viewer/DEFViewer.js:657-697 | the number of lines of an axis is the sum of LineCount - 1 over its patterns, and every line is at a position its pattern has |
| GridLines.PushPatterns | client/components/viewer/DEFViewer.js:657-697 | the nested loops produce the lines of every pattern of the axis |
| GridLines.CreateGCellsContainer | client/components/viewer/DEFViewer.js:646-710 | createGCellsContainer draws nothing without gcells; otherwise it draws the vertical lines, then the horizontal ones |
| Visibility.DefaultLayerVisibility | client/utils/defaults.js:10-49 | the panel starts with the nine layer groups, none of them dirty |
| Visibility.WithDirty | client/components/viewer/Viewer.js:126-143 | every entry gets the given dirty flag and keeps its key and visibility |
| Visibility.WithDirtyAbsorbs | client/components/viewer/Viewer.js:126-143 | resetting or setting all dirty flags twice equals doing it once with the last flag |
| Visibility.LayerVisibility.constructor | client/components/viewer/Viewer.js:48-49 | the visibility state starts as DefaultLayerVisibility |
| Visibility.LayerVisibility.ChangeVisibility | client/components/viewer/Viewer.js:116-125 | a known layer gets the checked visibility and is marked dirty, all others untouched; an unknown name changes nothing |
| Visibility.LayerVisibility.SetAllDirty | client/components/viewer/Viewer.js:126-143 | the loop over the keys sets every dirty flag to the given value |
| Visibility.LayerVisibility.ResetDirtyLayers | client/components/viewer/Viewer.js:126-134 | onResetDirtyLayers clears every dirty flag and keeps visibility |
| Visibility.LayerVisibility.SetDirtyLayers | client/components/viewer/Viewer.js:135-143 | onSetDirtyLayers sets every dirty flag and keeps visibility |
| Visibility.BuildViaMap | client/components/viewer/Viewer.js:84-90 | the via map indexes routing vias, then via definitions, by ID |
| Visibility.ViaDefinitionsWin | client/components/viewer/Viewer.js:84-90 | a via definition wins over a routing via with the same ID; an ID only routing vias have maps to one of them |
| Visibility.BuildNames | client/components/viewer/Viewer.js:93-114 | the loop over an enumeration builds NamesOf of it |
| Visibility.NamesOf | client/components/viewer/Viewer.js:93-114 | the names table is defined exactly on the enumeration's values |
| Visibility.NamesStep | client/components/viewer/Viewer.js:93-114 | each pair overwrites the name of its value |
| Visibility.NamesInvert | client/components/viewer/Viewer.js:93-114 | for an enumeration with distinct values, looking up a key's value gives the key back |
| Visibility.ViewerEnumsInjective | client/utils/enums.js:2-40 | Orientation, MasterType, LayerType, PortDirection and Direction all have distinct values |
| Upload.LowerEndsWithMatch | client/components/common/Upload/Upload.js:62-63 | the back-to-front comparison holds exactly when the last characters of the name, lower-cased, are the extension |
| Upload.LowerEndsWithIsEndsWith | client/components/common/Upload/Upload.js:62-78 | the comparison is endsWith on the lower-cased name |
| Upload.SuffixMatchTail | client/components/common/Upload/Upload.js:62-78 | the suffix comparison reads the lower-cased tail of the name |
| Upload.ClassifyIgnoresCase | client/components/common/Upload/Upload.js:62 | a file's type does not depend on the case of its name |
| Upload.AddFrom | client/components/common/Upload/Upload.js:61-103 | an accepted rest of a batch adds one entry and one id per file |
| Upload.NewEntries | client/components/common/Upload/Upload.js:63-89 | a batch's entries carry consecutive ids and the file names, DEF for .def and LEF (library on) for .lef |
| Upload.FirstLefName | client/components/common/Upload/Upload.js:78-89 | the position of the batch's first .lef, or none when it has none |
| Upload.AddFromRejects | client/components/common/Upload/Upload.js:61-103 | the loop fails exactly on a non-DEF/LEF file, a second DEF, or a list above ten files |
| Upload.AddFromAppends | client/components/common/Upload/Upload.js:61-103 | an accepted batch appends NewEntries of its names |
| Upload.AddFromStep | client/components/common/Upload/Upload.js:61-103 | an accepted batch goes on from the state after its first file |
| Upload.NewEntriesHead | client/components/common/Upload/Upload.js:63-89 | the entries of a batch are the first file's entry, then the rest's |
| Upload.AddFromTech | client/components/common/Upload/Upload.js:78-89 | an existing technology LEF is kept; otherwise the batch's first LEF becomes the technology file |
| Upload.AddFilesOutcome | client/components/common/Upload/Upload.js:46-107 | onFilesAdded rejects a batch exactly on a bad type, a second DEF or more than ten files, and otherwise appends the batch with fresh ids and picks the technology file |
| Upload.DefCountBounds | client/components/common/Upload/Upload.js:63-77 | every .def counts towards the DEF count, and two of them make it at least two |
| Upload.AppendIds | client/components/common/Upload/Upload.js:102 | appending consecutive fresh ids keeps the ids increasing and below nextID |
| Upload.AppendDefs | client/components/common/Upload/Upload.js:63-77 | appending keeps at most one DEF when the list's DEF excludes new ones |
| Upload.AddFilesWellformed | client/components/common/Upload/Upload.js:46-107 | onFilesAdded keeps ids increasing, below nextID, and at most one DEF |
| Upload.LastFlags | client/components/common/Upload/Upload.js:114-137 | the list's flags are those of its prefix joined with the last entry's |
| Upload.StartScanFinds | client/components/common/Upload/Upload.js:114-137 | on a well-formed list the scan finds a DEF, the technology file and a library exactly when the list has them |
| Upload.StartAlert | client/components/common/Upload/Upload.js:138-151 | no alert exactly when all three are present; otherwise the alert of the first missing one |
| Upload.Remove | client/components/common/Upload/Upload.js:195-203 | the list without the entry at ind; past the end the list is unchanged |
| Upload.FirstLef | client/components/common/Upload/Upload.js:204-212 | the position of the list's first LEF, or none |
| Upload.DeleteWellformed | client/components/common/Upload/Upload.js:195-223 | a delete keeps the list well-formed, keeps a technology id still present and otherwise picks a LEF of the list, or -1 when there is none |
| Upload.RemoveIds | client/components/common/Upload/Upload.js:195-203 | removing an entry keeps the ids increasing and below nextID |
| Upload.RemoveDefs | client/components/common/Upload/Upload.js:195-203 | removing an entry keeps at most one DEF |
| Upload.SetTech | client/components/common/Upload/Upload.js:175-182 | checking makes the file the technology file (techID becomes its id, the list and nextID unchanged); unchecking changes nothing |
| Upload.SetLibrary | client/components/common/Upload/Upload.js:183-194 | the entry at ind gets the library flag and the others are unchanged; past the end the entry is appended |
| Upload.SetLibraryWellformed | client/components/common/Upload/Upload.js:183-194 | switching a listed entry's library flag keeps the list well-formed |
| Upload.Prescan | client/components/common/Upload/Upload.js:51-60 | the scan reports whether the list has a DEF and a LEF with the technology id |
| Upload.AddBatch | client/components/common/Upload/Upload.js:61-103 | the loop over a batch computes AddFrom |
| Upload.ScanFiles | client/components/common/Upload/Upload.js:114-137 | the forEach computes StartScan |
| Upload.NewTechID | client/components/common/Upload/Upload.js:204-220 | the loop computes the technology id after a delete |
| Upload.Uploader.constructor | client/components/common/Upload/Upload.js:22-28 | the form starts empty, with nextID 0 and technology id -1 |
| Upload.Uploader.FilesAdded | client/components/common/Upload/Upload.js:46-107 | a rejected batch leaves the state and shows its alert; an accepted one becomes AddFiles of the state |
| Upload.Uploader.UploadStart | client/components/common/Upload/Upload.js:108-174 | the upload starts exactly when the scan finds a DEF, the technology file and a library, which on a well-formed list is when the list has them |
| Upload.Uploader.SetTechFile | client/components/common/Upload/Upload.js:175-182 | the new state is SetTech of the old |
| Upload.Uploader.SetLibraryFile | client/components/common/Upload/Upload.js:183-194 | the new state is SetLibrary of the old |
| Upload.Uploader.FileDelete | client/components/common/Upload/Upload.js:195-223 | the new state is Delete of the old |
| Index.IndexBy | client/components/viewer/Viewer.js:84-90 | the table's keys are exactly the keys of the list's elements, and each is bound to an element of the list |
| Index.IndexByLast | server/goopendb/goopendb.go:731-751 | the last element carrying a key is the one the table holds for it |
| Index.IndexByFinds | server/goopendb/goopendb.go:731-751 | what the table holds for a key is the last element of the list carrying it |
| Index.IndexByInjective | client/components/viewer/Viewer.js:93-114 | with distinct keys every element is found under its own key |
| Index.IndexByAppend | client/components/viewer/Viewer.js:84-90 | filling one table from two lists in turn is the union in which the second list wins |
| Index.BuildIndex | server/goopendb/goopendb.go:731-751 | the loop that fills a table by key computes IndexBy |
| Ascii.LowerChar | client/components/common/Upload/Upload.js:62 | upper-case ASCII letters move down by 32, every other character is kept, and the result is never upper-case |
| Ascii.ToLower | deploy/server/main.go:261 | lower-casing keeps the length of the name |
| Ascii.ToLowerIdempotent | deploy/server/main.go:261 | lower-casing twice is lower-casing once |
| Ascii.EndsWithLower | deploy/server/main.go:261-265 | a lower-case suffix of the name is found in the lower-cased name |
| Ascii.ToLowerSuffix | client/components/common/Upload/Upload.js:62-78 | lower-casing commutes with taking a suffix |
| DbEnums.Lookup | server/goopendb/goopendb.go:25-309 | reading a name back: the first position holding it, or none when no position does |
| DbEnums.NameOfRoundTrip | server/goopendb/goopendb.go:25-309 | with distinct names, the name of a value reads back as that value, and a value outside the enum reads back as the fallback |
| DbEnums.OrientationString | server/goopendb/goopendb.go:39-59 | the corrected Orientation.String(): each constant prints as its DEF keyword, anything else as Unknown |
| DbEnums.OrientationR90Misnamed | server/goopendb/goopendb.go:39-59 | as written, R90 prints as "90", which is no orientation keyword |
| DbEnums.OrientationStringRoundTrip | server/goopendb/goopendb.go:25-59 | corrected, every orientation prints as a keyword that reads back as itself |
| DbEnums.SignalTypeString | server/goopendb/goopendb.go:193-227 | the corrected SignalType.String(): each constant prints as its DEF keyword, anything else as Unknown |
| DbEnums.SignalTypeScanMisnamed | server/goopendb/goopendb.go:207-227 | as written, SCAN prints as "SCA", which is no signal-type keyword |
| DbEnums.SignalTypeStringRoundTrip | server/goopendb/goopendb.go:193-227 | corrected, every signal type prints as a keyword that reads back as itself |
| DbEnums.IoTypeRoundTrip | server/goopendb/goopendb.go:62-84 | every IoType prints as a name that reads back as itself; other values print as Unknown |
| DbEnums.EdgeTypeRoundTrip | server/goopendb/goopendb.go:140-165 | every EdgeType prints as a name that reads back as itself; other values print as Unknown |
| DbEnums.MasterTypeRoundTrip | server/goopendb/goopendb.go:168-190 | every MasterType prints as a name that reads back as itself; other values print as Unknown |
| DbEnums.WireTypeRoundTrip | server/goopendb/goopendb.go:230-258 | every WireType prints as a name that reads back as itself; other values print as Unknown |
| DbEnums.WireShapeTypeRoundTrip | server/goopendb/goopendb.go:261-308 | every WireShapeType prints as a name that reads back as itself; other values print as Unknown |
| DbEnums.WireShapeTypeNamesDistinct | server/goopendb/goopendb.go:279-308 | the WireShapeType names are distinct and none of them is Unknown |
| DbEnums.LayerTypeRoundTrip | server/goopendb/goopendb.go:87-115 | every LayerType prints as a name that reads back as itself; any other value prints as NONE |
| DbEnums.DirectionRoundTrip | server/goopendb/goopendb.go:118-137 | every Direction prints as a name that reads back as itself; any other value prints as NONE |
| DbDesign.StubOf | server/goopendb/goopendb.go:806-1112 | the reference CompactDesign writes: nil stays nil, any other becomes an ID-only stub with the same ID |
| DbDesign.GeometryStubs | server/goopendb/goopendb.go:806-1112 | every geometry becomes its ID-only stub, in order |
| DbDesign.GeometryCopy | server/goopendb/goopendb.go:365-389 | the copy has as many boxes, each the box's copy with Layer and Via stubbed |
| DbDesign.GeometryCopyKeepsBoxes | server/goopendb/goopendb.go:343-389 | Geometry.Copy keeps the ID, the completeness flag and every box's ID, coordinates and shape type |
| DbDesign.GeometryCopyIdempotent | server/goopendb/goopendb.go:365-389 | copying a copy changes nothing |
| DbDesign.CopyGeometry | server/goopendb/goopendb.go:365-389 | the loop of Geometry.Copy computes GeometryCopy |
| DbDesign.MapRefs | server/goopendb/goopendb.go:753-760 | rebuilding a pointer list panics exactly when it holds a nil, and otherwise maps each element |
| DbDesign.RebuildList | server/goopendb/goopendb.go:753-760 | the append loop computes MapRefs |
| DbDesign.RewriteLast | server/goopendb/goopendb.go:753-804 | a loop over a table's values fails exactly when the last object filed under some ID fails, and otherwise rewrites exactly those objects |
| DbDesign.RewriteLoop | server/goopendb/goopendb.go:753-804 | the loop computes RewriteLast |
| DbDesign.AllLast | server/goopendb/goopendb.go:731-751 | with no repeated ID every element is the one filed under its ID |
| DbReferences.Entries | server/goopendb/goopendb.go:731-751 | a filling loop files each element's ID with its place |
| DbReferences.ResolvedPins | server/goopendb/goopendb.go:762-769 | the pin loop never panics and keeps every instance and block pin |
| DbReferences.ResolvedLayers | server/goopendb/goopendb.go:787-794 | the layer loop never panics and keeps every layer |
| DbReferences.ResolvedVias | server/goopendb/goopendb.go:795-804 | the via loop never panics and keeps every routing via and via definition |
| DbReferences.EntriesTable | server/goopendb/goopendb.go:731-751 | a table filled from one list holds, under an ID, the place of the last element with it |
| DbReferences.EntriesTableAppend | server/goopendb/goopendb.go:740-751 | a table filled from two lists holds the place in the second list when it has the ID, else in the first |
| DbReferences.TableMeaning | server/goopendb/goopendb.go:726-751 | every table holds exactly the IDs of its kind, each at the place of the object filed under it |
| DbReferences.IdsAreKeys | server/goopendb/goopendb.go:726-751 | a table's keys are exactly the IDs of its lists |
| DbReferences.ListIdsAreKeys | server/goopendb/goopendb.go:731-751 | a table filled from one list has exactly that list's IDs as keys |
| DbReferences.ViaDefinitionsWin | server/goopendb/goopendb.go:743-748 | a via definition wins over a routing via with the same ID |
| DbReferences.BlockPinsWin | server/goopendb/goopendb.go:737-742 | a block pin wins over an instance pin with the same ID |
| DbReferences.ResolveMeaning | server/goopendb/goopendb.go:762-804 | a resolved pointer is nil for nil or an unknown ID, and otherwise points at the object filed under the ID |
| DbReferences.BuildReferencesPanics | server/goopendb/goopendb.go:753-786 | buildReferences panics exactly when an instance or net the tables hold has a nil in its pin list |
| DbReferences.BuildReferencesParts | server/goopendb/goopendb.go:725-805 | the result is the rewritten instances, pins, nets, layers and vias put back in their lists |
| DbReferences.BuildReferencesKeepsRest | server/goopendb/goopendb.go:725-805 | nothing outside those lists changes |
| DbReferences.ResolvedInstancesMeaning | server/goopendb/goopendb.go:753-760 | each instance the table holds has every pin replaced by the pin filed under its ID; the others are unchanged |
| DbReferences.ResolvedNetsMeaning | server/goopendb/goopendb.go:770-786 | each net the table holds has its pins, and its edges' vias and layers, resolved; the others are unchanged |
| DbReferences.ResolvedPinsMeaning | server/goopendb/goopendb.go:762-769 | each pin the table holds has its instance and net resolved; the others are unchanged |
| DbReferences.ResolvedLayersMeaning | server/goopendb/goopendb.go:787-794 | each layer the table holds has its upper and lower layer resolved; the others are unchanged |
| DbReferences.ResolvedViasMeaning | server/goopendb/goopendb.go:795-804 | each via the table holds has its top, cut and bottom layer resolved; the others are unchanged |
| DbReferences.BuildReferencesLoops | server/goopendb/goopendb.go:725-805 | the loops compute BuildReferences |
| DbReferences.BuildTables | server/goopendb/goopendb.go:726-751 | the five filling loops build the five tables |
| DbCompact.MapSeq | server/goopendb/goopendb.go:834-942 | a pass over a list rewrites each element in place and keeps the order |
| DbCompact.PinPass | server/goopendb/goopendb.go:866-897 | the pass over one pin list keeps every pin |
| DbCompact.CompactPinsAsWritten | server/goopendb/goopendb.go:866-897 | as written, the instance and block pins go through one shared table and every pin is kept |
| DbCompact.CompactPins | server/goopendb/goopendb.go:866-897 | the corrected pin passes never panic and keep every instance and block pin |
| DbCompact.CompactLayers | server/goopendb/goopendb.go:975-982 | the layer pass never panics and keeps every layer |
| DbCompact.CompactVias | server/goopendb/goopendb.go:983-993 | the via pass never panics and keeps every routing via and via definition |
| DbCompact.InOrder | server/goopendb/goopendb.go:1018-1046 | collecting a table's values in iteration order yields at most one value per key |
| DbCompact.CompactDesignParts | server/goopendb/goopendb.go:806-1112 | the result is the compacted lists put back in the design |
| DbCompact.CompactDesignKeeps | server/goopendb/goopendb.go:1047-1110 | the name, the area figures, the bounding box, core, die, gcell grid and the other fields are kept |
| DbCompact.CompactDesignPanics | server/goopendb/goopendb.go:944-1072 | CompactDesign panics exactly when the bounding box, core or die is missing, or an instance or net the tables hold has a nil pin |
| DbCompact.MapSeqKeepsLast | server/goopendb/goopendb.go:834-942 | a rewrite that keeps IDs keeps which element is the last of its ID |
| DbCompact.CompactInstancesMeaning | server/goopendb/goopendb.go:944-950 | instances keep their order; those the table holds have each pin replaced by an ID-only stub |
| DbCompact.CompactNetsMeaning | server/goopendb/goopendb.go:854-865 | every net's special boxes become ID-only geometries; those the table holds have pins, edge vias and edge layers stubbed |
| DbCompact.PinPassMeaning | server/goopendb/goopendb.go:866-897 | every pin's geometries become ID-only geometries; the pin the table holds for each ID has instance and net cut, and the others keep them |
| DbCompact.CompactPinsMeaning | server/goopendb/goopendb.go:866-897 | corrected: each pin list is unlinked through its own table, so an instance pin is cut when it is the last instance pin with its ID and a block pin when it is the last block pin with its ID |
| DbCompact.CompactPinsAsWrittenShadows | server/goopendb/goopendb.go:952-955 | as written, an instance pin whose ID some block pin carries keeps its instance and net |
| DbCompact.SharedPinIdKeepsOwner | server/goopendb/goopendb.go:952-955 | instance pin 1 with an owner beside block pin 1 keeps the owner as written, and loses it through its own table |
| DbCompact.CompactLayersMeaning | server/goopendb/goopendb.go:975-982 | the layers the table holds have their upper and lower layers stubbed |
| DbCompact.CompactViasMeaning | server/goopendb/goopendb.go:903-942 | every via's rectangle is copied with layer and via stubbed; the vias the table holds have top, cut and bottom stubbed |
| DbCompact.InOrderAll | server/goopendb/goopendb.go:1018-1046 | when every key of the order is in the table, the values come out one per key, in that order |
| DbCompact.CompactTracksEnumerate | server/goopendb/goopendb.go:1004-1026 | with the map yielding every track ID once, one track per ID comes out, the last with it, its layer stubbed |
| DbCompact.KeysFound | server/goopendb/goopendb.go:1018-1046 | every key a map iteration yields is in the table |
| DbCompact.TrackFound | server/goopendb/goopendb.go:1018-1026 | a track the table holds has its layer stubbed |
| DbCompact.CompactRowsEnumerate | server/goopendb/goopendb.go:1014-1046 | with the map yielding every row ID once, one row per ID comes out, the last with it, its box copied |
| DbCompact.CompactDesignStubsAll | server/goopendb/goopendb.go:806-1112 | with IDs distinct within each table's lists (instance pins and block pins each on their own), no reference CompactDesign rewrites points at an object: pin lists, pin owners, edge vias and layers, layer and via links, geometry and via boxes, track layers and row-box layers are nil or ID-only stubs |
| DbCompact.InstancesStubbed | server/goopendb/goopendb.go:944-950 | with distinct instance IDs every instance's pins are stubs |
| DbCompact.NetsStubbed | server/goopendb/goopendb.go:956-974 | with distinct net IDs every net's references are stubs |
| DbCompact.PinsStubbed | server/goopendb/goopendb.go:952-955 | with instance-pin IDs distinct and block-pin IDs distinct, every pin of both lists has instance and net cut and its geometries stubbed |
| DbCompact.LayersStubbed | server/goopendb/goopendb.go:975-982 | with distinct layer IDs every layer's references are stubs |
| DbCompact.ViasStubbed | server/goopendb/goopendb.go:983-993 | with distinct via IDs every via's references are stubs |
| DbCompact.GeometriesStubbed | server/goopendb/goopendb.go:995-999 | every copied geometry has its boxes' layers and vias stubbed |
| DbCompact.MapLoop | server/goopendb/goopendb.go:834-942 | the pass over a list computes MapSeq |
| DbCompact.InOrderLoop | server/goopendb/goopendb.go:1018-1046 | the loop over a map's values computes InOrder |
| DbCompact.InOrderAdvance | server/goopendb/goopendb.go:1018-1046 | one step of that loop adds the entry of the key at hand, if any |
| DbCompact.CompactDesignLoops | server/goopendb/goopendb.go:806-1112 | the loops compute CompactDesign |
| DbParse.LastIndex | server/goopendb/goopendb.go:1535-1537 | the position of the last occurrence of the character, or -1 when there is none |
| DbParse.TrimmedLength | server/goopendb/goopendb.go:1535-1537 | the path's length without its trailing slashes |
| DbParse.Base | server/goopendb/goopendb.go:1535-1537 | path.Base is never empty and is "/" or holds no slash |
| DbParse.Ext | server/goopendb/goopendb.go:1535-1537 | path.Ext is empty or a dot followed by neither dots nor slashes |
| DbParse.TrimSuffix | server/goopendb/goopendb.go:1535-1537 | strings.TrimSuffix removes the suffix when the string ends with it, and otherwise returns the string |
| DbParse.LibraryNameSplitsBase | server/goopendb/goopendb.go:1535-1537 | for a file path the library name followed by the extension is the base name |
| DbParse.BaseOfFile | server/goopendb/goopendb.go:1535-1537 | the base name of a file path is what follows its last slash |
| DbParse.LibraryNameIsFileName | server/goopendb/goopendb.go:1535-1537 | the library name holds no slash, and without an extension no dot |
| DbParse.TrailingSlashKeepsExtension | server/goopendb/goopendb.go:1535-1537 | a path ending in a slash has no extension, so its library name is its base name |
| DbParse.CheckLefsOutcome | server/goopendb/goopendb.go:1552-1566 | the LEF loop passes exactly the lists with at most one technology file and no file with neither role, and reports which error stops it |
| DbParse.ReadOf | server/goopendb/goopendb.go:1582-1593 | a technology-and-library file is read with ParseLEF, a technology file with ParseLEFTechnology, a library file with ParseLEFLibrary |
| DbParse.LefReads | server/goopendb/goopendb.go:1582-1593 | one read per LEF file, in request order |
| DbParse.ParseDesignErrorOrder | server/goopendb/goopendb.go:1540-1574 | ParseDesign reports the first violated rule: no LEF, no DEF, a second technology file, a file with neither role, no technology file, no library file; it passes exactly the valid sets |
| DbParse.PrefixAcceptable | server/goopendb/goopendb.go:1552-1566 | in an acceptable list a technology file has no technology file before it and every file has a role |
| DbParse.TechCountMonotone | server/goopendb/goopendb.go:1552-1566 | the technology count never decreases along prefixes |
| DbParse.BadPrefixUnique | server/goopendb/goopendb.go:1552-1566 | the files before the first bad one are acceptable |
| DbParse.ParseDesignReads | server/goopendb/goopendb.go:1575-1598 | an accepted set reads each LEF in request order, then the DEF |
| DbParse.CheckLoop | server/goopendb/goopendb.go:1552-1566 | the validation loop with its early returns computes CheckLefs |
| DbParse.ReadLoop | server/goopendb/goopendb.go:1582-1593 | the read loop computes LefReads |
| DbParse.ValidateAndPlan | server/goopendb/goopendb.go:1540-1598 | the method computes ParseDesign up to the foreign reads |
| DbParse.CheckFailureSticks | server/goopendb/goopendb.go:1552-1566 | once the loop has returned an error, later files do not change it |
| Explorer.NatToString | client/components/viewer/ComponentsExplorerPanel.js:34-38 | a count renders as a non-empty string of decimal digits |
| Explorer.NatToStringReadsBack | client/components/viewer/ComponentsExplorerPanel.js:34-38 | the rendered count reads back as the count, with no leading zero |
| Explorer.SpaceEnd | client/components/viewer/ComponentsExplorerPanel.js:65 | where the white space at the start of the rest of the query ends |
| Explorer.SpaceStart | client/components/viewer/ComponentsExplorerPanel.js:65 | where the white space at the end of the query starts |
| Explorer.TrimMeaning | client/components/viewer/ComponentsExplorerPanel.js:65 | trim removes the white space at both ends and nothing else |
| Explorer.PopOrderKeeps | client/components/viewer/ComponentsExplorerPanel.js:23-25 | the sorted category keys are exactly the explorer's categories |
| Explorer.TopEntries | client/components/viewer/ComponentsExplorerPanel.js:27-40 | one stack entry per category, at level 0, named with its count or "*" while searching |
| Explorer.ChildEntries | client/components/viewer/ComponentsExplorerPanel.js:67-78 | one entry per child, one level below its parent, with id parent_ID |
| Explorer.Shown | client/components/viewer/ComponentsExplorerPanel.js:63-66 | the kept children are at most the children |
| Explorer.Emits | client/components/viewer/ComponentsExplorerPanel.js:47-59 | one yield per visited entry: the node record when refreshing, its id otherwise |
| Explorer.TreeWalk | client/components/viewer/ComponentsExplorerPanel.js:22-84 | treeWalker yields Walk: the categories in ascending index order, each followed by its kept children when the consumer opens it |
| Explorer.Drain | client/components/viewer/ComponentsExplorerPanel.js:42-82 | the generator's loop yields the entries Visit lists, from the stack of category entries |
| Explorer.PopStep | client/components/viewer/ComponentsExplorerPanel.js:42-82 | one turn of the loop keeps the loop invariant and leaves less to do |
| Explorer.PopChild | client/components/viewer/ComponentsExplorerPanel.js:43-61 | popping a pending child pushes nothing |
| Explorer.PopCategoryEntry | client/components/viewer/ComponentsExplorerPanel.js:43-81 | popping a category pushes its kept children, reversed, when it is opened and has children |
| Explorer.PushedPending | client/components/viewer/ComponentsExplorerPanel.js:61-81 | what the loop pushes for a category is the reversed list of the entries of its kept children |
| Explorer.VisitStep | client/components/viewer/ComponentsExplorerPanel.js:42-82 | visiting the next category moves it to the visited entries and its kept children to the pending ones |
| Explorer.VisitUnfold | client/components/viewer/ComponentsExplorerPanel.js:42-82 | one category visited: the category, then the children it shows |
| Explorer.TopEntriesReverse | client/components/viewer/ComponentsExplorerPanel.js:23-40 | the entries of the reversed categories are the reversed entries |
| Explorer.PushChildren | client/components/viewer/ComponentsExplorerPanel.js:62-80 | the inner loop pushes the kept children from the last to the first |
| Explorer.ShownStep | client/components/viewer/ComponentsExplorerPanel.js:62-80 | pushing child i, when kept, extends the reversed entries of the kept children |
| Explorer.PopOrderAscending | client/components/viewer/ComponentsExplorerPanel.js:23-25 | categories leave the stack in ascending index order, and are a permutation of the explorer |
| Explorer.ReversedDescending | client/components/viewer/ComponentsExplorerPanel.js:23-25 | a list sorted by descending index, read backwards, ascends |
| Explorer.PopOrderTies | client/components/viewer/ComponentsExplorerPanel.js:23-25 | categories with the same index leave the stack in the reverse of their order in the explorer |
| Explorer.VisitHeaders | client/components/viewer/ComponentsExplorerPanel.js:42-82 | the level-0 entries the walk yields are exactly its categories, in order |
| Explorer.ChildHeaders | client/components/viewer/ComponentsExplorerPanel.js:67-78 | child entries are never at level 0 |
| Explorer.WalkCategoriesAscending | client/components/viewer/ComponentsExplorerPanel.js:22-84 | the categories the walk yields are the explorer's, in ascending index order |
| Explorer.ShownMeaning | client/components/viewer/ComponentsExplorerPanel.js:63-66 | the kept children are exactly the children the query matches, and all of them without a query |
| Explorer.ShownAppend | client/components/viewer/ComponentsExplorerPanel.js:62-66 | keeping distributes over concatenation, so kept children keep their order |
| Explorer.VisitChildren | client/components/viewer/ComponentsExplorerPanel.js:42-82 | every yielded entry is a category or, one level below, a kept child of one |
| Explorer.OpenedAreChildren | client/components/viewer/ComponentsExplorerPanel.js:61-81 | the entries pushed for an opened category are its kept children, one level below it |
| Explorer.AllClosed | client/components/viewer/ComponentsExplorerPanel.js:61 | when the consumer opens nothing, the walk yields only the categories |
| Explorer.AllOpened | client/components/viewer/ComponentsExplorerPanel.js:42-82 | when the consumer opens everything, the walk yields the whole tree in pre-order |
| S3Handler.StripSlashes | deploy/server/main.go:107-109 | the key is no longer than the path and does not start with '/' |
| S3Handler.StripSlashesSplits | deploy/server/main.go:107-109 | the path is some number of slashes followed by the key |
| S3Handler.TrimLeadingSlashes | deploy/server/main.go:107-109 | the trimming loop computes StripSlashes |
| S3Handler.FirstLabel | deploy/server/main.go:110-112 | the bucket is the prefix of the host up to its first '.', or the whole host without one |
| S3Handler.FirstLabelUnique | deploy/server/main.go:110-112 | the bucket is the only dot-free prefix of the host that ends at a '.' or at the end |
| S3Handler.ParseS3Url | deploy/server/main.go:101-120 | parseS3URL fails exactly when url.Parse fails, and otherwise returns a valid object |
| S3Handler.ParseS3UrlLoop | deploy/server/main.go:101-120 | the method form computes ParseS3Url |
| S3Handler.UrlCheck | deploy/server/main.go:243-255 | the URL loop rejects exactly when some file's URL does not parse or names another bucket |
| S3Handler.Handle | deploy/server/main.go:230-237 | no files gives "No files were uploaded"; lists of different lengths give the meta error |
| S3Handler.ClassifyAccepts | deploy/server/main.go:259-312 | the classification loop accepts exactly when every file has a .def/.lef name, is fetched, has type def or lef, and at most one is a DEF |
| S3Handler.ClassifyGathers | deploy/server/main.go:300-312 | on acceptance the LEF files are gathered in request order and the DEF is the one DEF file |
| S3Handler.HandleAccepts | deploy/server/main.go:230-312 | an accepted request has every URL in the upload bucket, every file well-named and fetched, at most one DEF, and yields those design files |
| S3Handler.ForeignBucketFirst | deploy/server/main.go:243-255 | the URL checks come first: the first file with a bad URL is named in the error, whatever the later checks would say |
| S3Handler.UrlCheckFirst | deploy/server/main.go:243-255 | the URL loop reports the first failing file |
| S3Handler.UploadHandler | deploy/server/main.go:230-316 | the handler's loops compute Handle and, on acceptance, one S3 object per file, each in the upload bucket |
| S3Handler.ValidateUrls | deploy/server/main.go:243-255 | the URL loop computes UrlCheck and, when it passes, parses one object per file |
| S3Handler.ClassifyFiles | deploy/server/main.go:257-312 | the classification loop computes Classify from the empty design files |
| EdgeRewrite.WordRun | deploy/edge/index.js:10 | the number of word characters at the end of the URI, stopping at the first other character |
| EdgeRewrite.RewritePath | deploy/edge/index.js:10 | a URI whose last segment is made of word characters gets a trailing '/'; any other URI is unchanged |
| EdgeRewrite.MatchesMeaning | deploy/edge/index.js:10 | the scanning matcher agrees with the regular expression: some '/' followed by word characters up to the end |
| EdgeRewrite.SegmentMatches | deploy/edge/index.js:10 | a '/' followed by word characters up to the end is a match |
| EdgeRewrite.WordRunCovers | deploy/edge/index.js:10 | the run reaches back over every trailing word character |
| EdgeRewrite.WordRunBefore | deploy/edge/index.js:10 | the run stops after any other character |
| EdgeRewrite.SlashEndedUnchanged | deploy/edge/index.js:10 | a URI ending in '/' is left as it is |
| EdgeRewrite.OtherCharUnchanged | deploy/edge/index.js:10 | a last segment holding another character, such as '.', is left as it is |
| EdgeRewrite.RewriteIdempotent | deploy/edge/index.js:10 | rewriting a rewritten path changes nothing |
| EdgeRewrite.QueryPart | deploy/edge/index.js:5-8 | '?' and the query string when there is a non-empty one, nothing otherwise |
| EdgeRewrite.Handle | deploy/edge/index.js:16-28 | the response is a 301 with exactly one Location header |
| EdgeRewrite.HandleLocation | deploy/edge/index.js:10-14 | the Location is the base URL, the rewritten path and the query part |
| WireDialog.ItemName | client/components/viewer/ComponentDialogGenerator.js:85-108 | a via box of a special wire is named from the via table, which as written is missing; every other item from the layer table |
| WireDialog.ViaCount | client/components/viewer/ComponentDialogGenerator.js:88-106 | the number of via items is at most the number of items |
| WireDialog.FoldCounts | client/components/viewer/ComponentDialogGenerator.js:85-108 | the pass fails exactly when an item cannot be named, and otherwise appends one name per item and counts vias and segments |
| WireDialog.FoldFails | client/components/viewer/ComponentDialogGenerator.js:85-108 | the pass fails exactly when some item cannot be named |
| WireDialog.FoldTally | client/components/viewer/ComponentDialogGenerator.js:85-108 | each item contributes its name, in order, and vias and segments add up to the items |
| WireDialog.FoldAppend | client/components/viewer/ComponentDialogGenerator.js:85-108 | passing over two lists in turn is passing over their concatenation |
| WireDialog.BoxesCons | client/components/viewer/ComponentDialogGenerator.js:86-87 | the boxes of a list of special geometries are the first geometry's boxes, then the rest's |
| WireDialog.SpecialFoldFlat | client/components/viewer/ComponentDialogGenerator.js:85-97 | the nested loops over special boxes are one pass over all their boxes, failing when a geometry is missing |
| WireDialog.SpecialFoldMissing | client/components/viewer/ComponentDialogGenerator.js:86-87 | a missing special geometry makes the dialog throw |
| WireDialog.WireCounts | client/components/viewer/ComponentDialogGenerator.js:81-108 | a dialog that opens lists one layer per item, and numVias + numSegments is the number of items, numVias the via items |
| WireDialog.AsWrittenViaBoxThrows | client/components/viewer/ComponentDialogGenerator.js:91 | as written, a special wire with a via box always throws, since the via table is undefined |
| WireDialog.CorrectedViaBoxNamed | client/components/viewer/ComponentDialogGenerator.js:85-97 | with the via table supplied, a special wire's dialog throws only for a box it cannot name, and each via box shows its via's name |
| WireDialog.JoinAppend | client/components/viewer/ComponentDialogGenerator.js:109-116 | joining two lists is joining each with the separator between |
| WireDialog.ShownLayers | client/components/viewer/ComponentDialogGenerator.js:109-116 | up to four layers are all shown; more show the first two, "..." and the last two |
| WireDialog.LayersTextLong | client/components/viewer/ComponentDialogGenerator.js:112-115 | with more than four layers the text is "a, b, ..., y, z" |
| WireDialog.WireDialog | client/components/viewer/ComponentDialogGenerator.js:81-116 | the dialog's layer text and counts are those of WireTally, and it throws exactly when WireTally fails |
| WireDialog.ItemsLoop | client/components/viewer/ComponentDialogGenerator.js:85-108 | the forEach over items computes Fold |
| WireDialog.LayerDialog | client/components/viewer/ComponentDialogGenerator.js:171-254 | the dialog throws for a layer without a colour entry; otherwise the title is "Metal Layer: " + name, a swatch is shown exactly for non-cut layers, rotated by the entry's angle in degrees, flat in simple mode |
| WireDialog.CutLayersSquare | client/components/viewer/ComponentDialogGenerator.js:234 | the layers without a swatch are exactly those whose colour entry uses the square pattern |

## Left out

- Drawing: PIXI graphics, textures, the viewport object, image export and every pixel coordinate of DEFViewer.js. A shape is recorded by what it was made from, and a line by the grid value it is drawn at.
- The gcell offset arithmetic (client/components/viewer/DEFViewer.js:664-668): it is floating point, so only the line counts and the pattern each line belongs to are modelled.
- Dialog markup: only the values the wire and layer dialogs compute are modelled. The layer dialog's lookups of the upper and lower layer names (ComponentDialogGenerator.js:219-229), which also throw when those layers are missing from the layer map, are not modelled. CellDialog, ViaDialog and PortDialog compute nothing beyond their markup and are not modelled.
- The google-palette library: it is the parameter `palette(name, n)`. Pattern images are kept as their SVG rectangles, not as data-URI text.
- Text measurement: it is the `measure` parameter of the label loop.
- setTimeout and clearTimeout: they become an explicit expiry event of the click dispatcher.
- startLayer, endLayer and the layer-pointer pass of generateMetalLayerColors (client/utils/textures.js:170-205): nothing they compute reaches the returned colours.
- WireDialog.LayerDialog: the dialog passes no square size to the colour entry's builder (client/components/viewer/ComponentDialogGenerator.js:178-190), so the model takes it as the parameter `squareSize`. CutLayersSquare shows that the square builder is used only for cut layers, whose swatch is never shown.
- GridLines.LayerlessTrack: states only that a layerless track with X grid values throws. The case of a track with only Y grid values is not stated.
- The OpenDB bridge: NewDatabase, the Parse* readers, GetDesign, the C array conversions and ParseDesignToJSON are foreign calls. ParseDesign is modelled up to the list of reads it issues.
- validateDEF (server/goopendb/goopendb.go:575-588): it reads a file and runs a regular expression.
- DbDesign: buildReferences and CompactDesign rewrite pointer fields in place. The model rewrites values, so the aliasing is not captured. In particular, `&(*inst)` (server/goopendb/goopendb.go:835) makes CompactDesign change the input design's instances.
- DbCompact.CompactDesignStubsAll: the references CompactDesign copies rather than stubs keep what they held, as in the source: the layer and via of the bounding box, core and die (Rect.Copy, server/goopendb/goopendb.go:343-355), of the instance boxes and the edge rects, the via of a row's box and the gcell grid's layer (server/goopendb/goopendb.go:391-393, 1063-1066). The lemma states nothing about them; CompactDesignKeeps, CompactInstancesMeaning, EdgeCopy and RowCopy carry them over.
- DbReferences.BlockPinsWin: buildReferences' single pin table (server/goopendb/goopendb.go:728-742) is modelled as written, so an instance's pin reference whose ID a block pin shares resolves to the block pin. No corrected resolution is given, because a net's ID-only pin references cannot tell an ITerm from a BTerm.
- DbCompact.CompactDesignKeeps: Go distinguishes a nil slice from an empty one (server/goopendb/goopendb.go:1073-1108); a Dafny sequence does not, so that normalisation is not stated.
- Fields that neither buildReferences nor CompactDesign touch (Location, Origin, Halo, Obstructions, the enum fields) are not part of the design datatype. The same holds for the copies of Location, Origin and Halo.
- Floating-point statistics: DbuToMeters, the areas and the utilisation.
- deploy/server/main.go beyond the checks: the temporary files, the download, the S3 deletes and the JSON response are I/O. url.Parse and the download are given results. S3Handler.Handle stops where ParseDesignToJSON is called.
- server/handler/handler.go repeats the .def/.lef and single-DEF checks of deploy/server/main.go:259-316 around multipart I/O, and is not part of this model.
- client/utils/enums.js and client/utils/defaults.js: only the constants the modelled code reads are used.
- Transform.FitToDie: a die of zero width or height gives None. DEFViewer.js (client/components/viewer/DEFViewer.js:917-920) divides by zero there and goes on with Infinity or NaN scale factors, which the model does not follow.
- Transform.ConvertRectCoordsMonotonic: strict growth holds in exact real arithmetic. Under IEEE doubles two close widths can round to the same canvas width.
- Scene.ZoomRoundTrip: holds in exact real arithmetic. JavaScript numbers are IEEE doubles, where `s * step / step` need not equal `s`.
- Visibility.LayerVisibility: Viewer.js copies the visibility object shallowly and writes `visible` and `dirty` into the entry objects it shares with the DefaultLayerVisibility constant (client/components/viewer/Viewer.js:48-50, 119-120, 130, 139), so the defaults themselves change. The model's state is a value map, so that aliasing is not captured.
- Upload.Uploader.UploadStart: the request (client/components/common/Upload/Upload.js:153-170), its then and catch handlers, the uploading flag, setDesign and the analytics calls are I/O. The model stops at the decision to start the upload.
- Explorer.Shown: the query is matched with `Name.search(query.trim())` (client/components/viewer/ComponentsExplorerPanel.js:64-65), which reads the query as a regular expression and throws on an invalid one. The `matches` parameter is total, so that throw is not modelled.
- setIsLoading (client/components/viewer/DEFViewer.js:718, 861, 890): the loading flag only drives a spinner and is not modelled.
- Ascii.ToLower: folds the ASCII letters only, whereas JavaScript's toLowerCase and Go's strings.ToLower fold every Unicode letter. The case-insensitivity lemmas are about ASCII folding.
- Explorer: the icon and isOpenByDefault fields of a yielded node are not modelled. The search's regular-expression match is the parameter `matches`.

## Findings

| source | as written | input that shows it | evidently intended | confidence | as-written member | corrected member |
|---|---|---|---|---|---|---|
| server/goopendb/goopendb.go:39-59 | Orientation.String() returns "90" for OrientationR90 | OrientationR90 (1) | "R90", the DEF keyword, as for the other seven constants | not executed; evident from the source text | DbEnums.OrientationR90Misnamed | DbEnums.OrientationStringRoundTrip |
| server/goopendb/goopendb.go:207-227 | SignalType.String() returns "SCA" for SignalTypeSCAN | SignalTypeSCAN (6) | "SCAN", the DEF keyword | not executed; evident from the source text | DbEnums.SignalTypeScanMisnamed | DbEnums.SignalTypeStringRoundTrip |
| server/goopendb/goopendb.go:952-955 | CompactDesign cuts Instance and Net only on the pins of one table holding the instance pins and the block pins by ID, while OpenDB numbers ITerms and BTerms separately (server/goopendb/c++/goopendb.cpp:219, 285); an instance pin whose ID a block pin shares keeps its owners | an instance pin with ID 1 and an owner, beside a block pin with ID 1 | every pin loses its Instance and Net, each list going through its own table | not executed; high | DbCompact.SharedPinIdKeepsOwner | DbCompact.PinsStubbed |
| client/components/viewer/ComponentDialogGenerator.js:91 | a special net's via box is named through `viaMap`, which the module never defines or imports, so the dialog throws a ReferenceError | any special net whose geometry has a box with a Via | the via lookup Viewer.js builds (client/components/viewer/Viewer.js:84-90), passed in like layerMap | not executed; high | WireDialog.AsWrittenViaBoxThrows | WireDialog.CorrectedViaBoxNamed |
