# Crop-region editor of the screenshot annotator

This project models the crop overlay of the screenshot editor
(`frontend/src/components/crop-overlay.tsx`). The user draws a rectangular
crop region over the screenshot, moves it by dragging its frame, and resizes
it with eight handles. An aspect ratio can be chosen: free, 16:9, 4:3, 1:1,
9:16 or 3:4. Every candidate rectangle goes through a constraint pipeline:

1. The bounds solver (`constrainToBounds`) raises both sides to the minimum
   of 20, moves the box onto the image, and cuts its size to the image's.
   The size is never cut below 20.
2. With a fixed ratio, the pipeline then recomputes one side from the other.
   It next scales a box that now reaches past the image's right or bottom
   edge, and finally clamps the position.

Coordinates are exact reals. The model is split into these modules:

- `CropGeometry` (`geometry.dfy`): the value types, the ratio table and small
  arithmetic helpers. `TimesRatio` and `OverRatio` multiply and divide by a
  ratio's value one ratio at a time; they are proved equal to `x * t` and
  `x / t`.
- `CropFrame` (`crop_frame.dfy`): the frame's drag-bound function and the
  region after a frame drag.
- `BoundsSolver` (`bounds_solver.dfy`): `constrainToBounds`. It is a method
  written step by step as in the source and proved equal to a closed-form
  reference definition.
- `ConstraintPipeline` (`constraint_pipeline.dfy`): `enforceAspectRatio`, the
  rescale pass and `applyConstraints`. Each is a method proved equal to a
  reference definition; the lemmas state the ratio, positivity and containment
  properties.
- `PipelineIdempotence` (`pipeline_idempotence.dfy`): applying the
  constraints to their own result changes nothing. With a fixed ratio the
  proof restates the ratio passes on boxes of the ratio, given by corner and
  width, and follows the second run case by case.
- `Handles` (`handles.dfy`): the eight handle anchors, the squares drawn on them, and the resize rule. The
  resize rule is the source's switch, proved equal to an edge-by-edge
  definition.
- `Overlay` (`overlay.dfy`): the four darkened strips around the region.
- `Controller` (`controller.dfy`): the component's state as a class. Its
  fields are the press position, the drawing flag and the crop region, and
  its methods are the mouse handlers, the frame drag and the handle drag. The
  invariant `Valid` says three things:
  - there is a press position exactly while drawing;
  - the press position is on the image;
  - every region is placed (`Placed`): it starts on the image and has positive
    sides, and it lies wholly on the image whenever the image can hold a
    minimum-size box of every ratio (`Roomy`).

The code does not deliver everything one might expect of it, and the model
follows the code:

- With a fixed ratio, the minimum of 20 can fail for one side.
  `PortraitBelowMinimum` shows 9:16 producing a region 11.25 wide.
- A resize candidate wider than the image is not shrunk about its fixed
  edge. The bounds solver moves it to the image's left edge and cuts it to
  the image's width. `OverdragMovesRegion` shows the right handle of a region
  at x = 100 dragged to x = 2000. The result is a region at x = 0 with the
  image's full width 1000 and height 562.5. It is not 900 wide at x = 100.
- A box that only the ratio step pushes past the image is shrunk about its
  corner by the rescale pass. `RatioOverflowShrinks` shows the top handle of
  (100,100,200,100) dragged to y = -2000 with 16:9. The bounds solver gives a
  region 800 high at y = 0, whose 16:9 width of about 1422 reaches past the
  right edge. The rescale pass brings it back to (100,0,900,506.25).
- Drawing applies only the bounds solver, never the ratio.
- On an image smaller than 20 the region is larger than the image. It still
  starts at the image's corner (`Constrained`'s contract).
- The branch at lines 140-143 cannot run: the width was raised to at least 20
  on line 136. `RescaleToFit` marks it with `assert false`.

## Model

| member | source | states |
|---|---|---|
| CropGeometry.RatioValue | frontend/src/components/crop-overlay.tsx:70-77 | the ratio value is 0 exactly for free, and positive for every fixed ratio |
| CropGeometry.Clamp | frontend/src/components/crop-overlay.tsx:239-250 | the result is never below the lower limit, and not above the upper one when the limits are ordered. A value between them is kept. A value below the lower limit, or any value when the limits cross, gives the lower limit. A value above an ordered upper limit gives the upper limit |
| CropFrame.DragBound | frontend/src/components/crop-overlay.tsx:239-250 | the frame's position is never left of or above the image. It ends on the image whenever the frame fits. A position that already fits is kept on each axis. A position left of the image, or any position when the frame is wider than the image, gives the image's left edge. A position past the last fitting one gives that one. The same holds vertically |
| CropFrame.Translated | frontend/src/components/crop-overlay.tsx:239-266 | a frame drag keeps the size and leaves the region starting on the image. A region no larger than the image stays wholly on it |
| CropFrame.TranslatedInPlace | frontend/src/components/crop-overlay.tsx:239-250 | a frame dropped where it already lies on the image does not move |
| BoundsSolver.Constrained | frontend/src/components/crop-overlay.tsx:32-67 | both sides are always at least 20 and the region starts on the image. It ends on the image on each axis where the image is at least 20. On an axis where the image is smaller than 20, the side is exactly 20 at the image's edge |
| BoundsSolver.ConstrainToBounds | frontend/src/components/crop-overlay.tsx:39-66 | the source's step-by-step field updates compute exactly the closed form `Constrained` |
| BoundsSolver.ConstrainedKeepsValid | frontend/src/components/crop-overlay.tsx:42-64 | a region on the image with both sides at least 20 is returned unchanged |
| BoundsSolver.ConstrainedIdempotent | frontend/src/components/crop-overlay.tsx:42-64 | applying the bounds solver twice is the same as applying it once |
| BoundsSolver.ConstrainedMovesNotShrinks | frontend/src/components/crop-overlay.tsx:45-64 | a region that fits the image in size keeps its size and is only moved. It keeps its position on an axis where it already lies on the image |
| BoundsSolver.ConstrainedOversize | frontend/src/components/crop-overlay.tsx:50-64 | a region wider than the image goes to the image's left edge with the image's width, or 20 if the image is narrower. The same holds for height |
| ConstraintPipeline.RatioEnforced | frontend/src/components/crop-overlay.tsx:80-102 | position kept. Free returns the region unchanged. Top/bottom handles keep the height and every other handle keeps the width |
| ConstraintPipeline.EnforceAspectRatio | frontend/src/components/crop-overlay.tsx:80-102 | the source's branches on the handle kind compute exactly `RatioEnforced` |
| ConstraintPipeline.RatioEnforcedExact | frontend/src/components/crop-overlay.tsx:92-99 | after enforcement, width equals height times the ratio, whichever side led |
| ConstraintPipeline.RatioEnforcedShape | frontend/src/components/crop-overlay.tsx:80-102 | enforcement keeps both sides of a positive region positive |
| ConstraintPipeline.Refit | frontend/src/components/crop-overlay.tsx:136-147 | the refitted region keeps its corner, has a positive width, is at least 20 high and has the ratio exactly. It has the requested width whenever that width's height is at least 20 |
| ConstraintPipeline.Rescaled | frontend/src/components/crop-overlay.tsx:125-148 | the rescale pass keeps the region's corner. A region that does not overflow is returned unchanged. An overflowing one comes back at least 20 high and of the ratio exactly |
| ConstraintPipeline.ScaledWidthOfRatioBox | frontend/src/components/crop-overlay.tsx:131-136 | scaling a box of ratio t by the smaller of its two room fractions gives the smaller of the room's width and the room's height times t |
| ConstraintPipeline.ScaledWidthIsLargest | frontend/src/components/crop-overlay.tsx:131-136 | for a region of the ratio, the source's scale factor gives exactly the largest width of that ratio that fits between the corner and the image's far edges |
| ConstraintPipeline.RescaleToFit | frontend/src/components/crop-overlay.tsx:125-148 | the source's scale-and-floor steps compute exactly `Rescaled`: an overflowing region gets the largest fitting width of the ratio, raised to at least 20. When the height would then fall below 20, the height becomes 20 and the width is recomputed from it |
| ConstraintPipeline.Pipeline | frontend/src/components/crop-overlay.tsx:105-161 | the result always starts on the image (x and y not less than the image's) |
| ConstraintPipeline.PipelineWithRatio | frontend/src/components/crop-overlay.tsx:114-161 | with a fixed ratio, the pipeline is the bounds solver, then enforcement, then the rescale pass, then the frame's clamp |
| ConstraintPipeline.ApplyConstraints | frontend/src/components/crop-overlay.tsx:105-161 | the source's passes compute exactly `Pipeline` |
| ConstraintPipeline.PipelineFreeIsConstrained | frontend/src/components/crop-overlay.tsx:116-120 | with the free ratio, the pipeline is the bounds solver alone |
| ConstraintPipeline.PipelineKeepsRatio | frontend/src/components/crop-overlay.tsx:104-147 | with a fixed ratio, width equals height times the ratio exactly, for every input and every handle, through the rescale and floor branches |
| ConstraintPipeline.PipelinePositive | frontend/src/components/crop-overlay.tsx:105-161 | both sides of the result are positive for every input |
| ConstraintPipeline.PipelineFitsWhenSmallEnough | frontend/src/components/crop-overlay.tsx:150-158 | the right edge is on the image whenever the final width fits it, and the bottom edge likewise |
| ConstraintPipeline.RescaledFitsUnlessFloored | frontend/src/components/crop-overlay.tsx:130-148 | a rescaled region that hit neither floor of 20 ends within the image's far edges |
| ConstraintPipeline.RescaledWithinImage | frontend/src/components/crop-overlay.tsx:130-148 | on an image that holds a minimum-size box of the ratio both ways round, the rescale pass never leaves a region larger than the image |
| ConstraintPipeline.PipelineContainedWhenRoomy | frontend/src/components/crop-overlay.tsx:105-161 | with a fixed ratio, on such an image, the result lies wholly on the image |
| PipelineIdempotence.RescaledRatioBox | frontend/src/components/crop-overlay.tsx:125-148 | the rescale pass maps a box of the ratio to the box of the ratio at the same corner, at the lead width when it fits from that corner. Otherwise it uses the largest fitting width, raised to the narrowest width of the ratio at the minimum size |
| PipelineIdempotence.PipelineIsSettled | frontend/src/components/crop-overlay.tsx:105-161 | with a fixed ratio, the pipeline's result is the box of the ratio at the fitted width, placed by the frame's clamp from the bounds solver's corner |
| PipelineIdempotence.PipelineIdempotent | frontend/src/components/crop-overlay.tsx:105-161 | applying the constraints to their own result, with the same image, ratio and handle, returns it unchanged, for every input |
| ConstraintPipeline.PipelineKeepsValid | frontend/src/components/crop-overlay.tsx:105-161 | a region on the image, at least 20 on each side and of the chosen ratio, is a fixed point of the pipeline for every handle |
| Handles.HandlePositions | frontend/src/components/crop-overlay.tsx:298-307 | there is an anchor for exactly the eight handles |
| Handles.HandlePositionsTotal | frontend/src/components/crop-overlay.tsx:298-307 | every handle has an anchor |
| Handles.AnchorsOnBorder | frontend/src/components/crop-overlay.tsx:298-307 | every anchor lies on the region's border |
| Handles.HandleOrderComplete | frontend/src/components/crop-overlay.tsx:298-307 | the drawing order lists every handle, and none twice |
| Handles.HandleSquare | frontend/src/components/crop-overlay.tsx:365-371 | a handle's square is the handle size on a side and centred on the handle's anchor |
| Handles.HandleSquares | frontend/src/components/crop-overlay.tsx:365-371 | one square per listed handle, in order, each the square of that handle |
| Handles.ResizedByEdges | frontend/src/components/crop-overlay.tsx:318-353 | edges opposite the handle stay fixed. A dragged side is at least 20 and an undragged side keeps its length. The dragged edge lands on the cursor whenever that leaves the side at least 20, and the side is exactly 20 whenever the cursor would leave it shorter |
| Handles.ResizeCandidate | frontend/src/components/crop-overlay.tsx:312-353 | the source's eight-way switch of field updates computes exactly `ResizedByEdges` |
| Handles.ResizeAtOwnAnchor | frontend/src/components/crop-overlay.tsx:298-353 | a handle dragged to its own anchor proposes the region unchanged, for a region at least 20 on each side |
| Overlay.OverlayStrips | frontend/src/components/crop-overlay.tsx:172-219 | no strip has a negative extent |
| Overlay.StripsCoverOutside | frontend/src/components/crop-overlay.tsx:172-219 | every point of the image is in the region or under a strip, wherever the region is |
| Overlay.StripsAvoidRegion | frontend/src/components/crop-overlay.tsx:172-219 | no strip's interior contains a point strictly inside the region |
| Overlay.StripsTileImage | frontend/src/components/crop-overlay.tsx:172-219 | for a region on the image, the strips meet the region's edges and the image's, and the heights and widths add up to the image's |
| Overlay.StripsVanishOutside | frontend/src/components/crop-overlay.tsx:172-219 | a region reaching past an image edge leaves no strip on that side |
| Controller.DrawnBox | frontend/src/components/crop-overlay.tsx:454-459 | the drawn box has non-negative sides and spans from one of the two points to the larger coordinate, on each axis. Its corner is at the smaller coordinate of the two points on each axis |
| Controller.DrawnBoxSymmetric | frontend/src/components/crop-overlay.tsx:454-459 | drawing from s to p gives the same box as drawing from p to s |
| Controller.RoomyForEveryRatio | frontend/src/components/crop-overlay.tsx:70-77 | an image that fits 16:9 and 9:16 minimum boxes fits those of every ratio, and is at least 20 on each side |
| Controller.ConstrainedPlaced | frontend/src/components/crop-overlay.tsx:32-67 | every bounds-solver result is placed |
| Controller.PipelinePlaced | frontend/src/components/crop-overlay.tsx:105-161 | every pipeline result is placed, for every ratio and handle |
| Controller.TranslatedPlaced | frontend/src/components/crop-overlay.tsx:239-250 | a frame drag keeps a placed region placed |
| Controller.CropController.constructor | frontend/src/components/crop-overlay.tsx:413 | a new overlay has no region and no drawing in progress, and is valid |
| Controller.CropController.MouseDown | frontend/src/components/crop-overlay.tsx:416-440 | a press on the image with no region yet records the press and starts drawing. Otherwise nothing changes, and the region never changes |
| Controller.CropController.MouseMove | frontend/src/components/crop-overlay.tsx:443-465 | while drawing with a cursor position, the region becomes the bounds-solved box spanned by the press and the cursor. Otherwise nothing changes. Validity is kept |
| Controller.CropController.MouseUp | frontend/src/components/crop-overlay.tsx:468-473 | afterwards nothing is being drawn, no press is recorded, and the region is unchanged |
| Controller.CropController.FrameDragMove | frontend/src/components/crop-overlay.tsx:501-508 | the region becomes the frame-drag translation of the old one. Validity is kept |
| Controller.CropController.HandleDragMove | frontend/src/components/crop-overlay.tsx:377-385 | the region becomes the pipeline applied to the resize candidate at the handle square's centre. Validity is kept |
| Controller.DrawnRegionIsSpan | frontend/src/components/crop-overlay.tsx:454-461 | a drawn box of at least 20 on each side, between two points on the image, becomes the region exactly |
| Controller.HandleAtRestKeepsRegion | frontend/src/components/crop-overlay.tsx:365-385 | a handle square reported where it is drawn changes no region that is on the image, at least 20 each side and of the chosen ratio, because the square's centre is the handle's own anchor |
| Controller.HandlesAtRestKeepRegion | frontend/src/components/crop-overlay.tsx:365-385 | for a region on the image, at least 20 each side and of the chosen ratio, every handle in the drawing order, reported at its own square in the list of drawn squares, leaves the region unchanged |
| Controller.DrawUpAndLeft | frontend/src/components/crop-overlay.tsx:454-461 | drawing from (100,100) to (50,50) on a 1000 by 800 image gives the region (50,50,50,50) |
| Controller.WidenWithRatio | frontend/src/components/crop-overlay.tsx:318-356 | with 16:9, dragging the right edge of (100,100,200,100) to x = 950 gives (100,100,850,478.125) |
| Controller.OverdragMovesRegion | frontend/src/components/crop-overlay.tsx:318-356 | with 16:9, dragging that edge to x = 2000 gives (0,100,1000,562.5): the region is moved, not shrunk |
| Controller.RatioOverflowShrinks | frontend/src/components/crop-overlay.tsx:318-356 | with 16:9, dragging the top edge of (100,100,200,100) to y = -2000 gives (100,0,900,506.25): the overflow the ratio step causes is shrunk about the corner |
| Controller.PortraitBelowMinimum | frontend/src/components/crop-overlay.tsx:92-95 | with 9:16, a bottom-edge drag to a 20-high box gives a region 11.25 wide, below the minimum |

## Left out

- Rendering is not modelled: the Konva `Rect` styling, colours, opacity and corner radius, and the React `useCallback`/`useRef` memoisation.
- The `onDragEnd` handlers (lines 267-272 and 386-393) are not modelled. They only move the visual node back to the state's position.
- Event delivery is not modelled. The mouse handlers are attached only while there is no region (lines 476-488), and the frame and handles exist only while there is one. The model takes each handler as called and keeps its own guards. `FrameDragMove` and `HandleDragMove` require a region for this reason.
- Konva applies the drag-bound function before it reports the frame's position. `FrameDragMove` takes the requested position and applies `DragBound` itself.
- The image bounds are fixed for the controller's lifetime. A parent that changes them between events is not modelled.
- The parent component owns `isDrawing` and the region. Other writers of those props are not modelled, and the callbacks are plain field updates.
- Doubles are modelled as exact reals. IEEE-754 rounding of the ratio values and of the divisions is not modelled.
- A missing stage and a missing cursor position are both a `None` position in `MouseDown` and `MouseMove`.
- ConstraintPipeline.Pipeline: its contract does not promise the minimum of 20 or full containment. The code delivers neither with a fixed ratio, as `PortraitBelowMinimum` shows. Containment is proved only on a roomy image (`PipelineContainedWhenRoomy`).
- Controller.CropController.Valid keeps only positive sides, not the minimum of 20. A fixed-ratio resize can leave one side below 20.
- The annotation toolbar, export toolbar, title bar and window picker are not part of this model. They are UI markup and calls into the native backend.
