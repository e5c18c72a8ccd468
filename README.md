# Docked-stack divider (SystemUI `DividerView`)

This project models the divider between the two stacks of Android's split-screen mode. The
divider is the bar the user drags to resize the docked stack and the other stack. The model covers:

- **The touch state machine.** A finger going down starts a drag when a stack is docked. A move
  only becomes a drag once it has travelled further than the touch slop. Each drag move resizes
  the stacks. Releasing the finger flings the divider to a snap target.
- **`resizeStack`.** It computes the docked region for a divider position and skips the update
  when that region has not changed. It publishes either the divider region alone (the
  `TASK_POSITION_SAME` sentinel) or all five rectangles. Then it updates the dim layer.
- **The task-position policies.** `restrictDismissingTaskPosition` and `minimizeHoles` decide
  where each task is laid out while the divider moves.
- **The dismiss parallax.** It slides a dismissing task towards the edge being dismissed.
- **The fling animation.** Every update resizes the stacks. The end commits the snap target:
  the docked stack is dismissed, maximized or left alone. Then resizing stops and the dock side
  is forgotten.

Files:

- `optional.dfy`: `Option`.
- `rects.dfy`: the `Box` value of a rectangle, and the mutable `Rect` class the divider rewrites in place.
- `window_manager.dfy`: dock sides, `invertDockSide`, stack ids, and `WindowManagerProxy`. The
  proxy records every call in a ghost log, so contracts can say exactly what was published or committed.
- `snap.dfy`: the snap algorithm. Its source is not part of this model, so it is a strictly
  increasing sequence of targets (position and flag) with the landmark targets as indices. Targets
  are compared by index, the way Java compares `SnapTarget` objects by reference. The oracles that
  pick a target, compute the dismissing fraction and find the closest dismiss target are
  function-typed fields.
- `divider_policy.dfy`: the expression-only decisions, as functions, with the lemmas about them.
  This includes the calls one resize, one commit and one whole fling make.
- `divider_view.dfy`: the `DividerView` class. It holds the drag state (`startX`, `startY`,
  `startPosition`, `dockSide`, `moving`) and the seven rectangles. Its methods are the touch
  handler, `resizeStack`, the alignment and parallax methods, and the fling callbacks. Each
  method is proved against the functions in `divider_policy.dfy`.

`DockedDividerUtils.calculateBoundsForPosition` is not part of this model. It is a function-typed
field of the configuration. The `SLOWDOWN` and `DIM` interpolators are function-typed fields too.

## Model

Source paths are relative to the repository root.

| member | source | states |
|---|---|---|
| Rects.Rect.Set | packages/SystemUI/src/com/android/systemui/stackdivider/DividerView.java:436-437 | `Rect.set(l, t, r, b)` makes the rectangle exactly those four edges |
| Rects.Rect.SetFrom | packages/SystemUI/src/com/android/systemui/stackdivider/DividerView.java:462 | `Rect.set(Rect)` copies another rectangle's edges |
| Rects.Rect.Equals | packages/SystemUI/src/com/android/systemui/stackdivider/DividerView.java:455 | `Rect.equals` holds exactly when all four edges agree |
| Rects.Rect.constructor | packages/SystemUI/src/com/android/systemui/stackdivider/DividerView.java:111-117 | a new rectangle is empty (all edges 0) |
| WindowManager.InvertDockSide | packages/SystemUI/src/com/android/systemui/stackdivider/DividerView.java:464-466 | the inverted side is invalid exactly when the side is, and differs from every valid side |
| WindowManager.InvertDockSideInvolutive | packages/SystemUI/src/com/android/systemui/stackdivider/DividerView.java:464-466 | inverting twice gives back the side |
| WindowManager.WindowManagerProxy.GetDockSide | packages/SystemUI/src/com/android/systemui/stackdivider/DividerView.java:204 | returns the dock side the window manager reports |
| WindowManager.WindowManagerProxy.SetResizing | packages/SystemUI/src/com/android/systemui/stackdivider/DividerView.java:207 | appends exactly one resizing call to the log |
| WindowManager.WindowManagerProxy.ResizeDockedStack | packages/SystemUI/src/com/android/systemui/stackdivider/DividerView.java:494-497 | appends exactly one publish of the five rectangles (copied by value) |
| WindowManager.WindowManagerProxy.SetResizeDimLayer | packages/SystemUI/src/com/android/systemui/stackdivider/DividerView.java:502-504 | appends exactly one dim layer call |
| WindowManager.WindowManagerProxy.DismissDockedStack | packages/SystemUI/src/com/android/systemui/stackdivider/DividerView.java:357 | appends exactly one dismiss call |
| WindowManager.WindowManagerProxy.MaximizeDockedStack | packages/SystemUI/src/com/android/systemui/stackdivider/DividerView.java:359 | appends exactly one maximize call |
| Snap.SnapAlgorithm.NextTarget | packages/SystemUI/src/com/android/systemui/stackdivider/DividerView.java:517-522 | the next target is the same target only at the end; otherwise it is the nearest target with a greater position |
| Snap.SnapAlgorithm.PreviousTarget | packages/SystemUI/src/com/android/systemui/stackdivider/DividerView.java:532-533 | the previous target is the same target only at the start; otherwise it is the nearest target with a smaller position |
| Snap.SnapAlgorithm.LandmarksOrdered | packages/SystemUI/src/com/android/systemui/stackdivider/DividerView.java:556-566 | dismiss-start < first split <= last split < dismiss-end, by position |
| Snap.IncreasingPositions | packages/SystemUI/src/com/android/systemui/stackdivider/DividerView.java:517-533 | adjacent increase implies that a later index always has a greater position |
| DividerPolicy.DockSideTopLeft | packages/SystemUI/src/com/android/systemui/stackdivider/DividerView.java:644-646 | true only for a valid side, and exactly when the inverted side is bottom or right |
| DividerPolicy.DockSideBottomRight | packages/SystemUI/src/com/android/systemui/stackdivider/DividerView.java:651-653 | true only for a valid side, and exactly when the inverted side is top or left |
| DividerPolicy.DockSideAnchoring | packages/SystemUI/src/com/android/systemui/stackdivider/DividerView.java:641-653 | a side is top/left or bottom/right exactly when it is valid, never both; inverting swaps the two |
| DividerPolicy.AlignedTopLeft | packages/SystemUI/src/com/android/systemui/stackdivider/DividerView.java:433-438 | the result keeps the rectangle's width and height, with its left/top at the container's left/top |
| DividerPolicy.AlignedBottomRight | packages/SystemUI/src/com/android/systemui/stackdivider/DividerView.java:440-445 | the result keeps the rectangle's width and height, with its right/bottom at the container's right/bottom |
| DividerPolicy.RestrictDismissingTaskPosition | packages/SystemUI/src/com/android/systemui/stackdivider/DividerView.java:556-566 | the result is the task position, the first split position or the last split position |
| DividerPolicy.RestrictKeepsDismissingSideOpen | packages/SystemUI/src/com/android/systemui/stackdivider/DividerView.java:552-566 | dismiss-start with top/left gives the first split position; dismiss-end with bottom/right gives the last split position; otherwise the task position is unchanged. A restricted task stays strictly inside the dismiss target, so it never gets zero size |
| DividerPolicy.MinimizeHoles | packages/SystemUI/src/com/android/systemui/stackdivider/DividerView.java:513-550 | the result is the task position or the neighbouring target's position. A top/left task switches forward only when the divider is ahead, the next target is a different target that is dismiss-end, and the ratio exceeds 0.12. A bottom/right task switches back only when the divider is behind, the previous target differs, and the ratio exceeds 0.12 (previous is dismiss-start) or else 0.2. Conversely, whenever those conditions hold, the task does switch to that neighbour. An invalid side never switches |
| DividerPolicy.MinimizeHolesStaysBetweenTargets | packages/SystemUI/src/com/android/systemui/stackdivider/DividerView.java:513-550 | starting at a target's position, the adjusted task position stays between that target and its neighbour in the direction of travel |
| DividerPolicy.MinimizeHolesSwitchesAtNeighbour | packages/SystemUI/src/com/android/systemui/stackdivider/DividerView.java:513-550 | once the divider has moved past the task position and reached (or passed) the neighbouring target, the task has switched to it; this includes a neighbour at the task position itself, where the float ratio divides by zero |
| DividerPolicy.Clamp01 | packages/SystemUI/src/com/android/systemui/stackdivider/DividerView.java:573-574 | the clamp lies in [0, 1], is the identity inside it, and gives 0 below and 1 above it |
| DividerPolicy.TruncateToInt | packages/SystemUI/src/com/android/systemui/stackdivider/DividerView.java:591-592 | the `(int)` cast truncates toward zero: it is within 1 of the value, on the side of zero |
| DividerPolicy.TruncateBetween | packages/SystemUI/src/com/android/systemui/stackdivider/DividerView.java:591-592 | truncating a value between two ints stays between them |
| DividerPolicy.ParallaxTargetsFor | packages/SystemUI/src/com/android/systemui/stackdivider/DividerView.java:575-587 | a pair is selected exactly when the target is dismiss-start or the first split target with a left/top dock, or dismiss-end or the last split target with a bottom/right dock. The pair is (dismiss-start, first split) for a left/top dock and (dismiss-end, last split) for a bottom/right dock, both valid targets |
| DividerPolicy.DismissingParallax | packages/SystemUI/src/com/android/systemui/stackdivider/DividerView.java:571-614 | the rectangle keeps its width and height and only its along-axis edges move. It is untouched unless a target pair was selected, the fraction is positive and the divider is dismissing. When it moves, its edge facing the divider is at the offset, plus the divider size on the right/bottom |
| DividerPolicy.ScaleWithin | packages/SystemUI/src/com/android/systemui/stackdivider/DividerView.java:590-592 | a fraction in [0, 1] of a distance lies between 0 and that distance |
| DividerPolicy.DampingKeepsFraction | packages/SystemUI/src/com/android/systemui/stackdivider/DividerView.java:620-622 | dividing a curve value in [0, 1] by 3.5 stays in [0, 1] |
| DividerPolicy.ShiftedPositionBetween | packages/SystemUI/src/com/android/systemui/stackdivider/DividerView.java:591-592 | a task position shifted by a fraction of a distance, then truncated, stays between the task position and the task position plus that distance |
| DividerPolicy.ParallaxShiftWithin | packages/SystemUI/src/com/android/systemui/stackdivider/DividerView.java:588-592 | the damped shift lies between 0 and the split-to-dismiss distance |
| DividerPolicy.ParallaxDistanceSign | packages/SystemUI/src/com/android/systemui/stackdivider/DividerView.java:577-587 | the split-to-dismiss distance is negative for top/left and positive for bottom/right |
| DividerPolicy.ParallaxMovesTowardDismissedEdge | packages/SystemUI/src/com/android/systemui/stackdivider/DividerView.java:588-592 | with a slowdown curve in [0, 1], the parallax offset moves a top/left task back by at most the first-split-to-dismiss-start distance, and a bottom/right task forward by at most the last-split-to-dismiss-end distance |
| DividerPolicy.IsDismissing | packages/SystemUI/src/com/android/systemui/stackdivider/DividerView.java:624-630 | for a left/top dock the divider is dismissing exactly when it is before the split target, for any other side exactly when it is after it; at the target itself it never is |
| DividerPolicy.ParallaxFraction | packages/SystemUI/src/com/android/systemui/stackdivider/DividerView.java:620-622 | the damped fraction lies in [0, 1] whenever the slow-down curve of the clamped dismissing fraction does, and is positive exactly when that curve value is |
| DividerPolicy.ComputeTaskRects | packages/SystemUI/src/com/android/systemui/stackdivider/DividerView.java:463-493 | each docked and other task rectangle has the same size as its inset rectangle |
| DividerPolicy.FrameTaskPosition | packages/SystemUI/src/com/android/systemui/stackdivider/DividerView.java:327-330 | a frame lays the tasks out at the sentinel exactly when the animated fraction is 1, and otherwise at the fling target's position |
| DividerPolicy.TaskRectsShape | packages/SystemUI/src/com/android/systemui/stackdivider/DividerView.java:477-493 | each task and inset rectangle has the size of the bounds at its own task position. The insets sit in their region's outer corner (top/left for the docked side when it is top/left). Without parallax, a task rectangle starts at its region's top-left corner |
| DividerPolicy.CommitDecision | packages/SystemUI/src/com/android/systemui/stackdivider/DividerView.java:344-360 | no action exactly for an unflagged target. Dismiss exactly for dismiss-start with top/left or dismiss-end with bottom/right. Maximize for every other flagged case |
| DividerPolicy.StackIdForDismissTargetAsWritten | packages/SystemUI/src/com/android/systemui/stackdivider/DividerView.java:632-639 | the stack the dim layer darkens is never invalid. It is the docked stack exactly for a dismiss-start target with a left/top dock, and then committing that target dismisses the docked stack |
| DividerPolicy.StackIdForDismissTarget | packages/SystemUI/src/com/android/systemui/stackdivider/DividerView.java:632-639 | the evidently intended mapping of the Findings row, not used by the model's dim layer: the docked stack exactly when committing that target would dismiss it, and otherwise the fullscreen stack |
| DividerPolicy.DimTargetMismatchAsWritten | packages/SystemUI/src/com/android/systemui/stackdivider/DividerView.java:632-639 | as written, dismiss-end with a right dock dims the fullscreen stack, although the commit dismisses the docked stack |
| DividerPolicy.DimTargetCorrectionIsLocal | packages/SystemUI/src/com/android/systemui/stackdivider/DividerView.java:632-639 | the correction changes the result exactly for dismiss-end with a bottom/right dock |
| DividerPolicy.DimLayerUpdate | packages/SystemUI/src/com/android/systemui/stackdivider/DividerView.java:499-504 | the dim layer is visible exactly when its alpha is non-zero; the alpha is the dim curve of the clamped dismissing fraction; the target, chosen as written, is the docked stack exactly when the closest dismiss target is dismiss-start and the dock is left/top |
| DividerPolicy.CommitCalls | packages/SystemUI/src/com/android/systemui/stackdivider/DividerView.java:344-362 | no call for an unflagged target. Otherwise exactly one terminal call followed by `setResizeDimLayer(false, -1, 0)`, and the terminal call is a dismiss exactly when `CommitDecision` dismisses, which is also exactly when the intended dim mapping names the docked stack |
| DividerPolicy.PublishCall | packages/SystemUI/src/com/android/systemui/stackdivider/DividerView.java:463-498 | the publish always carries the docked region. With the sentinel it is `(docked, null, null, null, null)`, otherwise all four task and inset rectangles are present |
| DividerPolicy.ResizeCalls | packages/SystemUI/src/com/android/systemui/stackdivider/DividerView.java:452-505 | no call at all (not even the dim layer) exactly when the new docked region equals the last one. Otherwise one publish of that region and then one dim layer update, visible exactly when its alpha (the dim curve of the clamped dismissing fraction) is non-zero, and targeting the docked stack exactly when the closest dismiss target is dismiss-start and the dock is left/top (the mapping as written). Never a dismiss or maximize |
| DividerPolicy.FlingTarget | packages/SystemUI/src/com/android/systemui/stackdivider/DividerView.java:304-308 | the algorithm's target is kept unless dismiss-start is avoided and was picked, and then the first split target replaces it. An avoided fling never ends at dismiss-start |
| DividerPolicy.AnimationUpdatesNeverCommit | packages/SystemUI/src/com/android/systemui/stackdivider/DividerView.java:324-332 | no animation update ever dismisses or maximizes |
| DividerPolicy.AnimationStep | packages/SystemUI/src/com/android/systemui/stackdivider/DividerView.java:324-332 | one more frame appends exactly that frame's resize calls, made against the previous frame's docked region, which it then replaces as the last-resize rect |
| DividerPolicy.PublishedAppend | packages/SystemUI/src/com/android/systemui/stackdivider/DividerView.java:494-497 | the publishes of two call runs are the publishes of each, in order |
| DividerPolicy.PublishedPair | packages/SystemUI/src/com/android/systemui/stackdivider/DividerView.java:494-504 | a publish followed by a dim layer update publishes exactly that one docked region |
| DividerPolicy.NoRepeatSnoc | packages/SystemUI/src/com/android/systemui/stackdivider/DividerView.java:455-462 | appending a region that differs from the latest one keeps the publishes free of repeats |
| DividerPolicy.NoRepeatStep | packages/SystemUI/src/com/android/systemui/stackdivider/DividerView.java:455-462 | one guarded resize step keeps the publishes free of repeats and updates the latest published region |
| DividerPolicy.AnimationPublishesNoRepeats | packages/SystemUI/src/com/android/systemui/stackdivider/DividerView.java:452-462 | across a whole animation, no two consecutive publishes (nor the first one and the initial last-resize rect) carry the same docked region, and the latest publish is the last-resize rect left behind |
| DividerPolicy.TerminalCountAppend | packages/SystemUI/src/com/android/systemui/stackdivider/DividerView.java:333-339 | dismiss/maximize calls of two runs add up |
| DividerPolicy.TerminalCountNone | packages/SystemUI/src/com/android/systemui/stackdivider/DividerView.java:324-332 | a run without dismiss or maximize counts zero of them |
| DividerPolicy.FlingCommitsOnce | packages/SystemUI/src/com/android/systemui/stackdivider/DividerView.java:322-362 | a completed fling makes exactly one dismiss or maximize for a flagged target and none otherwise. Nothing is published after it, and the last call is `setResizing(false)` |
| Divider.DividerView.constructor | packages/SystemUI/src/com/android/systemui/stackdivider/DividerView.java:99-117 | a new divider is not dragging, and its seven rectangles are fresh, distinct and all empty (every edge 0) |
| Divider.DividerView.CalculateXPosition | packages/SystemUI/src/com/android/systemui/stackdivider/DividerView.java:425-427 | the position moves from the start position by exactly the horizontal travel since the drag start |
| Divider.DividerView.CalculateYPosition | packages/SystemUI/src/com/android/systemui/stackdivider/DividerView.java:429-431 | the position moves from the start position by exactly the vertical travel since the drag start |
| Divider.DividerView.ExceededTouchSlop | packages/SystemUI/src/com/android/systemui/stackdivider/DividerView.java:268-270 | true exactly when the travel along the active axis (Y for a horizontal division, X otherwise) exceeds the touch slop in either direction; never at the drag start itself |
| Divider.DividerView.CalculatePosition | packages/SystemUI/src/com/android/systemui/stackdivider/DividerView.java:417-431 | the position is the start position plus the touch's travel along Y for a horizontal division and along X otherwise |
| Divider.DividerView.CalculateBoundsForPosition | packages/SystemUI/src/com/android/systemui/stackdivider/DividerView.java:447-450 | the out rectangle becomes the bounds for the position and side |
| Divider.DividerView.AlignTopLeft | packages/SystemUI/src/com/android/systemui/stackdivider/DividerView.java:433-438 | rewrites the rectangle in place to `AlignedTopLeft` of the container and its old value |
| Divider.DividerView.AlignBottomRight | packages/SystemUI/src/com/android/systemui/stackdivider/DividerView.java:440-445 | rewrites the rectangle in place to `AlignedBottomRight` of the container and its old value |
| Divider.DividerView.ApplyDismissingParallax | packages/SystemUI/src/com/android/systemui/stackdivider/DividerView.java:571-614 | rewrites the task rectangle in place to `DismissingParallax` of its old value |
| Divider.DividerView.LayoutTaskRects | packages/SystemUI/src/com/android/systemui/stackdivider/DividerView.java:463-493 | the other region becomes the bounds for the inverted side, and the task and inset rectangles become `ComputeTaskRects` |
| Divider.DividerView.UpdateDimLayer | packages/SystemUI/src/com/android/systemui/stackdivider/DividerView.java:499-504 | the log grows by exactly one `DimLayerUpdate` for the position and the current dock side, whose target stack follows getStackIdForDismissTarget as written |
| Divider.DividerView.ResizeStack | packages/SystemUI/src/com/android/systemui/stackdivider/DividerView.java:452-505 | the docked and last-resize rectangles become the bounds for the position. The log grows by exactly `ResizeCalls`. When nothing is published, or for the sentinel, the other five rectangles are unchanged. Otherwise the other region is the bounds for the inverted side, and the task and inset rectangles are `ComputeTaskRects` |
| Divider.DividerView.StartDragging | packages/SystemUI/src/com/android/systemui/stackdivider/DividerView.java:200-216 | adopts the reported dock side. It returns false exactly when that side is invalid, and logs `setResizing(true)` exactly when it returns true |
| Divider.DividerView.Fling | packages/SystemUI/src/com/android/systemui/stackdivider/DividerView.java:304-312 | the animation runs from the release position to `FlingTarget` |
| Divider.DividerView.StopDragging | packages/SystemUI/src/com/android/systemui/stackdivider/DividerView.java:218-223 | the release flings from the position to `FlingTarget` |
| Divider.DividerView.StopDraggingTo | packages/SystemUI/src/com/android/systemui/stackdivider/DividerView.java:225-231 | the animation runs from the position to the given target |
| Divider.DividerView.OnTouch | packages/SystemUI/src/com/android/systemui/stackdivider/DividerView.java:250-298 | DOWN records the start, clears moving and returns whether a drag started. MOVE sets moving exactly when it already was or the active-axis travel strictly exceeds the slop; at that moment the start is re-based to the touch, so the position equals the start position. MOVE resizes (exactly `ResizeCalls` toward the algorithm's target, leaving the docked and last-resize rectangles at the bounds for the touch position) only while moving with a valid dock side, and otherwise changes no rectangle and logs nothing. UP/CANCEL fling from the release position, clear moving and log nothing. Every action but DOWN returns true |
| Divider.DividerView.TouchDown | packages/SystemUI/src/com/android/systemui/stackdivider/DividerView.java:255-263 | records the touch as the start and the current position as the start position, clears moving, and returns whether a stack is docked (logging `setResizing(true)` exactly then) |
| Divider.DividerView.TouchMove | packages/SystemUI/src/com/android/systemui/stackdivider/DividerView.java:264-282 | moving becomes true exactly when it was or the travel strictly exceeds the slop, re-basing the start only at that moment. It resizes (exactly `ResizeCalls`, leaving the docked and last-resize rectangles at the bounds for the touch position) only while moving with a valid dock side, and otherwise logs nothing and changes no rectangle |
| Divider.DividerView.TouchRelease | packages/SystemUI/src/com/android/systemui/stackdivider/DividerView.java:283-295 | flings from the release position to `FlingTarget` (dismiss-start not avoided) and clears moving |
| Divider.DividerView.CommitSnapFlags | packages/SystemUI/src/com/android/systemui/stackdivider/DividerView.java:344-362 | the log grows by exactly `CommitCalls` for the target's flag and the current dock side |
| Divider.DividerView.OnAnimationUpdate | packages/SystemUI/src/com/android/systemui/stackdivider/DividerView.java:326-331 | resizes at the animated value, with the sentinel task position exactly on the frame at fraction 1 |
| Divider.DividerView.OnAnimationEnd | packages/SystemUI/src/com/android/systemui/stackdivider/DividerView.java:335-339 | commits first, then logs `setResizing(false)`, then the dock side becomes invalid |
| Divider.DividerView.RunAnimationUpdates | packages/SystemUI/src/com/android/systemui/stackdivider/DividerView.java:324-332 | after the update listener for every frame, the log has grown by exactly `AnimationCalls` and the last-resize rect is the last frame's region |
| Divider.DividerView.RunFlingAnimation | packages/SystemUI/src/com/android/systemui/stackdivider/DividerView.java:322-342 | after every update and the end, the log has grown by exactly `FlingCalls`, the last-resize rect is the last frame's region, and the dock side is invalid |

## Left out

- View inflation, pointer icons, the handle's touching state, `liftBackground`/`releaseBackground`, `setSlippery`, `onComputeInternalInsets` and the window insets: framework plumbing with no logic to state. The `animate` and `touching` arguments of `StartDragging` are kept but only drive such cosmetics.
- `updateDisplayInfo`, `onConfigurationChanged` and the lazy creation in `getSnapAlgorithm`: display size and snap algorithm are fixed configuration.
- `getCurrentPosition` (a screen-location lookup) is a parameter of `OnTouch`, and the `VelocityTracker` velocity along the active axis is a parameter too.
- The `(int)` casts of touch coordinates: `MotionEvent` reports float coordinates, which the source truncates with `(int)` on DOWN, MOVE and UP/CANCEL. The model's `MotionEvent` carries the coordinates after that cast.
- `FlingAnimationUtils` durations, interpolators and `ValueAnimator` scheduling: an animation is a sequence of update frames followed by one end call. The frame values are inputs.
- Animations overlapping with each other or with touch input: each method runs to completion.
- The three `onBusEvent` handlers (recents events): they rely on `getCurrentPosition` and the recents lifecycle. The `stopDragging` overload they call is modelled (`StopDraggingTo`).
- `DockedDividerUtils.calculateBoundsForPosition`, `DividerSnapAlgorithm` and the two path interpolators are not part of this model. They are function-typed fields with the stated assumptions only: targets strictly increasing, landmark targets ordered, oracles returning valid targets.
- DividerPolicy.TruncateToInt: does not model saturation of the `(int)` cast beyond the 32-bit range, because ints are unbounded.
- Divider.DividerView.CalculatePosition: does not model 32-bit wrap-around of the position arithmetic, because positions stay within the display.
- DividerPolicy.MinimizeHoles: float division and comparison are exact real arithmetic, with division by zero as +Infinity for a positive numerator. Float rounding is not modelled.
- DividerPolicy.ParallaxFraction, DividerPolicy.DismissingParallax, DividerPolicy.DimLayerUpdate: the `/ 3.5f` damping, the `fraction * (dismiss - split)` product and the dim alpha are exact real arithmetic. Float rounding is not modelled, so the truncated parallax offset can differ by one from the source's at integer boundaries.
- Divider.DividerView.constructor: Java starts `mDockSide` at 0, which is not a named dock side. The model starts at `Invalid`. Only the `mDockSide != DOCKED_INVALID` test of a MOVE tells the two apart, and a MOVE before any DOWN would fail in Java (no velocity tracker yet), so the difference is never observable.

## Findings

| source | as written | input that shows it | evidently intended | confidence | as-written member | corrected member |
|---|---|---|---|---|---|---|
| packages/SystemUI/src/com/android/systemui/stackdivider/DividerView.java:632-639 | only dismiss-start with a left/top dock dims the docked stack; every other case dims the fullscreen stack | dock side RIGHT (or BOTTOM), divider dragged towards the dismiss-end target: the dim layer darkens the fullscreen stack, but `commitSnapFlags` then dismisses the docked stack | dim the stack that committing the target dismisses, so dismiss-end with a right/bottom dock also dims the docked stack | medium, not executed | DividerPolicy.DimTargetMismatchAsWritten | DividerPolicy.StackIdForDismissTarget |

The model's `resizeStack` (`DimLayerUpdate`, `ResizeCalls`, `Divider.DividerView.UpdateDimLayer`) keeps the mapping as written, `StackIdForDismissTargetAsWritten`; the corrected `StackIdForDismissTarget` is proved to agree with the commit decision and to differ only in the case above.
