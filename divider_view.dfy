/**
 * The divider view itself (DividerView.java): the touch state machine that turns a drag into
 * divider positions, resizeStack which lays out and publishes the seven rectangles it owns,
 * and the fling animation whose updates resize and whose end commits the snap target.
 */
module Divider {
  import opened Optional
  import opened Rects
  import opened WindowManager
  import opened Snap
  import opened DividerPolicy

  /** MotionEvent.getAction() & ACTION_MASK, with every action the divider ignores folded into one. */
  datatype MotionAction = ActionDown | ActionMove | ActionUp | ActionCancel | ActionOther

  /** A touch event in screen coordinates (convertToScreenCoordinates has already been applied). */
  datatype MotionEvent = MotionEvent(action: MotionAction, rawX: int, rawY: int)

  function Abs(n: int): (a: nat)
    ensures a == n || a == -n
  {
    if n < 0 then -n else n
  }

  class DividerView {
    const cfg: DividerConfig
    const proxy: WindowManagerProxy

    /** mStartX, mStartY: where the drag started (re-based when it crosses the touch slop). */
    var startX: int
    var startY: int
    /** mStartPosition: the divider position when the finger went down. */
    var startPosition: int
    /** mDockSide: the side of the docked stack while a drag or fling is in progress. */
    var dockSide: DockSide
    /** mMoving: the finger has moved past the touch slop since it went down. */
    var moving: bool

    const dockedRect: Rect
    const dockedTaskRect: Rect
    const otherTaskRect: Rect
    const otherRect: Rect
    const dockedInsetRect: Rect
    const otherInsetRect: Rect
    const lastResizeRect: Rect

    /** The snap algorithm is well formed and the seven rectangles are seven distinct objects. */
    ghost predicate Valid()
    {
      cfg.Valid() &&
      dockedRect != dockedTaskRect && dockedRect != otherTaskRect && dockedRect != otherRect &&
      dockedRect != dockedInsetRect && dockedRect != otherInsetRect && dockedRect != lastResizeRect &&
      dockedTaskRect != otherTaskRect && dockedTaskRect != otherRect && dockedTaskRect != dockedInsetRect &&
      dockedTaskRect != otherInsetRect && dockedTaskRect != lastResizeRect &&
      otherTaskRect != otherRect && otherTaskRect != dockedInsetRect && otherTaskRect != otherInsetRect &&
      otherTaskRect != lastResizeRect &&
      otherRect != dockedInsetRect && otherRect != otherInsetRect && otherRect != lastResizeRect &&
      dockedInsetRect != otherInsetRect && dockedInsetRect != lastResizeRect &&
      otherInsetRect != lastResizeRect
    }

    /** A fresh divider: no drag in progress and every rectangle empty. */
    constructor (cfg: DividerConfig, proxy: WindowManagerProxy)
      requires cfg.Valid()
      ensures Valid() && this.cfg == cfg && this.proxy == proxy
      ensures dockSide == Invalid && !moving
      ensures startX == 0 && startY == 0 && startPosition == 0
      ensures lastResizeRect.Value() == Box(0, 0, 0, 0) && dockedRect.Value() == Box(0, 0, 0, 0)
      ensures dockedTaskRect.Value() == Box(0, 0, 0, 0) && otherTaskRect.Value() == Box(0, 0, 0, 0)
      ensures otherRect.Value() == Box(0, 0, 0, 0)
      ensures dockedInsetRect.Value() == Box(0, 0, 0, 0) && otherInsetRect.Value() == Box(0, 0, 0, 0)
      ensures fresh(dockedRect) && fresh(dockedTaskRect) && fresh(otherTaskRect) && fresh(otherRect) &&
              fresh(dockedInsetRect) && fresh(otherInsetRect) && fresh(lastResizeRect)
    {
      this.cfg := cfg;
      this.proxy := proxy;
      startX, startY, startPosition := 0, 0, 0;
      dockSide := Invalid;
      moving := false;
      dockedRect := new Rect();
      dockedTaskRect := new Rect();
      otherTaskRect := new Rect();
      otherRect := new Rect();
      dockedInsetRect := new Rect();
      otherInsetRect := new Rect();
      lastResizeRect := new Rect();
    }

    // ------------------------------------------------------------ position resolution

    /** calculateXPosition: the start position moved by the horizontal travel since the drag start. */
    function CalculateXPosition(touchX: int): (p: int)
      reads this`startPosition, this`startX
      ensures p - startPosition == touchX - startX
      ensures touchX == startX ==> p == startPosition
    {
      startPosition + touchX - startX
    }

    /** calculateYPosition: the start position moved by the vertical travel since the drag start. */
    function CalculateYPosition(touchY: int): (p: int)
      reads this`startPosition, this`startY
      ensures p - startPosition == touchY - startY
      ensures touchY == startY ==> p == startPosition
    {
      startPosition + touchY - startY
    }

    /**
     * calculatePosition: the start position moved by the touch's travel along the axis that
     * crosses the divider (Y for a horizontal division, X otherwise); the other axis is ignored.
     */
    function CalculatePosition(touchX: int, touchY: int): (p: int)
      reads this`startPosition, this`startX, this`startY
      ensures cfg.horizontalDivision ==> p - startPosition == touchY - startY
      ensures !cfg.horizontalDivision ==> p - startPosition == touchX - startX
    {
      if cfg.horizontalDivision then CalculateYPosition(touchY) else CalculateXPosition(touchX)
    }

    /** The active-axis travel since the drag start strictly exceeds the touch slop. */
    predicate ExceededTouchSlop(x: int, y: int): (e: bool)
      reads this`startX, this`startY
      ensures cfg.horizontalDivision ==> (e <==> y - startY > cfg.touchSlop || startY - y > cfg.touchSlop)
      ensures !cfg.horizontalDivision ==> (e <==> x - startX > cfg.touchSlop || startX - x > cfg.touchSlop)
      ensures x == startX && y == startY && cfg.touchSlop >= 0 ==> !e
    {
      (cfg.horizontalDivision && Abs(y - startY) > cfg.touchSlop) ||
      (!cfg.horizontalDivision && Abs(x - startX) > cfg.touchSlop)
    }

    // ------------------------------------------------------------ rectangle primitives

    /** calculateBoundsForPosition(position, dockSide, outRect) */
    method CalculateBoundsForPosition(position: int, side: DockSide, outRect: Rect)
      modifies outRect
      ensures outRect.Value() == BoundsFor(cfg, position, side)
    {
      outRect.SetFrom(BoundsFor(cfg, position, side));
    }

    /** alignTopLeft: the rectangle keeps its size and moves into the container's top-left corner. */
    method AlignTopLeft(containingRect: Rect, rect: Rect)
      modifies rect
      ensures rect.Value() == AlignedTopLeft(old(containingRect.Value()), old(rect.Value()))
    {
      var width := rect.right - rect.left;
      var height := rect.bottom - rect.top;
      rect.Set(containingRect.left, containingRect.top,
               containingRect.left + width, containingRect.top + height);
    }

    /** alignBottomRight: the rectangle keeps its size and moves into the container's bottom-right corner. */
    method AlignBottomRight(containingRect: Rect, rect: Rect)
      modifies rect
      ensures rect.Value() == AlignedBottomRight(old(containingRect.Value()), old(rect.Value()))
    {
      var width := rect.right - rect.left;
      var height := rect.bottom - rect.top;
      rect.Set(containingRect.right - width, containingRect.bottom - height,
               containingRect.right, containingRect.bottom);
    }

    /** applyDismissingParallax, rewriting the task rectangle in place. */
    method ApplyDismissingParallax(taskRect: Rect, side: DockSide, target: nat, position: int,
                                   taskPosition: int)
      requires cfg.Valid() && target < |cfg.snap.targets|
      modifies taskRect
      ensures taskRect.Value() == DismissingParallax(cfg, old(taskRect.Value()), side, target, position,
                                                     taskPosition)
    {
      var fraction := Clamp01(cfg.snap.dismissingFraction(position));
      var pair := ParallaxTargetsFor(cfg.snap, side, target);
      if pair.Some? && fraction > 0.0 && IsDismissing(cfg.snap.Position(pair.value.split), position, side) {
        var offsetPosition := ParallaxOffset(cfg, side, target, position, taskPosition);
        var width := taskRect.right - taskRect.left;
        var height := taskRect.bottom - taskRect.top;
        match side {
          case Left =>
            taskRect.left := offsetPosition - width;
            taskRect.right := offsetPosition;
          case Right =>
            taskRect.left := offsetPosition + cfg.dividerSize;
            taskRect.right := offsetPosition + width + cfg.dividerSize;
          case Top =>
            taskRect.top := offsetPosition - height;
            taskRect.bottom := offsetPosition;
          case Bottom =>
            taskRect.top := offsetPosition + cfg.dividerSize;
            taskRect.bottom := offsetPosition + height + cfg.dividerSize;
          case Invalid =>
        }
      }
    }

    // ------------------------------------------------------------ resizeStack

    /**
     * The full branch of resizeStack: lays out the other region, then each task at its own
     * restricted and hole-minimized task position, aligned into its region, with its inset copy
     * in the region's outer corner and the dismiss parallax applied to the task.
     */
    method LayoutTaskRects(position: int, taskPosition: int, target: nat)
      requires Valid() && target < |cfg.snap.targets|
      requires dockedRect.Value() == BoundsFor(cfg, position, dockSide)
      modifies otherRect, dockedTaskRect, otherTaskRect, dockedInsetRect, otherInsetRect
      ensures otherRect.Value() == BoundsFor(cfg, position, InvertDockSide(dockSide))
      ensures TaskRects(dockedTaskRect.Value(), dockedInsetRect.Value(), otherTaskRect.Value(),
                        otherInsetRect.Value()) ==
              ComputeTaskRects(cfg, position, taskPosition, dockSide, target)
    {
      var dockSideInverted := InvertDockSide(dockSide);
      CalculateBoundsForPosition(position, dockSideInverted, otherRect);
      var taskPositionDocked := RestrictDismissingTaskPosition(cfg.snap, taskPosition, dockSide, target);
      var taskPositionOther := RestrictDismissingTaskPosition(cfg.snap, taskPosition, dockSideInverted, target);
      taskPositionDocked := MinimizeHoles(cfg.snap, position, taskPositionDocked, dockSide, target);
      taskPositionOther := MinimizeHoles(cfg.snap, position, taskPositionOther, dockSideInverted, target);
      CalculateBoundsForPosition(taskPositionDocked, dockSide, dockedTaskRect);
      CalculateBoundsForPosition(taskPositionOther, dockSideInverted, otherTaskRect);
      AlignTopLeft(dockedRect, dockedTaskRect);
      AlignTopLeft(otherRect, otherTaskRect);
      dockedInsetRect.SetFrom(dockedTaskRect.Value());
      otherInsetRect.SetFrom(otherTaskRect.Value());
      if DockSideTopLeft(dockSide) {
        AlignTopLeft(dockedRect, dockedInsetRect);
        AlignBottomRight(otherRect, otherInsetRect);
      } else {
        AlignBottomRight(dockedRect, dockedInsetRect);
        AlignTopLeft(otherRect, otherInsetRect);
      }
      ApplyDismissingParallax(dockedTaskRect, dockSide, target, position, taskPositionDocked);
      ApplyDismissingParallax(otherTaskRect, dockSideInverted, target, position, taskPositionOther);
    }

    /**
     * resizeStack: computes the docked region for the position; when it equals the last
     * published one nothing else happens. Otherwise it is remembered, and either only the
     * divider region is published (sentinel task position) or all five rectangles are laid
     * out and published; a dim layer update follows either publish.
     */
    method ResizeStack(position: int, taskPosition: TaskPosition, target: nat)
      requires Valid() && target < |cfg.snap.targets|
      modifies dockedRect, dockedTaskRect, otherTaskRect, otherRect, dockedInsetRect, otherInsetRect, lastResizeRect, proxy`log
      ensures dockedRect.Value() == BoundsFor(cfg, position, dockSide)
      ensures lastResizeRect.Value() == BoundsFor(cfg, position, dockSide)
      ensures proxy.log == old(proxy.log) +
                ResizeCalls(cfg, dockSide, position, taskPosition, target, old(lastResizeRect.Value()))
      ensures BoundsFor(cfg, position, dockSide) == old(lastResizeRect.Value()) || taskPosition.Same? ==>
                unchanged(dockedTaskRect, otherTaskRect, otherRect, dockedInsetRect, otherInsetRect)
      ensures BoundsFor(cfg, position, dockSide) != old(lastResizeRect.Value()) && taskPosition.At? ==>
                otherRect.Value() == BoundsFor(cfg, position, InvertDockSide(dockSide)) &&
                TaskRects(dockedTaskRect.Value(), dockedInsetRect.Value(), otherTaskRect.Value(),
                          otherInsetRect.Value()) ==
                ComputeTaskRects(cfg, position, taskPosition.position, dockSide, target)
    {
      CalculateBoundsForPosition(position, dockSide, dockedRect);
      var same := dockedRect.Equals(lastResizeRect);
      if same {
        return;
      }
      lastResizeRect.SetFrom(dockedRect.Value());
      if taskPosition.At? {
        LayoutTaskRects(position, taskPosition.position, target);
        proxy.ResizeDockedStack(dockedRect.Value(), Some(dockedTaskRect.Value()), Some(dockedInsetRect.Value()),
                                Some(otherTaskRect.Value()), Some(otherInsetRect.Value()));
      } else {
        proxy.ResizeDockedStack(dockedRect.Value(), None, None, None, None);
      }
      UpdateDimLayer(position);
    }

    /** The end of resizeStack: dim the stack getStackIdForDismissTarget names for the closest dismiss target. */
    method UpdateDimLayer(position: int)
      requires cfg.Valid()
      modifies proxy`log
      ensures proxy.log == old(proxy.log) + [DimLayerUpdate(cfg, dockSide, position)]
    {
      var fraction := Clamp01(cfg.snap.dismissingFraction(position));
      fraction := cfg.dimCurve(fraction);
      var dismissTarget := cfg.snap.closestDismissTarget(position);
      proxy.SetResizeDimLayer(fraction != 0.0, StackIdForDismissTargetAsWritten(cfg.snap.Flag(dismissTarget), dockSide),
                              fraction);
    }

    // ------------------------------------------------------------ dragging

    /**
     * startDragging: adopts the dock side the window manager reports; succeeds, and tells the
     * window manager that resizing starts, exactly when a stack is docked.
     */
    method StartDragging(animate: bool, touching: bool) returns (ok: bool)
      modifies this`dockSide, proxy`log
      ensures dockSide == proxy.dockSide
      ensures ok <==> proxy.dockSide != Invalid
      ensures proxy.log == old(proxy.log) + (if ok then [ResizingCall(true)] else [])
    {
      dockSide := proxy.GetDockSide();
      if dockSide != Invalid {
        proxy.SetResizing(true);
        ok := true;
      } else {
        ok := false;
      }
    }

    /** fling: starts an animation from the release position to the chosen snap target. */
    method Fling(position: int, velocity: real, avoidDismissStart: bool) returns (anim: FlingAnimation)
      requires cfg.Valid()
      ensures anim.from == position && anim.target < |cfg.snap.targets|
      ensures avoidDismissStart ==> anim.target != cfg.snap.dismissStart
      ensures anim.target == FlingTarget(cfg.snap, position, velocity, avoidDismissStart)
    {
      var snapTarget := cfg.snap.flingTargetFor(position, velocity);
      if avoidDismissStart && snapTarget == cfg.snap.dismissStart {
        snapTarget := cfg.snap.firstSplit;
      }
      anim := FlingAnimation(position, snapTarget);
    }

    /** stopDragging(position, velocity, avoidDismissStart): the release flings to a snap target. */
    method StopDragging(position: int, velocity: real, avoidDismissStart: bool) returns (anim: FlingAnimation)
      requires cfg.Valid()
      ensures anim.from == position && anim.target < |cfg.snap.targets|
      ensures avoidDismissStart ==> anim.target != cfg.snap.dismissStart
      ensures anim.target == FlingTarget(cfg.snap, position, velocity, avoidDismissStart)
    {
      anim := Fling(position, velocity, avoidDismissStart);
    }

    /** stopDragging(position, target, ...): flingTo a given target, whatever the algorithm would pick. */
    method StopDraggingTo(position: int, target: nat) returns (anim: FlingAnimation)
      requires cfg.Valid() && target < |cfg.snap.targets|
      ensures anim.from == position && anim.target == target
    {
      anim := FlingAnimation(position, target);
    }

    /**
     * onTouch. DOWN records the start of the drag, asks the window manager for the dock side
     * and reports whether a drag started. MOVE turns into a drag once the active-axis travel
     * exceeds the touch slop (re-basing the start at that point) and, while dragging with a
     * valid dock side, resizes at the touch position towards the algorithm's snap target. UP
     * and CANCEL fling from the release position and end the drag. The velocity along the
     * active axis, and the divider's current screen position, are supplied by the caller.
     */
    method OnTouch(event: MotionEvent, currentPosition: int, velocity: real)
      returns (handled: bool, anim: Option<FlingAnimation>)
      requires Valid()
      modifies this, dockedRect, dockedTaskRect, otherTaskRect, otherRect, dockedInsetRect, otherInsetRect, lastResizeRect, proxy`log
      ensures event.action == ActionDown ==>
                startX == event.rawX && startY == event.rawY && startPosition == currentPosition &&
                !moving && dockSide == proxy.dockSide && anim == None &&
                (handled <==> proxy.dockSide != Invalid) &&
                proxy.log == old(proxy.log) + (if handled then [ResizingCall(true)] else []) &&
                unchanged(dockedRect, dockedTaskRect, otherTaskRect, otherRect, dockedInsetRect, otherInsetRect, lastResizeRect)
      ensures event.action != ActionDown ==>
                handled && startPosition == old(startPosition) && dockSide == old(dockSide)
      ensures event.action == ActionMove ==>
                anim == None &&
                moving == (old(moving) || old(ExceededTouchSlop(event.rawX, event.rawY))) &&
                (!old(moving) && moving ==>
                   startX == event.rawX && startY == event.rawY &&
                   CalculatePosition(event.rawX, event.rawY) == startPosition) &&
                (old(moving) || !moving ==> startX == old(startX) && startY == old(startY))
      ensures event.action == ActionMove && moving && dockSide != Invalid ==>
                var position := CalculatePosition(event.rawX, event.rawY);
                var target := cfg.snap.snapTargetFor(position, 0.0, false);
                target < |cfg.snap.targets| &&
                proxy.log == old(proxy.log) +
                  ResizeCalls(cfg, dockSide, position, At(cfg.snap.Position(target)), target,
                              old(lastResizeRect.Value())) &&
                dockedRect.Value() == BoundsFor(cfg, position, dockSide) &&
                lastResizeRect.Value() == BoundsFor(cfg, position, dockSide)
      ensures event.action == ActionMove && !(moving && dockSide != Invalid) ==>
                proxy.log == old(proxy.log) && unchanged(dockedRect, dockedTaskRect, otherTaskRect, otherRect, dockedInsetRect, otherInsetRect, lastResizeRect)
      ensures event.action == ActionUp || event.action == ActionCancel ==>
                !moving && startX == old(startX) && startY == old(startY) &&
                anim == Some(FlingAnimation(CalculatePosition(event.rawX, event.rawY),
                                            FlingTarget(cfg.snap, CalculatePosition(event.rawX, event.rawY),
                                                        velocity, false))) &&
                proxy.log == old(proxy.log) && unchanged(dockedRect, dockedTaskRect, otherTaskRect, otherRect, dockedInsetRect, otherInsetRect, lastResizeRect)
      ensures event.action == ActionOther ==>
                anim == None && unchanged(this) && proxy.log == old(proxy.log) && unchanged(dockedRect, dockedTaskRect, otherTaskRect, otherRect, dockedInsetRect, otherInsetRect, lastResizeRect)
    {
      anim := None;
      handled := true;
      match event.action {
        case ActionDown =>
          handled := TouchDown(event.rawX, event.rawY, currentPosition);
        case ActionMove =>
          TouchMove(event.rawX, event.rawY);
        case ActionUp =>
          var a := TouchRelease(event.rawX, event.rawY, velocity);
          anim := Some(a);
        case ActionCancel =>
          var a := TouchRelease(event.rawX, event.rawY, velocity);
          anim := Some(a);
        case ActionOther =>
      }
    }

    /** ACTION_DOWN: record the start of the drag and try to start dragging. */
    method TouchDown(x: int, y: int, currentPosition: int) returns (result: bool)
      modifies this`startX, this`startY, this`startPosition, this`moving, this`dockSide, proxy`log
      ensures startX == x && startY == y && startPosition == currentPosition && !moving
      ensures dockSide == proxy.dockSide
      ensures result <==> proxy.dockSide != Invalid
      ensures proxy.log == old(proxy.log) + (if result then [ResizingCall(true)] else [])
    {
      startX := x;
      startY := y;
      result := StartDragging(true, true);
      startPosition := currentPosition;
      moving := false;
    }

    /**
     * ACTION_MOVE: crossing the touch slop starts the drag and re-bases the start on this
     * touch; while dragging with a valid dock side, resize towards the algorithm's snap target.
     */
    method TouchMove(x: int, y: int)
      requires Valid()
      modifies this`startX, this`startY, this`moving, dockedRect, dockedTaskRect, otherTaskRect, otherRect, dockedInsetRect, otherInsetRect, lastResizeRect, proxy`log
      ensures moving == (old(moving) || old(ExceededTouchSlop(x, y)))
      ensures !old(moving) && moving ==> startX == x && startY == y && CalculatePosition(x, y) == startPosition
      ensures old(moving) || !moving ==> startX == old(startX) && startY == old(startY)
      ensures moving && dockSide != Invalid ==>
                var position := CalculatePosition(x, y);
                var target := cfg.snap.snapTargetFor(position, 0.0, false);
                target < |cfg.snap.targets| &&
                proxy.log == old(proxy.log) +
                  ResizeCalls(cfg, dockSide, position, At(cfg.snap.Position(target)), target,
                              old(lastResizeRect.Value()))
      ensures moving && dockSide != Invalid ==>
                dockedRect.Value() == BoundsFor(cfg, CalculatePosition(x, y), dockSide) &&
                lastResizeRect.Value() == BoundsFor(cfg, CalculatePosition(x, y), dockSide)
      ensures !(moving && dockSide != Invalid) ==> proxy.log == old(proxy.log) && unchanged(dockedRect, dockedTaskRect, otherTaskRect, otherRect, dockedInsetRect, otherInsetRect, lastResizeRect)
    {
      var exceededTouchSlop := ExceededTouchSlop(x, y);
      if !moving && exceededTouchSlop {
        startX := x;
        startY := y;
        moving := true;
      }
      if moving && dockSide != Invalid {
        var position := CalculatePosition(x, y);
        var snapTarget := cfg.snap.snapTargetFor(position, 0.0, false);
        ResizeStack(CalculatePosition(x, y), At(cfg.snap.Position(snapTarget)), snapTarget);
      }
    }

    /** ACTION_UP and ACTION_CANCEL: fling from the release position and end the drag. */
    method TouchRelease(x: int, y: int, velocity: real) returns (anim: FlingAnimation)
      requires cfg.Valid()
      modifies this`moving
      ensures !moving
      ensures anim == FlingAnimation(CalculatePosition(x, y), FlingTarget(cfg.snap, CalculatePosition(x, y), velocity, false))
    {
      var position := CalculatePosition(x, y);
      anim := StopDragging(position, velocity, false);
      moving := false;
    }

    // ------------------------------------------------------------ fling animation and commit

    /**
     * commitSnapFlags: nothing for an unflagged target; otherwise dismiss or maximize the
     * docked stack as the flag and dock side decide, then hide the dim layer.
     */
    method CommitSnapFlags(target: nat)
      requires cfg.Valid() && target < |cfg.snap.targets|
      modifies proxy`log
      ensures proxy.log == old(proxy.log) + CommitCalls(cfg.snap.Flag(target), dockSide)
    {
      var flag := cfg.snap.Flag(target);
      if flag == FlagNone {
        return;
      }
      var dismissOrMaximize;
      if flag == FlagDismissStart {
        dismissOrMaximize := dockSide == Left || dockSide == Top;
      } else {
        dismissOrMaximize := dockSide == Right || dockSide == Bottom;
      }
      if dismissOrMaximize {
        proxy.DismissDockedStack();
      } else {
        proxy.MaximizeDockedStack();
      }
      proxy.SetResizeDimLayer(false, InvalidStackId, 0.0);
    }

    /** The animator's update listener: resize at the animated value, the sentinel on the last frame. */
    method OnAnimationUpdate(anim: FlingAnimation, frame: AnimationFrame)
      requires Valid() && anim.target < |cfg.snap.targets|
      modifies dockedRect, dockedTaskRect, otherTaskRect, otherRect, dockedInsetRect, otherInsetRect, lastResizeRect, proxy`log
      ensures lastResizeRect.Value() == BoundsFor(cfg, frame.value, dockSide)
      ensures proxy.log == old(proxy.log) +
                ResizeCalls(cfg, dockSide, frame.value, FrameTaskPosition(cfg.snap, anim, frame), anim.target,
                            old(lastResizeRect.Value()))
    {
      ResizeStack(frame.value, FrameTaskPosition(cfg.snap, anim, frame), anim.target);
    }

    /** The animator's end listener: commit the target, stop resizing, forget the dock side. */
    method OnAnimationEnd(anim: FlingAnimation)
      requires cfg.Valid() && anim.target < |cfg.snap.targets|
      modifies this`dockSide, proxy`log
      ensures dockSide == Invalid
      ensures proxy.log == old(proxy.log) + CommitCalls(cfg.snap.Flag(anim.target), old(dockSide)) +
                [ResizingCall(false)]
    {
      CommitSnapFlags(anim.target);
      proxy.SetResizing(false);
      dockSide := Invalid;
    }

    /** The update listener called for each frame of a fling animation, in order. */
    method RunAnimationUpdates(anim: FlingAnimation, frames: seq<AnimationFrame>)
      requires Valid() && anim.target < |cfg.snap.targets|
      modifies dockedRect, dockedTaskRect, otherTaskRect, otherRect, dockedInsetRect, otherInsetRect, lastResizeRect, proxy`log
      ensures lastResizeRect.Value() == LastResizeAfter(cfg, dockSide, frames, old(lastResizeRect.Value()))
      ensures proxy.log == old(proxy.log) + AnimationCalls(cfg, dockSide, anim, frames, old(lastResizeRect.Value()))
    {
      var i := 0;
      while i < |frames|
        invariant 0 <= i <= |frames|
        invariant lastResizeRect.Value() == LastResizeAfter(cfg, dockSide, frames[..i], old(lastResizeRect.Value()))
        invariant proxy.log == old(proxy.log) +
                    AnimationCalls(cfg, dockSide, anim, frames[..i], old(lastResizeRect.Value()))
      {
        AnimationStep(cfg, dockSide, anim, frames, i, old(lastResizeRect.Value()));
        OnAnimationUpdate(anim, frames[i]);
        i := i + 1;
      }
      assert frames[..|frames|] == frames;
    }

    /**
     * A whole fling animation run to completion: the update listener for each frame in order,
     * then the end listener.
     */
    method RunFlingAnimation(anim: FlingAnimation, frames: seq<AnimationFrame>)
      requires Valid() && anim.target < |cfg.snap.targets|
      modifies this`dockSide, dockedRect, dockedTaskRect, otherTaskRect, otherRect, dockedInsetRect, otherInsetRect, lastResizeRect, proxy`log
      ensures dockSide == Invalid
      ensures lastResizeRect.Value() == LastResizeAfter(cfg, old(dockSide), frames, old(lastResizeRect.Value()))
      ensures proxy.log == old(proxy.log) + FlingCalls(cfg, old(dockSide), anim, frames, old(lastResizeRect.Value()))
    {
      RunAnimationUpdates(anim, frames);
      OnAnimationEnd(anim);
    }
  }
}
