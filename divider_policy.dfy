/**
 * The expression-only decisions of the docked-stack divider (DividerView.java): how a task
 * position is restricted and advanced while dragging, where the dismiss parallax puts a task
 * rectangle, how task and inset rectangles are aligned, which stack the dim layer targets,
 * which terminal call a snap target commits, and which calls one resize or one fling
 * animation publishes. Everything here is a pure function of its arguments.
 */
module DividerPolicy {
  import opened Optional
  import opened Rects
  import opened WindowManager
  import opened Snap

  /** SWITCH_FULLSCREEN_FRACTION: progress towards a dismiss target at which the task jumps to it. */
  const SWITCH_FULLSCREEN_FRACTION: real := 0.12
  /** BOTTOM_RIGHT_SWITCH_BIGGER_FRACTION: the same, for a bottom/right task moving to a bigger split. */
  const BOTTOM_RIGHT_SWITCH_BIGGER_FRACTION: real := 0.2
  /** The divisor calculateParallaxDismissingFraction damps the parallax fraction by. */
  const PARALLAX_DAMPING: real := 3.5

  /**
   * What the divider reads but never changes while dragging: orientation, touch slop, display
   * and divider size, the snap algorithm, and the collaborators whose source is not modelled —
   * DockedDividerUtils.calculateBoundsForPosition and the two path interpolators.
   */
  datatype DividerConfig = DividerConfig(
    horizontalDivision: bool,
    touchSlop: int,
    displayWidth: int,
    displayHeight: int,
    dividerSize: int,
    snap: SnapAlgorithm,
    bounds: (int, DockSide, int, int, int) -> Box,
    slowdown: real -> real,
    dimCurve: real -> real)
  {
    ghost predicate Valid() { snap.Valid() }
  }

  /** calculateBoundsForPosition(position, dockSide, outRect) */
  function BoundsFor(cfg: DividerConfig, position: int, side: DockSide): Box
  {
    cfg.bounds(position, side, cfg.displayWidth, cfg.displayHeight, cfg.dividerSize)
  }

  // ---------------------------------------------------------------- dock sides

  /** dockSideTopLeft: the docked stack is anchored at the top or left edge. */
  predicate DockSideTopLeft(side: DockSide): (r: bool)
    ensures r ==> side != Invalid
    ensures r <==> InvertDockSide(side) == Bottom || InvertDockSide(side) == Right
  {
    side == Top || side == Left
  }

  /** dockSideBottomRight: the docked stack is anchored at the bottom or right edge. */
  predicate DockSideBottomRight(side: DockSide): (r: bool)
    ensures r ==> side != Invalid
    ensures r <==> InvertDockSide(side) == Top || InvertDockSide(side) == Left
  {
    side == Bottom || side == Right
  }

  /** Every valid side is anchored top/left or bottom/right, never both; inverting swaps them. */
  lemma DockSideAnchoring(side: DockSide)
    ensures !(DockSideTopLeft(side) && DockSideBottomRight(side))
    ensures side != Invalid <==> DockSideTopLeft(side) || DockSideBottomRight(side)
    ensures DockSideTopLeft(side) <==> DockSideBottomRight(InvertDockSide(side))
    ensures DockSideBottomRight(side) <==> DockSideTopLeft(InvertDockSide(side))
  {
  }

  /** isDismissing: the divider is past the split target, on the side being dismissed. */
  predicate IsDismissing(splitPosition: int, position: int, side: DockSide): (d: bool)
    ensures DockSideTopLeft(side) ==> (d <==> position < splitPosition)
    ensures !DockSideTopLeft(side) ==> (d <==> position > splitPosition)
    ensures d ==> position != splitPosition
  {
    if side == Top || side == Left then position < splitPosition else position > splitPosition
  }

  // ---------------------------------------------------------------- alignment

  /** alignTopLeft: moves a rectangle into the top-left corner of a container, keeping its size. */
  function AlignedTopLeft(container: Box, rect: Box): (r: Box)
    ensures Width(r) == Width(rect) && Height(r) == Height(rect)
    ensures r.left == container.left && r.top == container.top
  {
    Box(container.left, container.top, container.left + Width(rect), container.top + Height(rect))
  }

  /** alignBottomRight: moves a rectangle into the bottom-right corner of a container, keeping its size. */
  function AlignedBottomRight(container: Box, rect: Box): (r: Box)
    ensures Width(r) == Width(rect) && Height(r) == Height(rect)
    ensures r.right == container.right && r.bottom == container.bottom
  {
    Box(container.right - Width(rect), container.bottom - Height(rect), container.right, container.bottom)
  }

  // ---------------------------------------------------------------- task positions

  /**
   * restrictDismissingTaskPosition: while the snap target dismisses the side a task is on,
   * that task is laid out at the nearest split target instead, so it never gets zero size.
   */
  function RestrictDismissingTaskPosition(snap: SnapAlgorithm, taskPosition: int, side: DockSide,
                                          target: nat): (r: int)
    requires snap.Valid() && target < |snap.targets|
    ensures r == taskPosition || r == snap.Position(snap.firstSplit) || r == snap.Position(snap.lastSplit)
  {
    if snap.Flag(target) == FlagDismissStart && DockSideTopLeft(side) then
      snap.Position(snap.firstSplit)
    else if snap.Flag(target) == FlagDismissEnd && DockSideBottomRight(side) then
      snap.Position(snap.lastSplit)
    else
      taskPosition
  }

  /** The three cases of the restriction, and that a restricted task stays clear of the dismiss target. */
  lemma RestrictKeepsDismissingSideOpen(snap: SnapAlgorithm, taskPosition: int, side: DockSide, target: nat)
    requires snap.Valid() && target < |snap.targets|
    ensures var r := RestrictDismissingTaskPosition(snap, taskPosition, side, target);
      (snap.Flag(target) == FlagDismissStart && DockSideTopLeft(side) ==>
         r == snap.Position(snap.firstSplit) && snap.Position(snap.dismissStart) < r) &&
      (snap.Flag(target) == FlagDismissEnd && DockSideBottomRight(side) ==>
         r == snap.Position(snap.lastSplit) && r < snap.Position(snap.dismissEnd)) &&
      ((!(snap.Flag(target) == FlagDismissStart && DockSideTopLeft(side)) &&
        !(snap.Flag(target) == FlagDismissEnd && DockSideBottomRight(side))) ==> r == taskPosition)
  {
    snap.LandmarksOrdered();
  }

  /**
   * The float comparison `(float) num / den > threshold` with a positive numerator: a zero
   * denominator gives +Infinity, which exceeds every threshold. (Float rounding is not modelled.)
   */
  predicate FloatRatioExceeds(num: int, den: int, threshold: real)
  {
    if den == 0 then num > 0 else (num as real) / (den as real) > threshold
  }

  /**
   * minimizeHoles: a top/left task jumps ahead to the dismiss-end target once the divider is
   * more than 12% of the way there; a bottom/right task jumps back to the previous target once
   * the divider is more than 12% (previous is dismiss-start) or 20% (otherwise) of the way there.
   */
  function MinimizeHoles(snap: SnapAlgorithm, position: int, taskPosition: int, side: DockSide,
                         target: nat): (r: int)
    requires snap.Valid() && target < |snap.targets|
    ensures r == taskPosition
         || (DockSideTopLeft(side) && r == snap.Position(snap.NextTarget(target)))
         || (DockSideBottomRight(side) && r == snap.Position(snap.PreviousTarget(target)))
    ensures DockSideTopLeft(side) && r != taskPosition ==>
              position > taskPosition && snap.NextTarget(target) != target &&
              snap.NextTarget(target) == snap.dismissEnd &&
              FloatRatioExceeds(position - taskPosition, snap.Position(snap.dismissEnd) - taskPosition,
                                SWITCH_FULLSCREEN_FRACTION)
    ensures DockSideBottomRight(side) && r != taskPosition ==>
              position < taskPosition && snap.PreviousTarget(target) != target &&
              FloatRatioExceeds(taskPosition - position,
                                taskPosition - snap.Position(snap.PreviousTarget(target)),
                                if snap.PreviousTarget(target) == snap.dismissStart
                                then SWITCH_FULLSCREEN_FRACTION else BOTTOM_RIGHT_SWITCH_BIGGER_FRACTION)
    ensures DockSideTopLeft(side) && position > taskPosition && snap.NextTarget(target) != target &&
            snap.NextTarget(target) == snap.dismissEnd &&
            FloatRatioExceeds(position - taskPosition, snap.Position(snap.dismissEnd) - taskPosition,
                              SWITCH_FULLSCREEN_FRACTION) ==>
              r == snap.Position(snap.dismissEnd)
    ensures DockSideBottomRight(side) && position < taskPosition && snap.PreviousTarget(target) != target &&
            FloatRatioExceeds(taskPosition - position,
                              taskPosition - snap.Position(snap.PreviousTarget(target)),
                              if snap.PreviousTarget(target) == snap.dismissStart
                              then SWITCH_FULLSCREEN_FRACTION else BOTTOM_RIGHT_SWITCH_BIGGER_FRACTION) ==>
              r == snap.Position(snap.PreviousTarget(target))
    ensures side == Invalid ==> r == taskPosition
  {
    if DockSideTopLeft(side) then
      if position > taskPosition then
        var next := snap.NextTarget(target);
        if next != target && next == snap.dismissEnd &&
           FloatRatioExceeds(position - taskPosition, snap.Position(next) - taskPosition,
                             SWITCH_FULLSCREEN_FRACTION)
        then snap.Position(next)
        else taskPosition
      else taskPosition
    else if DockSideBottomRight(side) then
      if position < taskPosition then
        var previous := snap.PreviousTarget(target);
        if previous != target then
          var threshold := if previous == snap.dismissStart then SWITCH_FULLSCREEN_FRACTION
                           else BOTTOM_RIGHT_SWITCH_BIGGER_FRACTION;
          if FloatRatioExceeds(taskPosition - position, taskPosition - snap.Position(previous), threshold)
          then snap.Position(previous)
          else taskPosition
        else taskPosition
      else taskPosition
    else
      taskPosition
  }

  /**
   * Starting from the snap target's own position, the adjusted task position never leaves the
   * interval between that target and its neighbour in the direction of travel.
   */
  lemma MinimizeHolesStaysBetweenTargets(snap: SnapAlgorithm, position: int, side: DockSide, target: nat)
    requires snap.Valid() && target < |snap.targets|
    ensures var r := MinimizeHoles(snap, position, snap.Position(target), side, target);
      (DockSideTopLeft(side) ==>
         snap.Position(target) <= r <= snap.Position(snap.NextTarget(target))) &&
      (DockSideBottomRight(side) ==>
         snap.Position(snap.PreviousTarget(target)) <= r <= snap.Position(target))
  {
  }

  lemma RatioAtLeastOne(num: int, den: int)
    requires 0 < den <= num
    ensures (num as real) / (den as real) >= 1.0
  {
  }

  /**
   * Once the divider has reached the neighbouring target, the task has certainly switched:
   * forward to dismiss-end for top/left, back to the previous target for bottom/right.
   */
  lemma MinimizeHolesSwitchesAtNeighbour(snap: SnapAlgorithm, position: int, taskPosition: int,
                                         side: DockSide, target: nat)
    requires snap.Valid() && target < |snap.targets|
    ensures DockSideTopLeft(side) && snap.NextTarget(target) != target &&
            snap.NextTarget(target) == snap.dismissEnd &&
            taskPosition <= snap.Position(snap.dismissEnd) <= position && taskPosition < position ==>
              MinimizeHoles(snap, position, taskPosition, side, target) == snap.Position(snap.dismissEnd)
    ensures DockSideBottomRight(side) && snap.PreviousTarget(target) != target &&
            position <= snap.Position(snap.PreviousTarget(target)) <= taskPosition && position < taskPosition ==>
              MinimizeHoles(snap, position, taskPosition, side, target) == snap.Position(snap.PreviousTarget(target))
  {
    if DockSideTopLeft(side) && taskPosition < snap.Position(snap.dismissEnd) <= position {
      RatioAtLeastOne(position - taskPosition, snap.Position(snap.dismissEnd) - taskPosition);
    }
    if DockSideBottomRight(side) && snap.PreviousTarget(target) != target &&
       position <= snap.Position(snap.PreviousTarget(target)) < taskPosition {
      RatioAtLeastOne(taskPosition - position, taskPosition - snap.Position(snap.PreviousTarget(target)));
    }
  }

  /** The task position a drag frame lays a task out at: restricted, then advanced. */
  function TaskPositionFor(snap: SnapAlgorithm, position: int, taskPosition: int, side: DockSide,
                           target: nat): int
    requires snap.Valid() && target < |snap.targets|
  {
    MinimizeHoles(snap, position, RestrictDismissingTaskPosition(snap, taskPosition, side, target), side, target)
  }

  // ---------------------------------------------------------------- dismiss parallax

  /** Math.min(1, Math.max(0, x)) */
  function Clamp01(x: real): (c: real)
    ensures 0.0 <= c <= 1.0
    ensures 0.0 <= x <= 1.0 ==> c == x
    ensures x < 0.0 ==> c == 0.0
    ensures x > 1.0 ==> c == 1.0
  {
    if x < 0.0 then 0.0 else if x > 1.0 then 1.0 else x
  }

  /** The (int) cast of a float: truncation toward zero. (Saturation at the int range is not modelled.) */
  function TruncateToInt(x: real): (n: int)
    ensures x >= 0.0 ==> 0 <= n && n as real <= x < n as real + 1.0
    ensures x < 0.0 ==> n <= 0 && n as real - 1.0 < x <= n as real
  {
    if x >= 0.0 then x.Floor else -((-x).Floor)
  }

  lemma TruncateBetween(x: real, lo: int, hi: int)
    requires lo as real <= x <= hi as real
    ensures lo <= TruncateToInt(x) <= hi
  {
  }

  /** The dismiss target and the split target a parallax moves a task between. */
  datatype ParallaxTargets = ParallaxTargets(dismiss: nat, split: nat)

  function ParallaxTargetsFor(snap: SnapAlgorithm, side: DockSide, target: nat): (p: Option<ParallaxTargets>)
    requires snap.Valid() && target < |snap.targets|
    ensures p.Some? ==> p.value.dismiss < |snap.targets| && p.value.split < |snap.targets|
    ensures p.Some? <==>
              ((snap.Flag(target) == FlagDismissStart || target == snap.firstSplit) && DockSideTopLeft(side)) ||
              ((snap.Flag(target) == FlagDismissEnd || target == snap.lastSplit) && DockSideBottomRight(side))
    ensures p.Some? && DockSideTopLeft(side) ==> p.value == ParallaxTargets(snap.dismissStart, snap.firstSplit)
    ensures p.Some? && DockSideBottomRight(side) ==> p.value == ParallaxTargets(snap.dismissEnd, snap.lastSplit)
  {
    if (snap.Flag(target) == FlagDismissStart || target == snap.firstSplit) && DockSideTopLeft(side) then
      Some(ParallaxTargets(snap.dismissStart, snap.firstSplit))
    else if (snap.Flag(target) == FlagDismissEnd || target == snap.lastSplit) && DockSideBottomRight(side) then
      Some(ParallaxTargets(snap.dismissEnd, snap.lastSplit))
    else
      None
  }

  /** The gate of applyDismissingParallax: a target pair, a positive fraction, and isDismissing. */
  predicate ParallaxApplies(cfg: DividerConfig, side: DockSide, target: nat, position: int)
    requires cfg.Valid() && target < |cfg.snap.targets|
  {
    var pair := ParallaxTargetsFor(cfg.snap, side, target);
    pair.Some? &&
    Clamp01(cfg.snap.dismissingFraction(position)) > 0.0 &&
    IsDismissing(cfg.snap.Position(pair.value.split), position, side)
  }

  /** calculateParallaxDismissingFraction of the clamped dismissing fraction. */
  function ParallaxFraction(cfg: DividerConfig, position: int): (f: real)
    ensures 0.0 <= cfg.slowdown(Clamp01(cfg.snap.dismissingFraction(position))) <= 1.0 ==> 0.0 <= f <= 1.0
    ensures f > 0.0 <==> cfg.slowdown(Clamp01(cfg.snap.dismissingFraction(position))) > 0.0
  {
    cfg.slowdown(Clamp01(cfg.snap.dismissingFraction(position))) / PARALLAX_DAMPING
  }

  /** dismissTarget.position - splitTarget.position */
  function ParallaxDistance(cfg: DividerConfig, side: DockSide, target: nat): int
    requires cfg.Valid() && target < |cfg.snap.targets|
    requires ParallaxTargetsFor(cfg.snap, side, target).Some?
  {
    var pair := ParallaxTargetsFor(cfg.snap, side, target).value;
    cfg.snap.Position(pair.dismiss) - cfg.snap.Position(pair.split)
  }

  /** The damped fraction of the split-to-dismiss distance a dismissing task is moved by. */
  function ParallaxShift(cfg: DividerConfig, side: DockSide, target: nat, position: int): real
    requires cfg.Valid() && target < |cfg.snap.targets|
    requires ParallaxTargetsFor(cfg.snap, side, target).Some?
  {
    ParallaxFraction(cfg, position) * (ParallaxDistance(cfg, side, target) as real)
  }

  /** offsetPosition: the task position moved by the parallax shift, truncated to an int. */
  function ParallaxOffset(cfg: DividerConfig, side: DockSide, target: nat, position: int, taskPosition: int): int
    requires cfg.Valid() && target < |cfg.snap.targets|
    requires ParallaxApplies(cfg, side, target, position)
  {
    ShiftedPosition(taskPosition, ParallaxShift(cfg, side, target, position))
  }

  /**
   * applyDismissingParallax: a dismissing task keeps its size and slides along the divider's
   * axis so that its edge facing the divider sits at the parallax offset (one divider width
   * further for right/bottom tasks); in every other case the rectangle is left as it is.
   */
  function DismissingParallax(cfg: DividerConfig, taskRect: Box, side: DockSide, target: nat,
                              position: int, taskPosition: int): (r: Box)
    requires cfg.Valid() && target < |cfg.snap.targets|
    ensures Width(r) == Width(taskRect) && Height(r) == Height(taskRect)
    ensures side == Left || side == Right ==> r.top == taskRect.top && r.bottom == taskRect.bottom
    ensures side == Top || side == Bottom ==> r.left == taskRect.left && r.right == taskRect.right
    ensures !ParallaxApplies(cfg, side, target, position) ==> r == taskRect
    ensures ParallaxApplies(cfg, side, target, position) ==>
              var offset := ParallaxOffset(cfg, side, target, position, taskPosition);
              (side == Left ==> r.right == offset) &&
              (side == Right ==> r.left == offset + cfg.dividerSize) &&
              (side == Top ==> r.bottom == offset) &&
              (side == Bottom ==> r.top == offset + cfg.dividerSize)
  {
    if ParallaxApplies(cfg, side, target, position) then
      var offset := ParallaxOffset(cfg, side, target, position, taskPosition);
      var width := Width(taskRect);
      var height := Height(taskRect);
      match side
      case Left => taskRect.(left := offset - width, right := offset)
      case Right => taskRect.(left := offset + cfg.dividerSize, right := offset + width + cfg.dividerSize)
      case Top => taskRect.(top := offset - height, bottom := offset)
      case Bottom => taskRect.(top := offset + cfg.dividerSize, bottom := offset + height + cfg.dividerSize)
      case Invalid => taskRect
    else
      taskRect
  }

  /** A fraction in [0, 1] of a distance lies between zero and that distance. */
  lemma ScaleWithin(k: real, distance: int, scaled: real)
    requires 0.0 <= k <= 1.0
    requires scaled == k * (distance as real)
    ensures distance <= 0 ==> distance as real <= scaled <= 0.0
    ensures distance >= 0 ==> 0.0 <= scaled <= distance as real
  {
    var d := distance as real;
    if distance <= 0 {
      assert (1.0 - k) * d <= 0.0;
    } else {
      assert (1.0 - k) * d >= 0.0;
    }
  }

  lemma DampingKeepsFraction(curved: real)
    requires 0.0 <= curved <= 1.0
    ensures 0.0 <= curved / PARALLAX_DAMPING <= 1.0
  {
  }

  /** A task position moved by a shift, then truncated as the (int) cast does. */
  function ShiftedPosition(taskPosition: int, shift: real): int
  {
    TruncateToInt(taskPosition as real + shift)
  }

  /** A shift of at most the whole distance keeps the truncated position between the two ends. */
  lemma ShiftedPositionBetween(taskPosition: int, shift: real, distance: int)
    requires distance <= 0 ==> distance as real <= shift <= 0.0
    requires distance >= 0 ==> 0.0 <= shift <= distance as real
    ensures distance <= 0 ==> taskPosition + distance <= ShiftedPosition(taskPosition, shift) <= taskPosition
    ensures distance >= 0 ==> taskPosition <= ShiftedPosition(taskPosition, shift) <= taskPosition + distance
  {
    if distance <= 0 {
      TruncateBetween(taskPosition as real + shift, taskPosition + distance, taskPosition);
    } else {
      TruncateBetween(taskPosition as real + shift, taskPosition, taskPosition + distance);
    }
  }

  /**
   * When the slowdown curve stays in [0, 1], the parallax moves a dismissing task towards the
   * edge being dismissed, and by no more than the distance from the split target to the
   * dismiss target.
   */
  lemma ParallaxMovesTowardDismissedEdge(cfg: DividerConfig, side: DockSide, target: nat, position: int,
                                         taskPosition: int)
    requires cfg.Valid() && target < |cfg.snap.targets|
    requires ParallaxApplies(cfg, side, target, position)
    requires 0.0 <= cfg.slowdown(Clamp01(cfg.snap.dismissingFraction(position))) <= 1.0
    ensures var snap := cfg.snap;
            var offset := ParallaxOffset(cfg, side, target, position, taskPosition);
      (DockSideTopLeft(side) ==>
         taskPosition - (snap.Position(snap.firstSplit) - snap.Position(snap.dismissStart)) <= offset <= taskPosition) &&
      (DockSideBottomRight(side) ==>
         taskPosition <= offset <= taskPosition + (snap.Position(snap.dismissEnd) - snap.Position(snap.lastSplit)))
  {
    ParallaxShiftWithin(cfg, side, target, position);
    ParallaxDistanceSign(cfg, side, target);
    ShiftedPositionBetween(taskPosition, ParallaxShift(cfg, side, target, position),
                           ParallaxDistance(cfg, side, target));
  }

  /** The damped shift is a fraction in [0, 1] of the split-to-dismiss distance. */
  lemma ParallaxShiftWithin(cfg: DividerConfig, side: DockSide, target: nat, position: int)
    requires cfg.Valid() && target < |cfg.snap.targets|
    requires ParallaxTargetsFor(cfg.snap, side, target).Some?
    requires 0.0 <= cfg.slowdown(Clamp01(cfg.snap.dismissingFraction(position))) <= 1.0
    ensures var distance := ParallaxDistance(cfg, side, target);
            var shift := ParallaxShift(cfg, side, target, position);
      (distance <= 0 ==> distance as real <= shift <= 0.0) &&
      (distance >= 0 ==> 0.0 <= shift <= distance as real)
  {
    DampingKeepsFraction(cfg.slowdown(Clamp01(cfg.snap.dismissingFraction(position))));
    ScaleWithin(ParallaxFraction(cfg, position), ParallaxDistance(cfg, side, target),
                ParallaxShift(cfg, side, target, position));
  }

  /** The split-to-dismiss distance points towards the dismissed edge. */
  lemma ParallaxDistanceSign(cfg: DividerConfig, side: DockSide, target: nat)
    requires cfg.Valid() && target < |cfg.snap.targets|
    requires ParallaxTargetsFor(cfg.snap, side, target).Some?
    ensures var snap := cfg.snap;
      (DockSideTopLeft(side) ==>
         ParallaxDistance(cfg, side, target) == snap.Position(snap.dismissStart) - snap.Position(snap.firstSplit) < 0) &&
      (DockSideBottomRight(side) ==>
         ParallaxDistance(cfg, side, target) == snap.Position(snap.dismissEnd) - snap.Position(snap.lastSplit) > 0)
  {
    cfg.snap.LandmarksOrdered();
  }

  // ---------------------------------------------------------------- the rectangles of one frame

  predicate SameSize(a: Box, b: Box) { Width(a) == Width(b) && Height(a) == Height(b) }

  /** A sentinel task position (TASK_POSITION_SAME) or a real one. */
  datatype TaskPosition = Same | At(position: int)

  /** The four rectangles a full resize publishes besides the docked region. */
  datatype TaskRects = TaskRects(dockedTask: Box, dockedInset: Box, otherTask: Box, otherInset: Box)

  /**
   * The task and inset rectangles of resizeStack's full branch: each task is laid out at its
   * own task position, aligned into the top-left corner of its region, its inset copy is aligned
   * to the region's outer corner, and the task rectangle then gets the dismiss parallax.
   */
  function ComputeTaskRects(cfg: DividerConfig, position: int, taskPosition: int, side: DockSide,
                            target: nat): (t: TaskRects)
    requires cfg.Valid() && target < |cfg.snap.targets|
    ensures SameSize(t.dockedTask, t.dockedInset) && SameSize(t.otherTask, t.otherInset)
  {
    var inverted := InvertDockSide(side);
    var docked := BoundsFor(cfg, position, side);
    var other := BoundsFor(cfg, position, inverted);
    var taskPositionDocked := TaskPositionFor(cfg.snap, position, taskPosition, side, target);
    var taskPositionOther := TaskPositionFor(cfg.snap, position, taskPosition, inverted, target);
    var dockedTask := AlignedTopLeft(docked, BoundsFor(cfg, taskPositionDocked, side));
    var otherTask := AlignedTopLeft(other, BoundsFor(cfg, taskPositionOther, inverted));
    var dockedInset := if DockSideTopLeft(side) then AlignedTopLeft(docked, dockedTask)
                       else AlignedBottomRight(docked, dockedTask);
    var otherInset := if DockSideTopLeft(side) then AlignedBottomRight(other, otherTask)
                      else AlignedTopLeft(other, otherTask);
    TaskRects(DismissingParallax(cfg, dockedTask, side, target, position, taskPositionDocked),
              dockedInset,
              DismissingParallax(cfg, otherTask, inverted, target, position, taskPositionOther),
              otherInset)
  }

  /**
   * Every published task and inset rectangle has exactly the size of the bounds at its task
   * position (alignment and parallax only move it); the docked inset sits in the docked region's
   * outer corner and the other inset in the other region's outer corner; and without parallax a
   * task rectangle starts at its region's top-left corner.
   */
  lemma TaskRectsShape(cfg: DividerConfig, position: int, taskPosition: int, side: DockSide, target: nat)
    requires cfg.Valid() && target < |cfg.snap.targets|
    ensures var t := ComputeTaskRects(cfg, position, taskPosition, side, target);
            var inverted := InvertDockSide(side);
            var docked := BoundsFor(cfg, position, side);
            var other := BoundsFor(cfg, position, inverted);
            var dockedBounds := BoundsFor(cfg, TaskPositionFor(cfg.snap, position, taskPosition, side, target), side);
            var otherBounds := BoundsFor(cfg, TaskPositionFor(cfg.snap, position, taskPosition, inverted, target), inverted);
      SameSize(t.dockedTask, dockedBounds) && SameSize(t.dockedInset, dockedBounds) &&
      SameSize(t.otherTask, otherBounds) && SameSize(t.otherInset, otherBounds) &&
      (DockSideTopLeft(side) ==>
         t.dockedInset.left == docked.left && t.dockedInset.top == docked.top &&
         t.otherInset.right == other.right && t.otherInset.bottom == other.bottom) &&
      (!DockSideTopLeft(side) ==>
         t.dockedInset.right == docked.right && t.dockedInset.bottom == docked.bottom &&
         t.otherInset.left == other.left && t.otherInset.top == other.top) &&
      (!ParallaxApplies(cfg, side, target, position) ==>
         t.dockedTask.left == docked.left && t.dockedTask.top == docked.top) &&
      (!ParallaxApplies(cfg, inverted, target, position) ==>
         t.otherTask.left == other.left && t.otherTask.top == other.top)
  {
  }

  // ---------------------------------------------------------------- dim layer and commit

  /** What commitSnapFlags does at the end of a fling. */
  datatype TerminalAction = Dismiss | Maximize

  /**
   * commitSnapFlags' table: nothing for an unflagged target; dismissing the docked stack when
   * the target collapses the docked side (dismiss-start with a top/left dock, dismiss-end with
   * a bottom/right dock); maximizing it for every other flagged target.
   */
  function CommitDecision(flag: SnapFlag, side: DockSide): (a: Option<TerminalAction>)
    ensures a == None <==> flag == FlagNone
    ensures a == Some(Dismiss) <==>
              (flag == FlagDismissStart && DockSideTopLeft(side)) ||
              (flag == FlagDismissEnd && DockSideBottomRight(side))
  {
    match flag
    case FlagNone => None
    case FlagDismissStart => if side == Left || side == Top then Some(Dismiss) else Some(Maximize)
    case FlagDismissEnd => if side == Right || side == Bottom then Some(Dismiss) else Some(Maximize)
  }

  /** getStackIdForDismissTarget as written: only dismiss-start with a top/left dock dims the docked stack. */
  function StackIdForDismissTargetAsWritten(flag: SnapFlag, side: DockSide): (id: StackId)
    ensures id != InvalidStackId
    ensures id == DockedStackId <==> flag == FlagDismissStart && DockSideTopLeft(side)
    ensures id == DockedStackId ==> CommitDecision(flag, side) == Some(Dismiss)
  {
    if flag == FlagDismissStart && (side == Left || side == Top) then DockedStackId
    else FullscreenWorkspaceStackId
  }

  /**
   * getStackIdForDismissTarget as evidently intended: dim exactly the stack a commit to that
   * target dismisses. The model's resizeStack keeps the mapping as written.
   */
  function StackIdForDismissTarget(flag: SnapFlag, side: DockSide): (id: StackId)
    ensures id != InvalidStackId
    ensures id == DockedStackId <==> CommitDecision(flag, side) == Some(Dismiss)
  {
    if (flag == FlagDismissStart && DockSideTopLeft(side)) ||
       (flag == FlagDismissEnd && DockSideBottomRight(side))
    then DockedStackId
    else FullscreenWorkspaceStackId
  }

  /**
   * As written, dragging a right-docked stack towards dismiss-end dims the fullscreen stack,
   * although committing that target dismisses the docked stack.
   */
  lemma DimTargetMismatchAsWritten()
    ensures CommitDecision(FlagDismissEnd, Right) == Some(Dismiss)
    ensures StackIdForDismissTargetAsWritten(FlagDismissEnd, Right) == FullscreenWorkspaceStackId
    ensures StackIdForDismissTarget(FlagDismissEnd, Right) == DockedStackId
  {
  }

  /** The corrected mapping differs from the written one exactly for dismiss-end with a bottom/right dock. */
  lemma DimTargetCorrectionIsLocal(flag: SnapFlag, side: DockSide)
    ensures StackIdForDismissTargetAsWritten(flag, side) != StackIdForDismissTarget(flag, side) <==>
              flag == FlagDismissEnd && DockSideBottomRight(side)
  {
  }

  /**
   * The dim layer update that ends every publishing resizeStack: its alpha is the dim curve of
   * the clamped dismissing fraction, and its target is the stack getStackIdForDismissTarget
   * picks, as written, for the closest dismiss target.
   */
  function DimLayerUpdate(cfg: DividerConfig, side: DockSide, position: int): (c: ProxyCall)
    requires cfg.Valid()
    ensures c.DimLayerCall? && c.targetStack != InvalidStackId
    ensures c.visible <==> c.alpha != 0.0
    ensures c.alpha == cfg.dimCurve(Clamp01(cfg.snap.dismissingFraction(position)))
    ensures c.targetStack == DockedStackId <==>
              cfg.snap.Flag(cfg.snap.closestDismissTarget(position)) == FlagDismissStart && DockSideTopLeft(side)
  {
    var alpha := cfg.dimCurve(Clamp01(cfg.snap.dismissingFraction(position)));
    var dismissTarget := cfg.snap.closestDismissTarget(position);
    DimLayerCall(alpha != 0.0, StackIdForDismissTargetAsWritten(cfg.snap.Flag(dismissTarget), side), alpha)
  }

  /**
   * The calls commitSnapFlags makes: none for an unflagged target, otherwise exactly one
   * terminal call (dismiss or maximize, as CommitDecision says) followed by hiding the dim layer.
   */
  function CommitCalls(flag: SnapFlag, side: DockSide): (calls: seq<ProxyCall>)
    ensures calls == [] <==> flag == FlagNone
    ensures calls != [] ==>
              |calls| == 2 && IsTerminal(calls[0]) && calls[1] == DimLayerCall(false, InvalidStackId, 0.0)
    ensures calls != [] ==> (calls[0] == DismissCall <==> CommitDecision(flag, side) == Some(Dismiss))
    // The dismissed stack is the one the intended dim mapping of getStackIdForDismissTarget names.
    ensures calls != [] ==> (calls[0] == DismissCall <==> StackIdForDismissTarget(flag, side) == DockedStackId)
  {
    match CommitDecision(flag, side)
    case None => []
    case Some(Dismiss) => [DismissCall, DimLayerCall(false, InvalidStackId, 0.0)]
    case Some(Maximize) => [MaximizeCall, DimLayerCall(false, InvalidStackId, 0.0)]
  }

  // ---------------------------------------------------------------- publishing

  /** The resizeDockedStack call of one resize: divider only for the sentinel, all five rects otherwise. */
  function PublishCall(cfg: DividerConfig, side: DockSide, position: int, taskPosition: TaskPosition,
                       target: nat): (c: ProxyCall)
    requires cfg.Valid() && target < |cfg.snap.targets|
    ensures c.ResizeCall? && c.docked == BoundsFor(cfg, position, side)
    ensures taskPosition.Same? ==> c == ResizeCall(BoundsFor(cfg, position, side), None, None, None, None)
    ensures taskPosition.At? ==>
              c.dockedTask.Some? && c.dockedInset.Some? && c.otherTask.Some? && c.otherInset.Some?
  {
    var docked := BoundsFor(cfg, position, side);
    match taskPosition
    case Same => ResizeCall(docked, None, None, None, None)
    case At(p) =>
      var t := ComputeTaskRects(cfg, position, p, side, target);
      ResizeCall(docked, Some(t.dockedTask), Some(t.dockedInset), Some(t.otherTask), Some(t.otherInset))
  }

  /**
   * The calls one resizeStack makes given the last published docked rect: nothing when the new
   * docked rect equals it, otherwise one publish followed by one dim layer update.
   */
  function ResizeCalls(cfg: DividerConfig, side: DockSide, position: int, taskPosition: TaskPosition,
                       target: nat, lastResize: Box): (calls: seq<ProxyCall>)
    requires cfg.Valid() && target < |cfg.snap.targets|
    ensures calls == [] <==> BoundsFor(cfg, position, side) == lastResize
    ensures calls != [] ==> |calls| == 2 && calls[0].ResizeCall? && calls[1].DimLayerCall? &&
                            calls[0].docked == BoundsFor(cfg, position, side)
    ensures calls != [] ==>
              (calls[1].visible <==> calls[1].alpha != 0.0) &&
              calls[1].alpha == cfg.dimCurve(Clamp01(cfg.snap.dismissingFraction(position))) &&
              (calls[1].targetStack == DockedStackId <==>
                 cfg.snap.Flag(cfg.snap.closestDismissTarget(position)) == FlagDismissStart && DockSideTopLeft(side))
    ensures forall c | c in calls :: !IsTerminal(c)
  {
    if BoundsFor(cfg, position, side) == lastResize then []
    else [PublishCall(cfg, side, position, taskPosition, target), DimLayerUpdate(cfg, side, position)]
  }

  // ---------------------------------------------------------------- fling

  /** The ValueAnimator getFlingAnimator builds: from a position to a snap target it captures. */
  datatype FlingAnimation = FlingAnimation(from: int, target: nat)

  /** One animation update: the animated value and the animated fraction. */
  datatype AnimationFrame = AnimationFrame(value: int, fraction: real)

  /**
   * fling's target: the algorithm's pick for the release position and velocity, except that a
   * dismiss-start pick becomes the first split target when dismiss-start is to be avoided.
   */
  function FlingTarget(snap: SnapAlgorithm, position: int, velocity: real, avoidDismissStart: bool): (t: nat)
    requires snap.Valid()
    ensures t < |snap.targets|
    ensures avoidDismissStart ==> t != snap.dismissStart
    ensures t != snap.flingTargetFor(position, velocity) ==>
              avoidDismissStart && snap.flingTargetFor(position, velocity) == snap.dismissStart &&
              t == snap.firstSplit
  {
    var t := snap.flingTargetFor(position, velocity);
    if avoidDismissStart && t == snap.dismissStart then snap.firstSplit else t
  }

  /** The task position an animation update passes: the sentinel on the final frame. */
  function FrameTaskPosition(snap: SnapAlgorithm, anim: FlingAnimation, frame: AnimationFrame): (tp: TaskPosition)
    requires anim.target < |snap.targets|
    ensures tp.Same? <==> frame.fraction == 1.0
    ensures tp.At? ==> tp.position == snap.Position(anim.target)
  {
    if frame.fraction == 1.0 then Same else At(snap.Position(anim.target))
  }

  /** The last published docked rect after a run of frames: every frame leaves its own docked rect. */
  function LastResizeAfter(cfg: DividerConfig, side: DockSide, frames: seq<AnimationFrame>, last: Box): Box
  {
    if frames == [] then last else BoundsFor(cfg, frames[|frames| - 1].value, side)
  }

  /** The calls a run of animation updates makes, frame after frame. */
  function AnimationCalls(cfg: DividerConfig, side: DockSide, anim: FlingAnimation,
                          frames: seq<AnimationFrame>, last: Box): seq<ProxyCall>
    requires cfg.Valid() && anim.target < |cfg.snap.targets|
    decreases |frames|
  {
    if frames == [] then []
    else
      var prefix := frames[..|frames| - 1];
      var frame := frames[|frames| - 1];
      AnimationCalls(cfg, side, anim, prefix, last) +
      ResizeCalls(cfg, side, frame.value, FrameTaskPosition(cfg.snap, anim, frame), anim.target,
                  LastResizeAfter(cfg, side, prefix, last))
  }

  /** One more frame appends that frame's resize calls, made against the previous frame's docked rect. */
  lemma AnimationStep(cfg: DividerConfig, side: DockSide, anim: FlingAnimation, frames: seq<AnimationFrame>,
                      i: nat, last: Box)
    requires cfg.Valid() && anim.target < |cfg.snap.targets| && i < |frames|
    ensures AnimationCalls(cfg, side, anim, frames[..i + 1], last) ==
              AnimationCalls(cfg, side, anim, frames[..i], last) +
              ResizeCalls(cfg, side, frames[i].value, FrameTaskPosition(cfg.snap, anim, frames[i]), anim.target,
                          LastResizeAfter(cfg, side, frames[..i], last))
    ensures LastResizeAfter(cfg, side, frames[..i + 1], last) == BoundsFor(cfg, frames[i].value, side)
  {
    assert frames[..i + 1][..i] == frames[..i];
  }

  /** No animation update ever dismisses or maximizes: only the end of the animation commits. */
  lemma {:induction false} AnimationUpdatesNeverCommit(cfg: DividerConfig, side: DockSide, anim: FlingAnimation,
                                                      frames: seq<AnimationFrame>, last: Box)
    requires cfg.Valid() && anim.target < |cfg.snap.targets|
    ensures forall c | c in AnimationCalls(cfg, side, anim, frames, last) :: !IsTerminal(c)
    decreases |frames|
  {
    if frames != [] {
      AnimationUpdatesNeverCommit(cfg, side, anim, frames[..|frames| - 1], last);
    }
  }

  /** The docked rects that the resizeDockedStack calls of a call sequence publish, in order. */
  function Published(calls: seq<ProxyCall>): seq<Box>
  {
    if calls == [] then []
    else (if calls[0].ResizeCall? then [calls[0].docked] else []) + Published(calls[1..])
  }

  lemma {:induction false} PublishedAppend(a: seq<ProxyCall>, b: seq<ProxyCall>)
    ensures Published(a + b) == Published(a) + Published(b)
    decreases |a|
  {
    if a == [] {
      assert a + b == b;
    } else {
      assert (a + b)[1..] == a[1..] + b;
      PublishedAppend(a[1..], b);
    }
  }

  lemma PublishedPair(calls: seq<ProxyCall>)
    requires |calls| == 2 && calls[0].ResizeCall? && !calls[1].ResizeCall?
    ensures Published(calls) == [calls[0].docked]
  {
    assert calls[1..][1..] == [];
    assert Published(calls[1..]) == [];
  }

  /** Each published rect differs from the one published before it (the first from `last`). */
  ghost predicate NoRepeatedPublish(published: seq<Box>, last: Box)
  {
    (|published| > 0 ==> published[0] != last) &&
    forall i :: 0 < i < |published| ==> published[i] != published[i - 1]
  }

  /** The most recent published rect, or `last` when nothing was published. */
  function LatestPublished(published: seq<Box>, last: Box): Box
  {
    if published == [] then last else published[|published| - 1]
  }

  lemma NoRepeatSnoc(published: seq<Box>, b: Box, last: Box)
    requires NoRepeatedPublish(published, last)
    requires b != LatestPublished(published, last)
    ensures NoRepeatedPublish(published + [b], last)
    ensures LatestPublished(published + [b], last) == b
  {
    var q := published + [b];
    forall i | 0 < i < |q| ensures q[i] != q[i - 1] {
      if i < |published| {
        assert q[i] == published[i] && q[i - 1] == published[i - 1];
      }
    }
  }

  /** Appending one resize step keeps publishes free of repeats. */
  lemma NoRepeatStep(before: seq<ProxyCall>, step: seq<ProxyCall>, last: Box, newLast: Box)
    requires NoRepeatedPublish(Published(before), last)
    requires step == [] ==> newLast == LatestPublished(Published(before), last)
    requires step != [] ==> |step| == 2 && step[0].ResizeCall? && !step[1].ResizeCall? &&
                            step[0].docked == newLast && newLast != LatestPublished(Published(before), last)
    ensures NoRepeatedPublish(Published(before + step), last)
    ensures LatestPublished(Published(before + step), last) == newLast
  {
    PublishedAppend(before, step);
    if step != [] {
      PublishedPair(step);
      NoRepeatSnoc(Published(before), newLast, last);
    } else {
      assert Published(before) + Published(step) == Published(before);
    }
  }

  /**
   * Across a whole animation, the idempotence guard only drops repeats: no two consecutive
   * publishes carry the same docked rect, and the most recent publish (or the initial rect,
   * when there was none) is the last resize rect the animation leaves behind.
   */
  lemma {:induction false} AnimationPublishesNoRepeats(cfg: DividerConfig, side: DockSide, anim: FlingAnimation,
                                                      frames: seq<AnimationFrame>, last: Box)
    requires cfg.Valid() && anim.target < |cfg.snap.targets|
    ensures NoRepeatedPublish(Published(AnimationCalls(cfg, side, anim, frames, last)), last)
    ensures LatestPublished(Published(AnimationCalls(cfg, side, anim, frames, last)), last) ==
              LastResizeAfter(cfg, side, frames, last)
    decreases |frames|
  {
    if frames != [] {
      var prefix := frames[..|frames| - 1];
      var frame := frames[|frames| - 1];
      AnimationPublishesNoRepeats(cfg, side, anim, prefix, last);
      var step := ResizeCalls(cfg, side, frame.value, FrameTaskPosition(cfg.snap, anim, frame), anim.target,
                              LastResizeAfter(cfg, side, prefix, last));
      NoRepeatStep(AnimationCalls(cfg, side, anim, prefix, last), step, last, BoundsFor(cfg, frame.value, side));
    }
  }

  // ---------------------------------------------------------------- a whole fling

  /** The number of dismiss/maximize calls in a call sequence. */
  function TerminalCount(calls: seq<ProxyCall>): nat
  {
    if calls == [] then 0 else (if IsTerminal(calls[0]) then 1 else 0) + TerminalCount(calls[1..])
  }

  lemma {:induction false} TerminalCountAppend(a: seq<ProxyCall>, b: seq<ProxyCall>)
    ensures TerminalCount(a + b) == TerminalCount(a) + TerminalCount(b)
    decreases |a|
  {
    if a == [] {
      assert a + b == b;
    } else {
      assert (a + b)[1..] == a[1..] + b;
      TerminalCountAppend(a[1..], b);
    }
  }

  lemma {:induction false} TerminalCountNone(calls: seq<ProxyCall>)
    requires forall c | c in calls :: !IsTerminal(c)
    ensures TerminalCount(calls) == 0
    decreases |calls|
  {
    if calls != [] {
      assert calls[0] in calls;
      assert forall c | c in calls[1..] :: c in calls;
      TerminalCountNone(calls[1..]);
    }
  }

  /** The calls of a fling run to completion: every update, then the commit, then setResizing(false). */
  function FlingCalls(cfg: DividerConfig, side: DockSide, anim: FlingAnimation, frames: seq<AnimationFrame>,
                      last: Box): seq<ProxyCall>
    requires cfg.Valid() && anim.target < |cfg.snap.targets|
  {
    AnimationCalls(cfg, side, anim, frames, last) + CommitCalls(cfg.snap.Flag(anim.target), side) +
    [ResizingCall(false)]
  }

  /**
   * A fling commits at most once: exactly one dismiss or maximize call for a flagged target and
   * none otherwise; nothing is published after it; and the last call stops resizing.
   */
  lemma FlingCommitsOnce(cfg: DividerConfig, side: DockSide, anim: FlingAnimation, frames: seq<AnimationFrame>,
                         last: Box)
    requires cfg.Valid() && anim.target < |cfg.snap.targets|
    ensures var calls := FlingCalls(cfg, side, anim, frames, last);
      TerminalCount(calls) == (if cfg.snap.Flag(anim.target) == FlagNone then 0 else 1) &&
      calls[|calls| - 1] == ResizingCall(false) &&
      (forall i, j | 0 <= i < j < |calls| && IsTerminal(calls[i]) :: !calls[j].ResizeCall?)
  {
    var updates := AnimationCalls(cfg, side, anim, frames, last);
    var commit := CommitCalls(cfg.snap.Flag(anim.target), side);
    var calls := FlingCalls(cfg, side, anim, frames, last);
    AnimationUpdatesNeverCommit(cfg, side, anim, frames, last);
    TerminalCountNone(updates);
    TerminalCountAppend(updates, commit);
    TerminalCountAppend(updates + commit, [ResizingCall(false)]);
    if commit != [] {
      assert commit[1..][1..] == [];
    }
  }
}
