/**
 * The window-manager side of the divider: dock sides, stack ids, and the proxy through
 * which the divider publishes bounds and commits terminal actions. The proxy's effects
 * live in the window manager; here each call is recorded in a ghost log.
 */
module WindowManager {
  import opened Optional
  import opened Rects

  /** WindowManager.DOCKED_INVALID, DOCKED_TOP, DOCKED_LEFT, DOCKED_BOTTOM, DOCKED_RIGHT */
  datatype DockSide = Invalid | Top | Left | Bottom | Right

  /** DockedDividerUtils.invertDockSide: the side the other region is anchored to. */
  function InvertDockSide(side: DockSide): (inv: DockSide)
    ensures inv == Invalid <==> side == Invalid
    ensures inv != side || side == Invalid
  {
    match side
    case Invalid => Invalid
    case Top => Bottom
    case Bottom => Top
    case Left => Right
    case Right => Left
  }

  lemma InvertDockSideInvolutive(side: DockSide)
    ensures InvertDockSide(InvertDockSide(side)) == side
  {
  }

  /** StackId.DOCKED_STACK_ID, StackId.FULLSCREEN_WORKSPACE_STACK_ID, and -1 for "no stack". */
  datatype StackId = DockedStackId | FullscreenWorkspaceStackId | InvalidStackId

  /** One call the divider makes on WindowManagerProxy, as the window manager receives it. */
  datatype ProxyCall =
    | ResizingCall(resizing: bool)
    | ResizeCall(docked: Box, dockedTask: Option<Box>, dockedInset: Option<Box>,
                 otherTask: Option<Box>, otherInset: Option<Box>)
    | DimLayerCall(visible: bool, targetStack: StackId, alpha: real)
    | DismissCall
    | MaximizeCall

  predicate IsTerminal(c: ProxyCall) { c.DismissCall? || c.MaximizeCall? }

  class WindowManagerProxy {
    /** The dock side the window manager currently reports (its state, not the divider's). */
    var dockSide: DockSide
    /** Every call the divider has made, in order. */
    ghost var log: seq<ProxyCall>

    constructor (side: DockSide)
      ensures dockSide == side && log == []
    {
      dockSide := side;
      log := [];
    }

    method GetDockSide() returns (side: DockSide)
      ensures side == dockSide
    {
      side := dockSide;
    }

    method SetResizing(resizing: bool)
      modifies this`log
      ensures log == old(log) + [ResizingCall(resizing)]
    {
      log := log + [ResizingCall(resizing)];
    }

    /** The rects are passed by value: the proxy copies them before the divider reuses its own. */
    method ResizeDockedStack(docked: Box, dockedTask: Option<Box>, dockedInset: Option<Box>,
                             otherTask: Option<Box>, otherInset: Option<Box>)
      modifies this`log
      ensures log == old(log) + [ResizeCall(docked, dockedTask, dockedInset, otherTask, otherInset)]
    {
      log := log + [ResizeCall(docked, dockedTask, dockedInset, otherTask, otherInset)];
    }

    method SetResizeDimLayer(visible: bool, targetStack: StackId, alpha: real)
      modifies this`log
      ensures log == old(log) + [DimLayerCall(visible, targetStack, alpha)]
    {
      log := log + [DimLayerCall(visible, targetStack, alpha)];
    }

    method DismissDockedStack()
      modifies this`log
      ensures log == old(log) + [DismissCall]
    {
      log := log + [DismissCall];
    }

    method MaximizeDockedStack()
      modifies this`log
      ensures log == old(log) + [MaximizeCall]
    {
      log := log + [MaximizeCall];
    }
  }
}
