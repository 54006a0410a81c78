/**
 * The overlay toggle of the application delegate: a visibility flag and a
 * window that is created the first time the overlay is shown and kept from
 * then on. The window stands for the platform window; all that is kept of it
 * is whether it is on screen (`makeKeyAndOrderFront` puts it there,
 * `orderOut` takes it away).
 */
module Overlay {
  import opened Wrappers
  import DrawingView

  /** What the controller knows of its window: whether it is on screen. */
  datatype WindowState = WindowState(onScreen: bool)

  /** The delegate's overlay fields as a value, with the number of windows created so far. */
  datatype OverlayState = OverlayState(isOverlayVisible: bool, window: Option<WindowState>, windowsCreated: nat)

  const InitialOverlay: OverlayState := OverlayState(false, None, 0)

  /** A window exists exactly when one has been created, and it is on screen exactly when the overlay is visible. */
  predicate OverlayValid(o: OverlayState)
  {
    && o.windowsCreated == (if o.window.Some? then 1 else 0)
    && (o.isOverlayVisible <==> o.window.Some? && o.window.value.onScreen)
  }

  /**
   * Hiding takes the window off screen; showing creates the window if there is
   * none yet and puts it on screen.
   */
  function Toggle(o: OverlayState): OverlayState
  {
    if o.isOverlayVisible then
      o.(window := if o.window.Some? then Some(WindowState(false)) else None, isOverlayVisible := false)
    else
      o.(window := Some(WindowState(true)), isOverlayVisible := true,
         windowsCreated := if o.window.None? then o.windowsCreated + 1 else o.windowsCreated)
  }

  /** The state after `n` toggles. */
  function Toggles(o: OverlayState, n: nat): OverlayState
  {
    if n == 0 then o else Toggle(Toggles(o, n - 1))
  }

  /** At launch the overlay is hidden and no window exists. */
  lemma InitialOverlayState()
    ensures !InitialOverlay.isOverlayVisible && InitialOverlay.window == None
    ensures OverlayValid(InitialOverlay)
  {
  }

  /** Toggling keeps the invariant. */
  lemma TogglePreservesValid(o: OverlayState)
    requires OverlayValid(o)
    ensures OverlayValid(Toggle(o))
  {
  }

  /** Each toggle flips the flag, so two toggles restore it; from any valid state with a window, two toggles change nothing. */
  lemma ToggleTwiceRestores(o: OverlayState)
    ensures Toggle(o).isOverlayVisible == !o.isOverlayVisible
    ensures Toggle(Toggle(o)).isOverlayVisible == o.isOverlayVisible
    ensures OverlayValid(o) && o.window.Some? ==> Toggle(Toggle(o)) == o
  {
  }

  /** After a show the window exists and is on screen; a window is created only if there was none. */
  lemma ShowEnsuresWindow(o: OverlayState)
    requires !o.isOverlayVisible
    ensures Toggle(o).isOverlayVisible && Toggle(o).window == Some(WindowState(true))
    ensures Toggle(o).windowsCreated == if o.window.None? then o.windowsCreated + 1 else o.windowsCreated
  {
  }

  /** A hide keeps the window (off screen) rather than discarding it, and creates none. */
  lemma HideKeepsWindow(o: OverlayState)
    requires o.isOverlayVisible
    ensures !Toggle(o).isOverlayVisible
    ensures Toggle(o).window.Some? == o.window.Some?
    ensures o.window.Some? ==> Toggle(o).window == Some(WindowState(false))
    ensures Toggle(o).windowsCreated == o.windowsCreated
  {
  }

  /**
   * From launch, after `n` toggles the overlay is visible exactly when `n` is
   * odd, and at most one window has ever been created: none before the first
   * toggle, one from then on.
   */
  lemma {:induction false} WindowCreatedAtMostOnce(n: nat)
    ensures var o := Toggles(InitialOverlay, n);
      && o.isOverlayVisible == (n % 2 == 1)
      && o.windowsCreated == (if n == 0 then 0 else 1)
      && (n > 0 ==> o.window.Some?)
      && OverlayValid(o)
  {
    if n > 0 {
      WindowCreatedAtMostOnce(n - 1);
      TogglePreservesValid(Toggles(InitialOverlay, n - 1));
    }
  }

  /** The `NSWindow` the delegate creates, reduced to whether it is on screen. */
  class PlatformWindow {
    var onScreen: bool

    constructor ()
      ensures !onScreen
    {
      onScreen := false;
    }
  }

  class AppDelegate {
    var window: PlatformWindow?
    var isOverlayVisible: bool
    /** How many windows this delegate has created. */
    ghost var windowsCreated: nat

    ghost function Model(): OverlayState
      reads this, window
    {
      OverlayState(isOverlayVisible, if window == null then None else Some(WindowState(window.onScreen)), windowsCreated)
    }

    ghost predicate Valid()
      reads this, window
    {
      OverlayValid(Model())
    }

    /** At launch the overlay is hidden and there is no window. */
    constructor ()
      ensures Valid()
      ensures !isOverlayVisible && window == null
      ensures Model() == InitialOverlay
    {
      window := null;
      isOverlayVisible := false;
      windowsCreated := 0;
    }

    /**
     * Flips the visibility flag. A show creates the window only when there is
     * none and leaves it on screen; a hide takes the existing window off screen
     * and keeps it.
     */
    method ToggleOverlay()
      requires Valid()
      modifies this, window
      ensures Valid()
      ensures isOverlayVisible == !old(isOverlayVisible)
      ensures old(window) != null ==> window == old(window)
      ensures old(window) == null ==> fresh(window)
      ensures isOverlayVisible ==> window != null && window.onScreen
      ensures Model() == Toggle(old(Model()))
    {
      if isOverlayVisible {
        window.onScreen := false;
        isOverlayVisible := false;
      } else {
        if window == null {
          window := new PlatformWindow();
          windowsCreated := windowsCreated + 1;
        }
        window.onScreen := true;
        isOverlayVisible := true;
      }
    }
  }

  /** Toggling the overlay leaves a drawing view's strokes, stroke in progress and tool state alone. */
  method ToggleKeepsDrawing(app: AppDelegate, view: DrawingView.DrawingNSView)
    requires app.Valid()
    modifies app, app.window
    ensures view.Model() == old(view.Model())
  {
    app.ToggleOverlay();
  }
}
