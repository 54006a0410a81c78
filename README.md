# Conteng drawing engine, modelled in Dafny

Conteng is a macOS screen-annotation overlay. You draw freehand strokes on a
transparent window that floats above other applications, and a global hot
key shows or hides the window. This project models two parts of it:

- The stroke engine of `DrawingNSView`.
  - A `Stroke` holds its sampled points, a width and a colour.
  - The view keeps the committed strokes in order, an optional stroke in
    progress, the current width and colour, and its redraw flag (`needsDisplay`).
  - The mouse handlers start, extend and commit strokes.
  - The menu actions undo, clear and set the width or colour.
  - `draw` renders every committed stroke, then the stroke in progress.
    `drawSmoothPath` turns a stroke into a smoothed curve through the
    midpoints of consecutive samples.
- The overlay toggle of `AppDelegate`. It holds a visibility flag and a window
  that is created the first time the overlay is shown.

Files:

- `wrappers.dfy`: the `Option` type that stands in for Swift optionals.
- `strokes.dfy`: points, colours, strokes, and path construction as a list of
  segment records (start, control 1, control 2, end). It also holds the draw
  commands produced for a list of strokes, with lemmas on order and style.
- `canvas.dfy`: the view's fields as a value (`CanvasState`) and one
  transition function per handler, plus `Step`/`Run` over event sequences.
  The lemmas cover the invariant, gestures, undo, clear and tool state.
- `drawing_view.dfy`: class `DrawingNSView` with the source's fields. Each
  handler updates them in place and is proved against its transition function.
  `DrawSmoothPath` and `Draw` keep the source's loops.
- `overlay.dfy`: the toggle as a value (`Toggle`, `Toggles`) and class
  `AppDelegate`. `ToggleOverlay` creates a `PlatformWindow` object, standing for the `NSWindow`, lazily.

Modelling choices:

- CGFloat coordinates and widths are `real`.
- An `NSColor` is one of the four palette colours or `OtherColor(id)`, which
  stands for any other colour value.
- A menu item's `representedObject` is a `Payload`: nothing, an Int, a colour
  or some other object.
- The window is reduced to whether it is on screen. `makeKeyAndOrderFront`
  puts it there and `orderOut` takes it away. A ghost counter records how
  many windows the delegate has created.
- The incoming mouse location is a `Point` parameter.
- `needsDisplay` of a new view starts false.

What the code does, as the model has it:

- The default width is 3.0 and the default colour is red.
- The menu offers widths 2, 4, 6, 8 and 10 and the colours red, blue, green and black.
- `setStrokeWidth` accepts any Int payload, of any value; only payloads that
  are not Ints are ignored.
- A stroke with fewer than two points draws nothing, so a single click
  commits a one-point stroke that is not visible.
- A stroke with two or more points is drawn as one curve per consecutive pair of points.
- Showing the overlay leaves the canvas as it was.

## Model

| member | source | states |
|---|---|---|
| Strokes.SmoothPath | Conteng/DrawingNSView.swift:61-69 | the reference path that DrawingView.DrawingNSView.DrawSmoothPath is proved equal to; its shape is stated by Strokes.SmoothPathConnected |
| Strokes.StrokeCommands | Conteng/DrawingNSView.swift:59-75 | the reference output of drawing one stroke that DrawingView.DrawingNSView.DrawSmoothPath is proved equal to |
| Strokes.RenderStrokes | Conteng/DrawingNSView.swift:50-52 | the reference drawing of a list of strokes that the loop in DrawingView.DrawingNSView.Draw is proved against |
| Canvas.MouseDown | Conteng/DrawingNSView.swift:25-29 | the reference DrawingView.DrawingNSView.MouseDown is proved equal to |
| Canvas.MouseDragged | Conteng/DrawingNSView.swift:31-35 | the reference DrawingView.DrawingNSView.MouseDragged is proved equal to |
| Canvas.MouseUp | Conteng/DrawingNSView.swift:37-43 | the reference DrawingView.DrawingNSView.MouseUp is proved equal to |
| Canvas.UndoStroke | Conteng/DrawingNSView.swift:125-129 | the reference DrawingView.DrawingNSView.UndoStroke is proved equal to |
| Canvas.ClearAll | Conteng/DrawingNSView.swift:131-135 | the reference DrawingView.DrawingNSView.ClearAll is proved equal to |
| Canvas.SetStrokeWidth | Conteng/DrawingNSView.swift:137-141 | the reference DrawingView.DrawingNSView.SetStrokeWidth is proved equal to |
| Canvas.SetStrokeColor | Conteng/DrawingNSView.swift:143-147 | the reference DrawingView.DrawingNSView.SetStrokeColor is proved equal to |
| Canvas.Render | Conteng/DrawingNSView.swift:47-57 | the reference DrawingView.DrawingNSView.Draw is proved equal to: the committed strokes, then the stroke in progress |
| Overlay.Toggle | Conteng/AppDelegate.swift:72-95 | the reference Overlay.AppDelegate.ToggleOverlay is proved equal to |
| Strokes.Midpoint | Conteng/DrawingNSView.swift:67 | the end point of a curve lies as far from the previous sample as from the current one, on each axis |
| Strokes.SmoothPathConnected | Conteng/DrawingNSView.swift:59-69 | the path starts at the first sample and has one curve per consecutive pair; each curve starts where the previous one ended; the last ends at the midpoint of the last two samples |
| Strokes.RenderStrokesAppend | Conteng/DrawingNSView.swift:50-52 | drawing two lists of strokes one after the other gives the drawing of their concatenation |
| Strokes.RenderStrokesInOrder | Conteng/DrawingNSView.swift:50-52 | stroke j is drawn after every earlier stroke and before every later one |
| Strokes.RenderedCommandsComeFromStrokes | Conteng/DrawingNSView.swift:47-75 | every draw command is the smoothed path of some stroke with two or more samples, in that stroke's own width and colour |
| Strokes.RenderStrokesLength | Conteng/DrawingNSView.swift:50-60 | at most one command per stroke, and exactly one each when every stroke has two or more samples |
| Canvas.InitialState | Conteng/DrawingNSView.swift:18-21 | a new view has no strokes and no stroke in progress, width 3.0 and red; it satisfies the invariant and draws nothing |
| Canvas.StepPreservesValid | Conteng/DrawingNSView.swift:25-147 | every handler keeps every committed stroke and the stroke in progress non-empty |
| Canvas.RunPreservesValid | Conteng/DrawingNSView.swift:25-147 | the non-empty-strokes invariant holds after any sequence of events |
| Canvas.StepKeepsCommittedStrokes | Conteng/DrawingNSView.swift:25-147 | one event either shortens the committed list to a prefix, or appends exactly the stroke that was in progress; a committed stroke is never edited |
| Canvas.CommittedStrokesPersist | Conteng/DrawingNSView.swift:25-43 | with no undo or clear, the old committed strokes stay, in order, as a prefix |
| Canvas.DragsExtendCurrentStroke | Conteng/DrawingNSView.swift:31-35 | drags append their points, in order, to the end of the stroke in progress and change nothing else |
| Canvas.DragsWithoutStroke | Conteng/DrawingNSView.swift:31-35 | drags with no stroke in progress only set the redraw flag |
| Canvas.GestureCommitsStroke | Conteng/DrawingNSView.swift:25-43 | press, drags and release commit exactly one new stroke at the end: the press point then the drag points, in the width and colour current at the press; no stroke is left in progress |
| Canvas.UndoRevertsMouseUp | Conteng/DrawingNSView.swift:125-129 | undo right after a commit gives back the committed list from before the commit |
| Canvas.MouseUpWithoutStroke | Conteng/DrawingNSView.swift:37-43 | a release with no stroke in progress changes nothing |
| Canvas.UndosRemoveNewestFirst | Conteng/DrawingNSView.swift:125-129 | k undos remove the last k strokes (all of them if fewer), keep the rest in order, and keep the stroke in progress and the tool state |
| Canvas.ClearAllIdempotent | Conteng/DrawingNSView.swift:131-135 | clear yields no strokes and no stroke in progress, keeps width and colour, draws nothing, and a second clear changes nothing |
| Canvas.ToolChangeKeepsDrawing | Conteng/DrawingNSView.swift:137-147 | setting the width or colour keeps the strokes, the stroke in progress and the rendered output |
| Canvas.InvalidPayloadIgnored | Conteng/DrawingNSView.swift:137-147 | a non-Int width payload or a non-colour colour payload changes nothing |
| Canvas.LastToolChangeWins | Conteng/DrawingNSView.swift:137-147 | an accepted width or colour replaces whatever the earlier action set |
| Canvas.MenuChoicesApply | Conteng/DrawingNSView.swift:95-109 | each menu width (2, 4, 6, 8, 10) and each menu colour (red, blue, green, black) is accepted and becomes the tool state |
| Canvas.RenderIgnoresToolState | Conteng/DrawingNSView.swift:47-75 | the drawing depends only on each stroke's recorded width and colour, not on the live tool state |
| DrawingView.DrawingNSView.constructor | Conteng/DrawingNSView.swift:18-21 | a new view has no strokes, no stroke in progress, width 3.0 and red |
| DrawingView.DrawingNSView.MouseDown | Conteng/DrawingNSView.swift:25-29 | the stroke in progress becomes a one-point stroke in the current width and colour; committed strokes and tool state are unchanged |
| DrawingView.DrawingNSView.MouseDragged | Conteng/DrawingNSView.swift:31-35 | the point is appended to the stroke in progress if there is one, otherwise nothing is; committed strokes are unchanged |
| DrawingView.DrawingNSView.MouseUp | Conteng/DrawingNSView.swift:37-43 | the stroke in progress is appended to the committed list and cleared; with none, nothing changes |
| DrawingView.DrawingNSView.UndoStroke | Conteng/DrawingNSView.swift:125-129 | removes exactly the last committed stroke, leaving the prefix; no-op on an empty list; the stroke in progress and tool state are kept |
| DrawingView.DrawingNSView.ClearAll | Conteng/DrawingNSView.swift:131-135 | empties the committed list and the stroke in progress; width and colour are kept |
| DrawingView.DrawingNSView.SetStrokeWidth | Conteng/DrawingNSView.swift:137-141 | an Int payload becomes the width; anything else is ignored; nothing else changes |
| DrawingView.DrawingNSView.SetStrokeColor | Conteng/DrawingNSView.swift:143-147 | a colour payload becomes the colour; anything else is ignored; nothing else changes |
| DrawingView.DrawingNSView.DrawSmoothPath | Conteng/DrawingNSView.swift:59-76 | nothing for fewer than two samples; otherwise one path from the first sample with n-1 curves; curve i has controls at samples i-1 and i and ends at their midpoint; it is stroked in the stroke's width and colour |
| DrawingView.DrawingNSView.Draw | Conteng/DrawingNSView.swift:47-57 | produces the committed strokes' paths in order, then the stroke in progress, and changes no field |
| Overlay.InitialOverlayState | Conteng/AppDelegate.swift:14-15 | at launch the overlay is hidden and no window exists |
| Overlay.TogglePreservesValid | Conteng/AppDelegate.swift:72-95 | a window exists exactly when one was created, and it is on screen exactly when the overlay is visible; toggling keeps this |
| Overlay.ToggleTwiceRestores | Conteng/AppDelegate.swift:72-95 | each toggle flips the flag, two toggles restore it, and once a window exists two toggles change nothing |
| Overlay.ShowEnsuresWindow | Conteng/AppDelegate.swift:76-95 | after a show the overlay is visible and the window exists, on screen; a window is created only when there was none |
| Overlay.HideKeepsWindow | Conteng/AppDelegate.swift:73-75 | a hide clears the flag and keeps the window off screen rather than discarding it; it creates no window |
| Overlay.WindowCreatedAtMostOnce | Conteng/AppDelegate.swift:72-95 | from launch, after n toggles the overlay is visible exactly when n is odd, and exactly one window has been created once n > 0 |
| Overlay.AppDelegate.constructor | Conteng/AppDelegate.swift:14-15 | at launch the overlay is hidden and there is no window |
| Overlay.AppDelegate.ToggleOverlay | Conteng/AppDelegate.swift:72-95 | flips the flag; a show creates a fresh window only when there is none and puts it on screen; afterwards the same window object is kept |
| Overlay.ToggleKeepsDrawing | Conteng/AppDelegate.swift:72-95 | toggling the overlay leaves a drawing view's strokes, stroke in progress and tool state untouched |

## Left out

- Actual drawing is not modelled. That covers `NSBezierPath`, `setStroke`, `stroke()`, round caps and joins, and `super.draw`. These are framework calls, so a path is a list of segment records.
- CGFloat rounding is not modelled; coordinates, widths and the midpoint are exact reals.
- `convert(event.locationInWindow, from:)` and the `NSEvent` types are not modelled; the point arrives as a parameter.
- The system clears `needsDisplay` after a redraw; that display cycle is not modelled.
- Building the context menu and the status menu (`menu(for:)`, `makeMenu`) is not modelled. Only the widths and colours they offer are kept, as `MenuWidths` and `MenuColors`.
- Swift's bridging of `representedObject` (for example an NSNumber cast with `as? Int`) is not modelled; a payload either is an Int or is not.
- The delegate's menu actions post notifications (`NotificationCenter`), and nothing in these files observes them. That pub/sub glue is not modelled.
- The hot key, the status bar item, the window's styling (level, opacity, collection behaviour) and `NSApp.terminate` are platform plumbing and are not modelled. The window is only an object with an on-screen flag.
- `Overlay.AppDelegate.ToggleOverlay`: the crash of the force-unwrapped `NSScreen.main` when there is no main screen is not modelled; a show always creates the window and succeeds.
- `Overlay.AppDelegate.ToggleOverlay`: requires the invariant that a visible overlay has a window. The source's `window?.orderOut(nil)` on a nil window, a no-op, therefore cannot arise in the model.
- OverlayWindow.swift, ContentView.swift, ContengApp.swift, AboutWindow.swift and GuidesWindow.swift are static views and configuration with no logic. They are not part of this model.
- The code has no straight-line mode, colour rotation, width stepping, keyboard shortcut handling, cursor indicator or clearing on show; the keyboard shortcuts exist only as help text in Conteng/GuidesWindow.swift. None of these is modelled.
