/**
 * The drawing view's state as a value, and one transition function per
 * handler of the view: the reference the `DrawingNSView` class is proved
 * against, and what the lemmas about whole event sequences are stated over.
 */
module Canvas {
  import opened Wrappers
  import opened Strokes

  /** A menu item's `representedObject`: nothing, an Int, a colour, or some other object. */
  datatype Payload = NoObject | IntObject(n: int) | ColorObject(c: Color) | OtherObject

  /** The view's fields: committed strokes, the stroke in progress, the tool state and the redraw flag. */
  datatype CanvasState = CanvasState(
    strokes: seq<Stroke>,
    currentStroke: Option<Stroke>,
    strokeWidth: real,
    strokeColor: Color,
    needsDisplay: bool)

  const DefaultWidth: real := 3.0
  const DefaultColor: Color := Red

  /** The widths and colours the context menu offers. */
  const MenuWidths: seq<int> := [2, 4, 6, 8, 10]
  const MenuColors: seq<Color> := [Red, Blue, Green, Black]

  /** A freshly created view (the redraw flag starts cleared). */
  const Initial: CanvasState := CanvasState([], None, DefaultWidth, DefaultColor, false)

  /** Every committed stroke, and the stroke in progress if any, has at least one sample. */
  predicate Valid(c: CanvasState)
  {
    && (forall i :: 0 <= i < |c.strokes| ==> c.strokes[i].points != [])
    && (c.currentStroke.Some? ==> c.currentStroke.value.points != [])
  }

  /** Pressing the mouse starts a one-sample stroke in the current width and colour. */
  function MouseDown(c: CanvasState, p: Point): CanvasState
  {
    c.(currentStroke := Some(Stroke([p], c.strokeWidth, c.strokeColor)), needsDisplay := true)
  }

  /** Dragging appends a sample to the stroke in progress, if there is one; the view is redrawn either way. */
  function MouseDragged(c: CanvasState, p: Point): CanvasState
  {
    match c.currentStroke
    case Some(s) => c.(currentStroke := Some(s.(points := s.points + [p])), needsDisplay := true)
    case None => c.(needsDisplay := true)
  }

  /** Releasing the mouse commits a non-empty stroke in progress; otherwise nothing happens. */
  function MouseUp(c: CanvasState): CanvasState
  {
    if c.currentStroke.Some? && c.currentStroke.value.points != [] then
      c.(strokes := c.strokes + [c.currentStroke.value], currentStroke := None, needsDisplay := true)
    else
      c
  }

  /** Undo drops the last committed stroke; on an empty list it does nothing. */
  function UndoStroke(c: CanvasState): CanvasState
  {
    if c.strokes == [] then c else c.(strokes := c.strokes[..|c.strokes| - 1], needsDisplay := true)
  }

  /** Clear drops every committed stroke and the stroke in progress. */
  function ClearAll(c: CanvasState): CanvasState
  {
    c.(strokes := [], currentStroke := None, needsDisplay := true)
  }

  /** The width menu action: applied only when the payload is an Int. */
  function SetStrokeWidth(c: CanvasState, payload: Payload): CanvasState
  {
    if payload.IntObject? then c.(strokeWidth := payload.n as real) else c
  }

  /** The colour menu action: applied only when the payload is a colour. */
  function SetStrokeColor(c: CanvasState, payload: Payload): CanvasState
  {
    if payload.ColorObject? then c.(strokeColor := payload.c) else c
  }

  /** What `draw` produces: the committed strokes in order, then the stroke in progress. */
  function Render(c: CanvasState): seq<DrawCommand>
  {
    RenderStrokes(c.strokes) + (if c.currentStroke.Some? then StrokeCommands(c.currentStroke.value) else [])
  }

  /** The inputs the view reacts to, one per handler. */
  datatype Event =
    | Down(p: Point)
    | Drag(p: Point)
    | Up
    | Undo
    | Clear
    | SetWidth(payload: Payload)
    | SetColor(payload: Payload)

  function Step(c: CanvasState, e: Event): CanvasState
  {
    match e
    case Down(p) => MouseDown(c, p)
    case Drag(p) => MouseDragged(c, p)
    case Up => MouseUp(c)
    case Undo => UndoStroke(c)
    case Clear => ClearAll(c)
    case SetWidth(x) => SetStrokeWidth(c, x)
    case SetColor(x) => SetStrokeColor(c, x)
  }

  /** The state after handling a sequence of events in order. */
  function Run(c: CanvasState, events: seq<Event>): CanvasState
    decreases |events|
  {
    if events == [] then c else Run(Step(c, events[0]), events[1..])
  }

  /** One drag event per point, in order. */
  function Drags(points: seq<Point>): seq<Event>
  {
    if points == [] then [] else [Drag(points[0])] + Drags(points[1..])
  }

  /** `k` undo events. */
  function Undos(k: nat): seq<Event>
  {
    if k == 0 then [] else [Undo] + Undos(k - 1)
  }

  // ---------------------------------------------------------------------------
  // The initial state and the invariant

  /** A new view has no strokes, no stroke in progress, width 3 and red, satisfies the invariant and draws nothing. */
  lemma InitialState()
    ensures Initial.strokes == [] && Initial.currentStroke == None
    ensures Initial.strokeWidth == 3.0 && Initial.strokeColor == Red
    ensures Valid(Initial) && Render(Initial) == []
  {
  }

  /** Every handler keeps every committed stroke, and the stroke in progress, non-empty. */
  lemma StepPreservesValid(c: CanvasState, e: Event)
    requires Valid(c)
    ensures Valid(Step(c, e))
  {
  }

  /** The invariant holds after any sequence of events. */
  lemma {:induction false} RunPreservesValid(c: CanvasState, events: seq<Event>)
    requires Valid(c)
    ensures Valid(Run(c, events))
    decreases |events|
  {
    if events != [] {
      StepPreservesValid(c, events[0]);
      RunPreservesValid(Step(c, events[0]), events[1..]);
    }
  }

  /** Handling `a` and then `b` is handling `a + b`. */
  lemma {:induction false} RunAppend(c: CanvasState, a: seq<Event>, b: seq<Event>)
    ensures Run(c, a + b) == Run(Run(c, a), b)
    decreases |a|
  {
    if a == [] {
      assert a + b == b;
    } else {
      assert (a + b)[0] == a[0] && (a + b)[1..] == a[1..] + b;
      RunAppend(Step(c, a[0]), a[1..], b);
    }
  }

  // ---------------------------------------------------------------------------
  // Committed strokes

  /**
   * A single event never edits a committed stroke: the new list is a prefix of
   * the old one (undo, clear) or the old list followed by exactly the stroke
   * that was in progress (mouse up).
   */
  lemma StepKeepsCommittedStrokes(c: CanvasState, e: Event)
    ensures var r := Step(c, e).strokes;
      || r <= c.strokes
      || (|r| == |c.strokes| + 1 && c.strokes <= r && c.currentStroke == Some(r[|c.strokes|]))
  {
  }

  /** So long as nothing is undone or cleared, the committed strokes are kept, in order, as a prefix. */
  lemma {:induction false} CommittedStrokesPersist(c: CanvasState, events: seq<Event>)
    requires forall i :: 0 <= i < |events| ==> !events[i].Undo? && !events[i].Clear?
    ensures c.strokes <= Run(c, events).strokes
    decreases |events|
  {
    if events != [] {
      StepKeepsCommittedStrokes(c, events[0]);
      CommittedStrokesPersist(Step(c, events[0]), events[1..]);
    }
  }

  // ---------------------------------------------------------------------------
  // Gestures

  /** Drags append their points, in order, to the stroke in progress; apart from the redraw flag nothing else changes. */
  lemma {:induction false} DragsExtendCurrentStroke(c: CanvasState, points: seq<Point>)
    requires c.currentStroke.Some?
    ensures Run(c, Drags(points))
         == c.(currentStroke := Some(c.currentStroke.value.(points := c.currentStroke.value.points + points)),
               needsDisplay := c.needsDisplay || points != [])
    decreases |points|
  {
    var s := c.currentStroke.value;
    if points == [] {
      assert s.(points := s.points + points) == s;
      assert c.(needsDisplay := c.needsDisplay) == c;
    } else {
      var next := Step(c, Drag(points[0]));
      assert next == c.(currentStroke := Some(s.(points := s.points + [points[0]])), needsDisplay := true);
      DragsExtendCurrentStroke(next, points[1..]);
      assert s.points + [points[0]] + points[1..] == s.points + points;
    }
  }

  /** Drags with no stroke in progress only request a redraw. */
  lemma {:induction false} DragsWithoutStroke(c: CanvasState, points: seq<Point>)
    requires c.currentStroke.None?
    ensures Run(c, Drags(points)) == if points == [] then c else c.(needsDisplay := true)
    decreases |points|
  {
    if points != [] {
      DragsWithoutStroke(Step(c, Drag(points[0])), points[1..]);
    }
  }

  /**
   * A press at `p`, drags through `points` and a release commit exactly one new
   * stroke, at the end, holding `p` followed by `points` in the width and colour
   * current at the press; no stroke is left in progress and the tool state is kept.
   */
  lemma GestureCommitsStroke(c: CanvasState, p: Point, points: seq<Point>)
    ensures Run(c, [Down(p)] + Drags(points) + [Up])
         == c.(strokes := c.strokes + [Stroke([p] + points, c.strokeWidth, c.strokeColor)],
               currentStroke := None, needsDisplay := true)
  {
    var down := MouseDown(c, p);
    assert Run(c, [Down(p)]) == down;
    RunAppend(c, [Down(p)], Drags(points));
    DragsExtendCurrentStroke(down, points);
    RunAppend(c, [Down(p)] + Drags(points), [Up]);
  }

  /** Undo right after a release takes back exactly the stroke that release committed. */
  lemma UndoRevertsMouseUp(c: CanvasState)
    requires c.currentStroke.Some? && c.currentStroke.value.points != []
    ensures UndoStroke(MouseUp(c)) == c.(currentStroke := None, needsDisplay := true)
  {
  }

  /** A release with no stroke in progress changes nothing. */
  lemma MouseUpWithoutStroke(c: CanvasState)
    requires c.currentStroke.None?
    ensures MouseUp(c) == c
  {
  }

  // ---------------------------------------------------------------------------
  // Undo and clear

  /**
   * `k` undos remove the last `k` committed strokes (all of them if there are
   * fewer), keep the rest in order, and leave the stroke in progress and the
   * tool state alone.
   */
  lemma {:induction false} UndosRemoveNewestFirst(c: CanvasState, k: nat)
    ensures var r := Run(c, Undos(k));
      && r.strokes == c.strokes[..if k <= |c.strokes| then |c.strokes| - k else 0]
      && r.currentStroke == c.currentStroke
      && r.strokeWidth == c.strokeWidth && r.strokeColor == c.strokeColor
    decreases k
  {
    if k != 0 {
      var next := Step(c, Undo);
      UndosRemoveNewestFirst(next, k - 1);
      if c.strokes != [] {
        assert next.strokes == c.strokes[..|c.strokes| - 1];
      }
    }
  }

  /** Clear always empties the canvas, keeps the tool state, and a second clear changes nothing. */
  lemma ClearAllIdempotent(c: CanvasState)
    ensures ClearAll(c).strokes == [] && ClearAll(c).currentStroke == None
    ensures ClearAll(c).strokeWidth == c.strokeWidth && ClearAll(c).strokeColor == c.strokeColor
    ensures ClearAll(ClearAll(c)) == ClearAll(c)
    ensures Render(ClearAll(c)) == []
  {
  }

  // ---------------------------------------------------------------------------
  // Tool state

  /**
   * The width and colour actions change nothing that is already drawn: the
   * strokes, the stroke in progress and the rendered output stay as they were.
   */
  lemma ToolChangeKeepsDrawing(c: CanvasState, e: Event)
    requires e.SetWidth? || e.SetColor?
    ensures Step(c, e).strokes == c.strokes && Step(c, e).currentStroke == c.currentStroke
    ensures Render(Step(c, e)) == Render(c)
  {
  }

  /** A width payload that is not an Int, or a colour payload that is not a colour, is ignored. */
  lemma InvalidPayloadIgnored(c: CanvasState, payload: Payload)
    ensures !payload.IntObject? ==> SetStrokeWidth(c, payload) == c
    ensures !payload.ColorObject? ==> SetStrokeColor(c, payload) == c
  {
  }

  /** When a second width or colour is accepted it replaces the first whatever the first was. */
  lemma LastToolChangeWins(c: CanvasState, first: Payload, second: Payload)
    ensures second.IntObject? ==> SetStrokeWidth(SetStrokeWidth(c, first), second) == SetStrokeWidth(c, second)
    ensures second.ColorObject? ==> SetStrokeColor(SetStrokeColor(c, first), second) == SetStrokeColor(c, second)
  {
  }

  /** Each width and colour the menu offers is accepted and becomes the tool state. */
  lemma MenuChoicesApply(c: CanvasState)
    ensures forall i :: 0 <= i < |MenuWidths| ==> SetStrokeWidth(c, IntObject(MenuWidths[i])).strokeWidth == MenuWidths[i] as real
    ensures forall i :: 0 <= i < |MenuColors| ==> SetStrokeColor(c, ColorObject(MenuColors[i])).strokeColor == MenuColors[i]
  {
  }

  /** Rendering uses each stroke's recorded style, not the live tool state. */
  lemma RenderIgnoresToolState(c: CanvasState, width: real, color: Color)
    ensures Render(c.(strokeWidth := width, strokeColor := color)) == Render(c)
  {
  }
}
