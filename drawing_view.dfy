/**
 * The drawing view as an object whose handlers update its fields in place.
 * Every handler is proved against the transition function of the same name
 * in module Canvas, and states its new fields outright.
 */
module DrawingView {
  import opened Wrappers
  import opened Strokes
  import Canvas

  class DrawingNSView {
    var strokes: seq<Stroke>
    var currentStroke: Option<Stroke>
    var strokeWidth: real
    var strokeColor: Color
    /** The view's redraw request flag. */
    var needsDisplay: bool

    /** The fields as a value. */
    function Model(): Canvas.CanvasState
      reads this
    {
      Canvas.CanvasState(strokes, currentStroke, strokeWidth, strokeColor, needsDisplay)
    }

    ghost predicate Valid()
      reads this
    {
      Canvas.Valid(Model())
    }

    /** A new view: nothing drawn, width 3, red. */
    constructor ()
      ensures Valid()
      ensures strokes == [] && currentStroke == None
      ensures strokeWidth == 3.0 && strokeColor == Red
      ensures Model() == Canvas.Initial
    {
      strokes := [];
      currentStroke := None;
      strokeWidth := 3.0;
      strokeColor := Red;
      needsDisplay := false;
    }

    /** Starts a new stroke at `point` in the current tool state; committed strokes are untouched. */
    method MouseDown(point: Point)
      requires Valid()
      modifies this
      ensures Valid()
      ensures currentStroke == Some(Stroke([point], strokeWidth, strokeColor))
      ensures strokes == old(strokes) && needsDisplay
      ensures strokeWidth == old(strokeWidth) && strokeColor == old(strokeColor)
      ensures Model() == Canvas.MouseDown(old(Model()), point)
    {
      currentStroke := Some(Stroke([point], strokeWidth, strokeColor));
      needsDisplay := true;
    }

    /** Appends `point` to the stroke in progress, if there is one. */
    method MouseDragged(point: Point)
      requires Valid()
      modifies this
      ensures Valid()
      ensures old(currentStroke).Some? ==>
        currentStroke == Some(old(currentStroke).value.(points := old(currentStroke).value.points + [point]))
      ensures old(currentStroke).None? ==> currentStroke == None
      ensures strokes == old(strokes) && needsDisplay
      ensures strokeWidth == old(strokeWidth) && strokeColor == old(strokeColor)
      ensures Model() == Canvas.MouseDragged(old(Model()), point)
    {
      if currentStroke.Some? {
        var s := currentStroke.value;
        currentStroke := Some(s.(points := s.points + [point]));
      }
      needsDisplay := true;
    }

    /** Commits the stroke in progress at the end of the list; with none in progress nothing changes. */
    method MouseUp()
      requires Valid()
      modifies this
      ensures Valid()
      ensures old(currentStroke).Some? ==>
        strokes == old(strokes) + [old(currentStroke).value] && currentStroke == None && needsDisplay
      ensures old(currentStroke).None? ==> Model() == old(Model())
      ensures strokeWidth == old(strokeWidth) && strokeColor == old(strokeColor)
      ensures Model() == Canvas.MouseUp(old(Model()))
    {
      if currentStroke.Some? && currentStroke.value.points != [] {
        Canvas.StepPreservesValid(Model(), Canvas.Up);
        strokes := strokes + [currentStroke.value];
        currentStroke := None;
        needsDisplay := true;
      }
    }

    /** Removes the last committed stroke; on an empty list nothing changes. */
    method UndoStroke()
      requires Valid()
      modifies this
      ensures Valid()
      ensures old(strokes) != [] ==> strokes == old(strokes)[..|old(strokes)| - 1] && needsDisplay
      ensures old(strokes) == [] ==> Model() == old(Model())
      ensures currentStroke == old(currentStroke)
      ensures strokeWidth == old(strokeWidth) && strokeColor == old(strokeColor)
      ensures Model() == Canvas.UndoStroke(old(Model()))
    {
      if strokes != [] {
        strokes := strokes[..|strokes| - 1];
        needsDisplay := true;
      }
    }

    /** Empties the canvas; the tool state is kept. */
    method ClearAll()
      requires Valid()
      modifies this
      ensures Valid()
      ensures strokes == [] && currentStroke == None && needsDisplay
      ensures strokeWidth == old(strokeWidth) && strokeColor == old(strokeColor)
      ensures Model() == Canvas.ClearAll(old(Model()))
    {
      strokes := [];
      currentStroke := None;
      needsDisplay := true;
    }

    /** Takes the width from an Int payload; any other payload is ignored. Strokes are never touched. */
    method SetStrokeWidth(payload: Canvas.Payload)
      requires Valid()
      modifies this
      ensures Valid()
      ensures payload.IntObject? ==> strokeWidth == payload.n as real
      ensures !payload.IntObject? ==> strokeWidth == old(strokeWidth)
      ensures strokes == old(strokes) && currentStroke == old(currentStroke)
      ensures strokeColor == old(strokeColor) && needsDisplay == old(needsDisplay)
      ensures Model() == Canvas.SetStrokeWidth(old(Model()), payload)
    {
      if payload.IntObject? {
        strokeWidth := payload.n as real;
      }
    }

    /** Takes the colour from a colour payload; any other payload is ignored. Strokes are never touched. */
    method SetStrokeColor(payload: Canvas.Payload)
      requires Valid()
      modifies this
      ensures Valid()
      ensures payload.ColorObject? ==> strokeColor == payload.c
      ensures !payload.ColorObject? ==> strokeColor == old(strokeColor)
      ensures strokes == old(strokes) && currentStroke == old(currentStroke)
      ensures strokeWidth == old(strokeWidth) && needsDisplay == old(needsDisplay)
      ensures Model() == Canvas.SetStrokeColor(old(Model()), payload)
    {
      if payload.ColorObject? {
        strokeColor := payload.c;
      }
    }

    /**
     * The path of one stroke: nothing below two samples; otherwise a path from
     * the first sample with one curve per consecutive pair of samples, whose
     * controls are that pair and which ends at the pair's midpoint, stroked in
     * the stroke's own width and colour.
     */
    static method DrawSmoothPath(stroke: Stroke) returns (commands: seq<DrawCommand>)
      ensures |stroke.points| < 2 <==> commands == []
      ensures commands != [] ==>
        && |commands| == 1
        && commands[0].lineWidth == stroke.width && commands[0].color == stroke.color
        && commands[0].path.start == stroke.points[0]
        && |commands[0].path.curves| == |stroke.points| - 1
        && forall i :: 1 <= i < |stroke.points| ==>
             var c := commands[0].path.curves[i - 1];
             c.control1 == stroke.points[i - 1] && c.control2 == stroke.points[i]
             && c.to == Midpoint(stroke.points[i - 1], stroke.points[i])
      ensures commands == StrokeCommands(stroke)
    {
      var points := stroke.points;
      if |points| <= 1 {
        return [];
      }
      var start := points[0];
      var here := start;
      var curves: seq<Segment> := [];
      for i := 1 to |points|
        invariant |curves| == i - 1
        invariant here == if i == 1 then start else Midpoint(points[i - 2], points[i - 1])
        invariant forall k :: 0 <= k < i - 1 ==> curves[k] == CurveAt(points, k + 1)
      {
        var prev := points[i - 1];
        var curr := points[i];
        var mid := Midpoint(prev, curr);
        curves := curves + [Segment(here, prev, curr, mid)];
        here := mid;
      }
      var path := Path(start, curves);
      assert path == SmoothPath(points);
      commands := [StrokePath(path, stroke.width, stroke.color)];
    }

    /** Draws the committed strokes in list order, then the stroke in progress; the view is not changed. */
    method Draw() returns (commands: seq<DrawCommand>)
      ensures commands == Canvas.Render(Model())
    {
      commands := [];
      for i := 0 to |strokes|
        invariant commands == RenderStrokes(strokes[..i])
      {
        var drawn := DrawSmoothPath(strokes[i]);
        RenderStrokesAppend(strokes[..i], [strokes[i]]);
        assert strokes[..i + 1] == strokes[..i] + [strokes[i]];
        assert RenderStrokes([strokes[i]]) == StrokeCommands(strokes[i]) + RenderStrokes([]);
        commands := commands + drawn;
      }
      assert strokes[..|strokes|] == strokes;
      if currentStroke.Some? {
        var drawn := DrawSmoothPath(currentStroke.value);
        commands := commands + drawn;
      }
    }
  }
}
