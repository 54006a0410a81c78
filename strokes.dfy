/**
 * The value side of the drawing view: points, strokes and the path that
 * `drawSmoothPath` builds for a stroke, together with the list of draw
 * commands produced for a sequence of strokes.
 *
 * The platform's Bezier path is replaced by a record of its segments: the
 * path starts at a point and each `curve(to:controlPoint1:controlPoint2:)`
 * call becomes one `Segment`, whose `from` is the point the path stood at
 * when the curve was added.
 */
module Strokes {

  /** A point in view coordinates (CGFloat is modelled by real). */
  datatype Point = Point(x: real, y: real)

  /** A stroke colour. The four palette colours the menus offer, and any other colour value. */
  datatype Color = Red | Blue | Green | Black | OtherColor(id: nat)

  /** One freehand stroke: its sampled points, and the width and colour it was started with. */
  datatype Stroke = Stroke(points: seq<Point>, width: real, color: Color)

  /** One cubic curve of a path. */
  datatype Segment = Segment(from: Point, control1: Point, control2: Point, to: Point)

  /** A path: where it starts, and its curves in order. */
  datatype Path = Path(start: Point, curves: seq<Segment>)

  /** Stroking one path with a line width and a colour (round caps and joins). */
  datatype DrawCommand = StrokePath(path: Path, lineWidth: real, color: Color)

  /** The midpoint of two points: it lies as far from `a` as from `b` on each axis. */
  function Midpoint(a: Point, b: Point): (m: Point)
    ensures m.x - a.x == b.x - m.x && m.y - a.y == b.y - m.y
  {
    Point((a.x + b.x) / 2.0, (a.y + b.y) / 2.0)
  }

  /**
   * The curve added in iteration `i` of the loop over `1..<count`: its control
   * points are the samples `i - 1` and `i`, it ends at their midpoint, and it
   * starts where the path stands before it (the first sample, or the end of
   * the previous curve).
   */
  function CurveAt(points: seq<Point>, i: nat): Segment
    requires 1 <= i < |points|
  {
    Segment(if i == 1 then points[0] else Midpoint(points[i - 2], points[i - 1]),
            points[i - 1], points[i], Midpoint(points[i - 1], points[i]))
  }

  /** The smoothed path through a stroke's samples (only built for two or more samples). */
  function SmoothPath(points: seq<Point>): Path
    requires |points| >= 2
  {
    Path(points[0], seq(|points| - 1, k requires 0 <= k < |points| - 1 => CurveAt(points, k + 1)))
  }

  /** What drawing one stroke produces: nothing below two samples, otherwise its path in its own style. */
  function StrokeCommands(s: Stroke): seq<DrawCommand>
  {
    if |s.points| > 1 then [StrokePath(SmoothPath(s.points), s.width, s.color)] else []
  }

  /** Drawing a list of strokes, in list order. */
  function RenderStrokes(strokes: seq<Stroke>): seq<DrawCommand>
  {
    if strokes == [] then [] else StrokeCommands(strokes[0]) + RenderStrokes(strokes[1..])
  }

  /**
   * The smoothed path is one connected curve: it starts at the first sample,
   * has one curve per consecutive pair of samples, each curve starts where the
   * previous one ended, and the last one ends halfway between the last two samples.
   */
  lemma SmoothPathConnected(points: seq<Point>)
    requires |points| >= 2
    ensures |SmoothPath(points).curves| == |points| - 1
    ensures SmoothPath(points).start == points[0] == SmoothPath(points).curves[0].from
    ensures forall k :: 1 <= k < |points| - 1 ==>
      SmoothPath(points).curves[k].from == SmoothPath(points).curves[k - 1].to
    ensures SmoothPath(points).curves[|points| - 2].to == Midpoint(points[|points| - 2], points[|points| - 1])
  {
  }

  /** Drawing two lists one after the other is drawing their concatenation. */
  lemma {:induction false} RenderStrokesAppend(a: seq<Stroke>, b: seq<Stroke>)
    ensures RenderStrokes(a + b) == RenderStrokes(a) + RenderStrokes(b)
  {
    if a == [] {
      assert a + b == b;
    } else {
      assert (a + b)[0] == a[0];
      assert (a + b)[1..] == a[1..] + b;
      RenderStrokesAppend(a[1..], b);
    }
  }

  /** Stroke `j` is drawn after every stroke before it and before every stroke after it. */
  lemma RenderStrokesInOrder(strokes: seq<Stroke>, j: nat)
    requires j < |strokes|
    ensures RenderStrokes(strokes)
         == RenderStrokes(strokes[..j]) + StrokeCommands(strokes[j]) + RenderStrokes(strokes[j + 1..])
  {
    var before, rest := strokes[..j], strokes[j..];
    assert strokes == before + rest;
    RenderStrokesAppend(before, rest);
    assert rest[0] == strokes[j] && rest[1..] == strokes[j + 1..];
    assert RenderStrokes(rest) == StrokeCommands(strokes[j]) + RenderStrokes(strokes[j + 1..]);
  }

  /**
   * Every draw command comes from one of the strokes, with that stroke's own
   * recorded width and colour and the smoothed path of its samples.
   */
  lemma {:induction false} RenderedCommandsComeFromStrokes(strokes: seq<Stroke>, i: nat)
    requires i < |RenderStrokes(strokes)|
    ensures exists j :: 0 <= j < |strokes| && |strokes[j].points| > 1 &&
                        RenderStrokes(strokes)[i] == StrokePath(SmoothPath(strokes[j].points), strokes[j].width, strokes[j].color)
  {
    var head := StrokeCommands(strokes[0]);
    if i < |head| {
      assert 0 < |strokes| && |strokes[0].points| > 1;
    } else {
      RenderedCommandsComeFromStrokes(strokes[1..], i - |head|);
      var j :| 0 <= j < |strokes[1..]| && |strokes[1..][j].points| > 1 &&
        RenderStrokes(strokes[1..])[i - |head|]
        == StrokePath(SmoothPath(strokes[1..][j].points), strokes[1..][j].width, strokes[1..][j].color);
      assert strokes[1..][j] == strokes[j + 1];
    }
  }

  /** At most one command per stroke, and exactly one per stroke when every stroke has two or more samples. */
  lemma {:induction false} RenderStrokesLength(strokes: seq<Stroke>)
    ensures |RenderStrokes(strokes)| <= |strokes|
    ensures (forall j :: 0 <= j < |strokes| ==> |strokes[j].points| > 1) ==> |RenderStrokes(strokes)| == |strokes|
  {
    if strokes != [] {
      RenderStrokesLength(strokes[1..]);
      assert forall j :: 0 <= j < |strokes| - 1 ==> strokes[1..][j] == strokes[j + 1];
    }
  }
}
