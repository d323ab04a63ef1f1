/** The freehand pen: a pointer-down starts a stroke in the tool's
    colour, width and opacity, every move while drawing appends the
    sampled point with its pressure, and pointer-up ends the gesture
    leaving the stroke for the canvas to collect. */
module PenTools {
  import opened Common
  import opened Models
  import opened BaseTools

  /** `AddPoint`: the position and the pressure exactly as sampled. */
  function PenPoint(position: Point, pressure: real): (p: StrokePoint)
    ensures p.x == position.x && p.y == position.y && p.pressure == pressure
  {
    StrokePoint(position.x, position.y, pressure)
  }

  class PenTool {
    const tool: BaseTool
    /** Pressure-width settings; the drawing code does not consult them. */
    var usePressure: bool
    var minPressureWidth: real

    /** A gesture in progress always has a stroke, and the pen never
        produces highlighter strokes. */
    ghost predicate Valid()
      reads this, tool
    {
      (tool.isDrawing ==> tool.currentStroke.Some?) &&
      (tool.currentStroke.Some? ==> !tool.currentStroke.value.isHighlighter)
    }

    constructor()
      ensures fresh(tool) && Valid()
      ensures usePressure && minPressureWidth == 0.2
      ensures !tool.isActive && tool.color == DefaultColor && tool.width == DefaultWidth && tool.opacity == DefaultOpacity
      ensures tool.currentStroke.None? && !tool.isDrawing
    {
      tool := new BaseTool();
      usePressure := true;
      minPressureWidth := 0.2;
    }

    /** Starts a new stroke holding just this point; any previous stroke
        is discarded. `freshId` is the id `new Stroke()` draws. */
    method OnPointerDown(freshId: Guid, position: Point, pressure: real)
      requires Valid()
      modifies tool
      ensures Valid() && tool.isDrawing
      ensures tool.currentStroke == Some(StartStroke(freshId, tool.color, tool.width, tool.opacity, false, PenPoint(position, pressure)))
      ensures tool.isActive == old(tool.isActive)
      ensures tool.color == old(tool.color) && tool.width == old(tool.width) && tool.opacity == old(tool.opacity)
    {
      tool.isDrawing := true;
      tool.currentStroke := Some(StartStroke(freshId, tool.color, tool.width, tool.opacity, false, PenPoint(position, pressure)));
    }

    /** Appends one point while drawing; does nothing otherwise. */
    method OnPointerMove(position: Point, pressure: real)
      requires Valid()
      modifies tool
      ensures Valid()
      ensures old(tool.isDrawing) ==>
        tool.currentStroke == Some(old(tool.currentStroke).value.(points := old(tool.currentStroke).value.points + [PenPoint(position, pressure)]))
      ensures !old(tool.isDrawing) ==> tool.currentStroke == old(tool.currentStroke)
      ensures tool.isDrawing == old(tool.isDrawing) && tool.isActive == old(tool.isActive)
      ensures tool.color == old(tool.color) && tool.width == old(tool.width) && tool.opacity == old(tool.opacity)
    {
      if !tool.isDrawing || tool.currentStroke.None? {
        return;
      }
      var s := tool.currentStroke.value;
      tool.currentStroke := Some(s.(points := s.points + [PenPoint(position, pressure)]));
    }

    /** Ends the gesture; the stroke stays available to `GetCurrentStroke`. */
    method OnPointerUp(position: Point)
      requires Valid()
      modifies tool
      ensures Valid() && !tool.isDrawing
      ensures tool.currentStroke == old(tool.currentStroke) && tool.isActive == old(tool.isActive)
      ensures tool.color == old(tool.color) && tool.width == old(tool.width) && tool.opacity == old(tool.opacity)
    {
      if !tool.isDrawing {
        return;
      }
      tool.isDrawing := false;
    }
  }
}
