/** The highlighter: like the pen, but yellow, wide and translucent by
    default, its strokes are flagged as highlighter strokes, and every
    recorded point has pressure 1 so the width stays constant. */
module HighlighterTools {
  import opened Common
  import opened Models
  import opened BaseTools

  const HighlighterColor: string := "#FFFF00"
  const HighlighterWidth: real := 20.0
  const HighlighterOpacity: real := 0.4

  /** `AddPoint`: the position with the pressure replaced by 1. */
  function HighlighterPoint(position: Point): (p: StrokePoint)
    ensures p.x == position.x && p.y == position.y && p.pressure == 1.0
  {
    StrokePoint(position.x, position.y, 1.0)
  }

  /** Every point of `s` was recorded at full pressure. */
  predicate FlatPressure(s: Stroke)
  {
    forall i :: 0 <= i < |s.points| ==> s.points[i].pressure == 1.0
  }

  class HighlighterTool {
    const tool: BaseTool

    /** A gesture in progress always has a stroke, and the stroke is a
        highlighter stroke recorded at constant pressure. */
    ghost predicate Valid()
      reads this, tool
    {
      (tool.isDrawing ==> tool.currentStroke.Some?) &&
      (tool.currentStroke.Some? ==> tool.currentStroke.value.isHighlighter && FlatPressure(tool.currentStroke.value))
    }

    /** The base defaults overridden with yellow, width 20, opacity 0.4. */
    constructor()
      ensures fresh(tool) && Valid()
      ensures !tool.isActive && tool.color == HighlighterColor && tool.width == HighlighterWidth && tool.opacity == HighlighterOpacity
      ensures tool.currentStroke.None? && !tool.isDrawing
    {
      tool := new BaseTool();
      new;
      tool.color := HighlighterColor;
      tool.width := HighlighterWidth;
      tool.opacity := HighlighterOpacity;
    }

    /** Starts a new highlighter stroke holding just this point; the
        sampled pressure is ignored. */
    method OnPointerDown(freshId: Guid, position: Point, pressure: real)
      requires Valid()
      modifies tool
      ensures Valid() && tool.isDrawing
      ensures tool.currentStroke == Some(StartStroke(freshId, tool.color, tool.width, tool.opacity, true, HighlighterPoint(position)))
      ensures tool.isActive == old(tool.isActive)
      ensures tool.color == old(tool.color) && tool.width == old(tool.width) && tool.opacity == old(tool.opacity)
    {
      tool.isDrawing := true;
      tool.currentStroke := Some(StartStroke(freshId, tool.color, tool.width, tool.opacity, true, HighlighterPoint(position)));
    }

    /** Appends one full-pressure point while drawing; does nothing otherwise. */
    method OnPointerMove(position: Point, pressure: real)
      requires Valid()
      modifies tool
      ensures Valid()
      ensures old(tool.isDrawing) ==>
        tool.currentStroke == Some(old(tool.currentStroke).value.(points := old(tool.currentStroke).value.points + [HighlighterPoint(position)]))
      ensures !old(tool.isDrawing) ==> tool.currentStroke == old(tool.currentStroke)
      ensures tool.isDrawing == old(tool.isDrawing) && tool.isActive == old(tool.isActive)
      ensures tool.color == old(tool.color) && tool.width == old(tool.width) && tool.opacity == old(tool.opacity)
    {
      if !tool.isDrawing || tool.currentStroke.None? {
        return;
      }
      var s := tool.currentStroke.value;
      tool.currentStroke := Some(s.(points := s.points + [HighlighterPoint(position)]));
    }

    /** Ends the gesture and keeps the stroke. */
    method OnPointerUp(position: Point)
      requires Valid()
      modifies tool
      ensures Valid() && !tool.isDrawing
      ensures tool.currentStroke == old(tool.currentStroke) && tool.isActive == old(tool.isActive)
      ensures tool.color == old(tool.color) && tool.width == old(tool.width) && tool.opacity == old(tool.opacity)
    {
      if !tool.isDrawing {
        return;
      }
      tool.isDrawing := false;
    }
  }
}
