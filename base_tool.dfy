/** The state every drawing tool shares (`BaseTool`): whether it is
    active, the colour, width and opacity new strokes take, the stroke
    being drawn and whether a gesture is in progress. The concrete tools
    (pen, highlighter, eraser) each own one `BaseTool` and drive its
    fields from their pointer handlers. */
module BaseTools {
  import opened Common
  import opened Models

  /** The defaults a tool starts with. */
  const DefaultColor: string := "#000000"
  const DefaultWidth: real := 2.0
  const DefaultOpacity: real := 1.0

  /** `new Stroke { Color, Width, Opacity, IsHighlighter }` holding the
      single point a pointer-down records. */
  function StartStroke(id: Guid, color: string, width: real, opacity: real, highlighter: bool, first: StrokePoint): (s: Stroke)
    ensures s.id == id && s.pageId == EmptyGuid && s.points == [first]
    ensures s.color == color && s.width == width && s.opacity == opacity && s.isHighlighter == highlighter
  {
    NewStroke(id).(points := [first], color := color, width := width, opacity := opacity, isHighlighter := highlighter)
  }

  class BaseTool {
    var isActive: bool
    var color: string
    var width: real
    var opacity: real
    /** `_currentStroke`; `None` is `null`. */
    var currentStroke: Option<Stroke>
    /** `_isDrawing`: a pointer is down on this tool. */
    var isDrawing: bool

    /** The property initialisers: inactive, black, width 2, opaque, idle. */
    constructor()
      ensures !isActive && color == DefaultColor && width == DefaultWidth && opacity == DefaultOpacity
      ensures currentStroke.None? && !isDrawing
    {
      isActive := false;
      color := DefaultColor;
      width := DefaultWidth;
      opacity := DefaultOpacity;
      currentStroke := None;
      isDrawing := false;
    }

    method Activate()
      modifies this
      ensures isActive
      ensures color == old(color) && width == old(width) && opacity == old(opacity)
      ensures currentStroke == old(currentStroke) && isDrawing == old(isDrawing)
    {
      isActive := true;
    }

    /** Deactivating also abandons the stroke in progress. */
    method Deactivate()
      modifies this
      ensures !isActive && currentStroke.None? && !isDrawing
      ensures color == old(color) && width == old(width) && opacity == old(opacity)
    {
      isActive := false;
      CancelStroke();
    }

    method GetCurrentStroke() returns (s: Option<Stroke>)
      ensures s == currentStroke
    {
      s := currentStroke;
    }

    method CancelStroke()
      modifies this
      ensures currentStroke.None? && !isDrawing
      ensures isActive == old(isActive)
      ensures color == old(color) && width == old(width) && opacity == old(opacity)
    {
      currentStroke := None;
      isDrawing := false;
    }
  }
}
