/** The eraser. It does not touch strokes itself: it raises erase
    requests that the canvas carries out. In Normal mode every touch
    asks to erase a disc of radius `EraserSize`, in Stroke mode a small
    disc of radius 5 selecting whole strokes, and in Lasso mode the
    gesture collects a polygon that is submitted once, on pointer-up,
    when it has more than two points. The requests are kept as an
    ordered log, the sequence the `EraseRequested` subscribers see. */
module EraserTools {
  import opened Common
  import Models
  import BaseTools

  datatype EraserMode = Normal | Stroke | Lasso

  /** The default eraser radius. */
  const DefaultEraserSize: real := 20.0
  /** The touch radius used to pick whole strokes. */
  const StrokeTouchRadius: real := 5.0

  /** `EraseEventArgs`; the fields a request does not set keep their
      defaults (the origin, radius 0, no lasso points). */
  datatype EraseRequest = EraseRequest(mode: EraserMode, center: Models.Point, radius: real, lassoPoints: seq<Models.Point>)

  const Origin: Models.Point := Models.Point(0.0, 0.0)

  /** The shape each kind of request has. */
  predicate WellFormed(r: EraseRequest)
  {
    match r.mode
    case Normal => r.lassoPoints == []
    case Stroke => r.radius == StrokeTouchRadius && r.lassoPoints == []
    case Lasso => |r.lassoPoints| > 2 && r.center == Origin && r.radius == 0.0
  }

  /** The request a pointer-down or move raises at `p`: one request in
      the Normal and Stroke modes (`RequestErase`, `RequestEraseStroke`),
      none in Lasso mode. */
  function TouchRequest(mode: EraserMode, eraserSize: real, p: Models.Point): (r: Option<EraseRequest>)
    ensures r.None? <==> mode == Lasso
    ensures r.Some? ==> r.value.mode == mode && r.value.center == p && WellFormed(r.value)
    ensures r.Some? ==> r.value.radius == if mode == Normal then eraserSize else StrokeTouchRadius
  {
    match mode
    case Normal => Some(EraseRequest(Normal, p, eraserSize, []))
    case Stroke => Some(EraseRequest(Stroke, p, StrokeTouchRadius, []))
    case Lasso => None
  }

  /** The log extended with the request, if there is one. */
  function Raise(log: seq<EraseRequest>, r: Option<EraseRequest>): seq<EraseRequest>
  {
    match r
    case None => log
    case Some(req) => log + [req]
  }

  class EraserTool {
    const tool: BaseTools.BaseTool
    var mode: EraserMode
    var eraserSize: real
    /** `_lassoPoints`, in the order they were sampled. */
    var lassoPoints: seq<Models.Point>
    /** Every `EraseRequested` raised so far, oldest first. */
    var requests: seq<EraseRequest>

    /** Every request raised has the shape of its kind; in particular no
        lasso is ever submitted with fewer than three points. */
    ghost predicate Valid()
      reads this
    {
      forall i :: 0 <= i < |requests| ==> WellFormed(requests[i])
    }

    constructor()
      ensures fresh(tool) && Valid()
      ensures mode == Normal && eraserSize == DefaultEraserSize && lassoPoints == [] && requests == []
      ensures !tool.isActive && tool.currentStroke.None? && !tool.isDrawing
    {
      tool := new BaseTools.BaseTool();
      mode := Normal;
      eraserSize := DefaultEraserSize;
      lassoPoints := [];
      requests := [];
    }

    /** Starts a gesture: erases at the point, or starts a new lasso there. */
    method OnPointerDown(position: Models.Point, pressure: real)
      requires Valid()
      modifies this, tool
      ensures Valid() && tool.isDrawing
      ensures requests == Raise(old(requests), TouchRequest(mode, eraserSize, position))
      ensures lassoPoints == if mode == Lasso then [position] else old(lassoPoints)
      ensures mode == old(mode) && eraserSize == old(eraserSize)
      ensures tool.currentStroke == old(tool.currentStroke) && tool.isActive == old(tool.isActive)
    {
      tool.isDrawing := true;
      match mode
      case Normal => requests := requests + [TouchRequest(mode, eraserSize, position).value];
      case Stroke => requests := requests + [TouchRequest(mode, eraserSize, position).value];
      case Lasso => lassoPoints := [position];
    }

    /** While drawing: erases at the point, or extends the lasso. */
    method OnPointerMove(position: Models.Point, pressure: real)
      requires Valid()
      modifies this
      ensures Valid()
      ensures !tool.isDrawing ==> requests == old(requests) && lassoPoints == old(lassoPoints)
      ensures tool.isDrawing ==> requests == Raise(old(requests), TouchRequest(mode, eraserSize, position))
      ensures tool.isDrawing ==> lassoPoints == if mode == Lasso then old(lassoPoints) + [position] else old(lassoPoints)
      ensures mode == old(mode) && eraserSize == old(eraserSize)
    {
      if !tool.isDrawing {
        return;
      }
      match mode
      case Normal => requests := requests + [TouchRequest(mode, eraserSize, position).value];
      case Stroke => requests := requests + [TouchRequest(mode, eraserSize, position).value];
      case Lasso => lassoPoints := lassoPoints + [position];
    }

    /** Ends the gesture. A lasso of more than two points is submitted
        (as a copy) and then cleared; a shorter one is neither submitted
        nor cleared. */
    method OnPointerUp(position: Models.Point)
      requires Valid()
      modifies this, tool
      ensures Valid() && !tool.isDrawing
      ensures old(tool.isDrawing) && mode == Lasso && |old(lassoPoints)| > 2 ==>
        requests == old(requests) + [EraseRequest(Lasso, Origin, 0.0, old(lassoPoints))] && lassoPoints == []
      ensures !(old(tool.isDrawing) && mode == Lasso && |old(lassoPoints)| > 2) ==>
        requests == old(requests) && lassoPoints == old(lassoPoints)
      ensures mode == old(mode) && eraserSize == old(eraserSize)
      ensures tool.currentStroke == old(tool.currentStroke) && tool.isActive == old(tool.isActive)
    {
      if !tool.isDrawing {
        return;
      }
      tool.isDrawing := false;
      if mode == Lasso && |lassoPoints| > 2 {
        requests := requests + [EraseRequest(Lasso, Origin, 0.0, lassoPoints)];
        lassoPoints := [];
      }
    }
  }
}
