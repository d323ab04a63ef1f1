/** The document model the editor and the stores work on (libraries,
    notebooks, pages, sections, strokes) and the enumerations shared by
    several components. These are data only; the components own the
    behaviour. Reference identity is replaced by the `Guid` each record
    carries. */
module Models {
  import opened Common

  datatype PageFormat = A4 | A3 | A5 | Letter | Infinite
  datatype PageTemplate = Blank | Lined | Grid | Dotted | Cornell

  /** The active drawing tool (declaration order of the source enum). */
  datatype ToolMode = Selection | Pen | Highlighter | Eraser | Shape | Text | Lasso | Ruler

  /** How user input is interpreted. */
  datatype InputMode = KeyboardMouse | GraphicsTablet

  /** A position on the page (double coordinates become reals). */
  datatype Point = Point(x: real, y: real)

  /** One sampled point of a stroke. Tilt and the wall-clock timestamp
      are not modelled. */
  datatype StrokePoint = StrokePoint(x: real, y: real, pressure: real)

  datatype Stroke = Stroke(
    id: Guid,
    pageId: Guid,
    points: seq<StrokePoint>,
    color: string,
    width: real,
    opacity: real,
    isHighlighter: bool)

  /** `new Stroke()` with the given fresh id. */
  function NewStroke(id: Guid): (s: Stroke)
    ensures s.id == id && s.pageId == EmptyGuid && s.points == []
    ensures s.color == "#000000" && s.width == 2.0 && s.opacity == 1.0 && !s.isHighlighter
  {
    Stroke(id, EmptyGuid, [], "#000000", 2.0, 1.0, false)
  }

  /** A page; `sectionId == None` is an unsectioned page. Size, text, image
      and shape blocks and timestamps are not modelled. */
  datatype Page = Page(
    id: Guid,
    notebookId: Guid,
    sectionId: Option<Guid>,
    pageNumber: int,
    format: PageFormat,
    template: PageTemplate,
    strokes: seq<Stroke>)

  /** A section marker: a titled, coloured group of pages. */
  datatype Section = Section(
    id: Guid,
    notebookId: Guid,
    pageId: Guid,
    title: string,
    color: string,
    sortOrder: int)

  datatype Notebook = Notebook(
    id: Guid,
    libraryId: Guid,
    name: string,
    defaultFormat: PageFormat,
    defaultTemplate: PageTemplate,
    pages: seq<Page>,
    sections: seq<Section>)

  datatype Library = Library(id: Guid, name: string)
}
