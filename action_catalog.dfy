/** The static action metadata catalog (category, icon key, display name
    and gesture hint per action id) and the action id constants. The
    catalog has no mutation API, so it is a constant table; the C#
    dictionary's lookups become a search of the table in its declared
    order. */
module ActionCatalog {
  import opened Common

  // ActionIds: every action id the application defines.
  const ToolPen := "tool.pen"
  const ToolEraser := "tool.eraser"
  const ToolHighlighter := "tool.highlighter"
  const ToolLasso := "tool.lasso"
  const ToolShape := "tool.shape"
  const ToolText := "tool.text"
  const NavPageNext := "nav.page.next"
  const NavPagePrev := "nav.page.prev"
  const NavPageFirst := "nav.page.first"
  const NavPageLast := "nav.page.last"
  const NavPageGoto := "nav.page.goto"
  const EditUndo := "edit.undo"
  const EditRedo := "edit.redo"
  const EditCut := "edit.cut"
  const EditCopy := "edit.copy"
  const EditPaste := "edit.paste"
  const EditDelete := "edit.delete"
  const EditSelectAll := "edit.select.all"
  const ViewZoomIn := "view.zoom.in"
  const ViewZoomOut := "view.zoom.out"
  const ViewZoomFit := "view.zoom.fit"
  const ViewZoomReset := "view.zoom.reset"
  const ViewFullscreen := "view.fullscreen"
  const FileSave := "file.save"
  const FileOpen := "file.open"
  const FileNew := "file.new"
  const FileExport := "file.export"
  const PageNew := "page.new"
  const PageDelete := "page.delete"
  const PageDuplicate := "page.duplicate"

  /** `ActionMetadata`; a `null` gesture hint is `None`. */
  datatype ActionMetadata = ActionMetadata(category: string, iconKey: string, displayName: string,
                                           gestureHint: Option<string>)

  /** The catalog entries, in declaration order. */
  const Table: seq<(string, ActionMetadata)> := [
    (ToolPen, ActionMetadata("Tools", "Icon.Pen", "Pen", Some("P"))),
    (ToolEraser, ActionMetadata("Tools", "Icon.Eraser", "Eraser", Some("E"))),
    (ToolHighlighter, ActionMetadata("Tools", "Icon.Highlighter", "Highlighter", Some("H"))),
    (ToolLasso, ActionMetadata("Tools", "Icon.Lasso", "Lasso Selection", Some("L"))),
    (ToolShape, ActionMetadata("Tools", "Icon.Shape", "Shapes", Some("S"))),
    (ToolText, ActionMetadata("Tools", "Icon.Text", "Text", Some("T"))),
    (NavPageNext, ActionMetadata("Navigation", "Icon.Next", "Next Page", Some("Page Down"))),
    (NavPagePrev, ActionMetadata("Navigation", "Icon.Prev", "Previous Page", Some("Page Up"))),
    (NavPageFirst, ActionMetadata("Navigation", "Icon.First", "First Page", Some("Ctrl+Home"))),
    (NavPageLast, ActionMetadata("Navigation", "Icon.Last", "Last Page", Some("Ctrl+End"))),
    (EditUndo, ActionMetadata("Edit", "Icon.Undo", "Undo", Some("Ctrl+Z"))),
    (EditRedo, ActionMetadata("Edit", "Icon.Redo", "Redo", Some("Ctrl+Y"))),
    (EditCut, ActionMetadata("Edit", "Icon.Cut", "Cut", Some("Ctrl+X"))),
    (EditCopy, ActionMetadata("Edit", "Icon.Copy", "Copy", Some("Ctrl+C"))),
    (EditPaste, ActionMetadata("Edit", "Icon.Paste", "Paste", Some("Ctrl+V"))),
    (EditDelete, ActionMetadata("Edit", "Icon.Delete", "Delete", Some("Delete"))),
    (EditSelectAll, ActionMetadata("Edit", "Icon.SelectAll", "Select All", Some("Ctrl+A"))),
    (ViewZoomIn, ActionMetadata("View", "Icon.ZoomIn", "Zoom In", Some("Ctrl++"))),
    (ViewZoomOut, ActionMetadata("View", "Icon.ZoomOut", "Zoom Out", Some("Ctrl+-"))),
    (ViewZoomFit, ActionMetadata("View", "Icon.ZoomFit", "Fit to Page", Some("Ctrl+0"))),
    (ViewZoomReset, ActionMetadata("View", "Icon.ZoomReset", "Reset Zoom", Some("Ctrl+1"))),
    (FileSave, ActionMetadata("File", "Icon.Save", "Save", Some("Ctrl+S"))),
    (FileOpen, ActionMetadata("File", "Icon.Open", "Open", Some("Ctrl+O"))),
    (FileNew, ActionMetadata("File", "Icon.New", "New Notebook", Some("Ctrl+N"))),
    (FileExport, ActionMetadata("File", "Icon.Export", "Export", Some("Ctrl+Shift+E"))),
    (PageNew, ActionMetadata("Page", "Icon.PageNew", "New Page", Some("Ctrl+Shift+N"))),
    (PageDelete, ActionMetadata("Page", "Icon.PageDelete", "Delete Page", None)),
    (PageDuplicate, ActionMetadata("Page", "Icon.PageDuplicate", "Duplicate Page", Some("Ctrl+D")))
  ]

  /** The catalog's keys, in declaration order. */
  function Keys(t: seq<(string, ActionMetadata)>): (r: seq<string>)
    ensures |r| == |t| && forall i :: 0 <= i < |t| ==> r[i] == t[i].0
  {
    if |t| == 0 then [] else [t[0].0] + Keys(t[1..])
  }

  /** No id is catalogued twice (a C# dictionary initializer would throw). */
  predicate DistinctKeys(t: seq<(string, ActionMetadata)>)
  {
    forall i, j :: 0 <= i < j < |t| ==> t[i].0 != t[j].0
  }

  /** `TryGetValue` on the table: the entry with that id, or `None`. */
  function Lookup(t: seq<(string, ActionMetadata)>, actionId: string): (r: Option<ActionMetadata>)
    ensures r.None? <==> forall i :: 0 <= i < |t| ==> t[i].0 != actionId
    ensures r.Some? ==> (actionId, r.value) in t
  {
    if |t| == 0 then None
    else if t[0].0 == actionId then Some(t[0].1)
    else Lookup(t[1..], actionId)
  }

  /** With distinct keys, every entry is found by its own id. */
  lemma {:induction false} LookupFindsEntry(t: seq<(string, ActionMetadata)>, i: nat)
    requires DistinctKeys(t) && i < |t|
    ensures Lookup(t, t[i].0) == Some(t[i].1)
  {
    if i > 0 {
      assert t[0].0 != t[i].0;
      LookupFindsEntry(t[1..], i - 1);
    }
  }

  /** `GetMetadata`: the catalogued entry of an id, or none for an id the
      catalog does not list. */
  function GetMetadata(actionId: string): (r: Option<ActionMetadata>)
    ensures r.None? <==> actionId !in GetAllActionIds()
    ensures r.Some? ==> (actionId, r.value) in Table
  {
    Lookup(Table, actionId)
  }

  /** `GetAllActionIds`: the catalogued ids, in catalog order. */
  function GetAllActionIds(): (r: seq<string>)
    ensures |r| == |Table| && forall i :: 0 <= i < |r| ==> r[i] == Table[i].0
  {
    Keys(Table)
  }

  /** The first letter of the ids in each row: the catalog lists the
      tool, navigation, edit, view, file and page actions in blocks. */
  function Block(i: int): char
  {
    if i < 6 then 't' else if i < 10 then 'n' else if i < 17 then 'e'
    else if i < 21 then 'v' else if i < 25 then 'f' else 'p'
  }

  /** Within one block the ids are distinct. */
  lemma BlocksDistinct(i: int, j: int)
    requires 0 <= i < j < |Table| && Block(i) == Block(j)
    ensures Table[i].0 != Table[j].0
  {
  }

  /** The catalog holds 28 distinct ids. */
  lemma CatalogShape()
    ensures |Table| == 28 && DistinctKeys(Table)
  {
    forall i | 0 <= i < |Table|
      ensures |Table[i].0| > 0 && Table[i].0[0] == Block(i)
    {
    }
    forall i, j | 0 <= i < j < |Table|
      ensures Table[i].0 != Table[j].0
    {
      if Block(i) == Block(j) {
        BlocksDistinct(i, j);
      }
    }
  }

  /** Each catalogued id yields its own entry; `GetAllActionIds` lists
      exactly the ids `GetMetadata` knows, each once. */
  lemma CatalogLookups()
    ensures forall i :: 0 <= i < |Table| ==> GetMetadata(Table[i].0) == Some(Table[i].1)
    ensures forall id :: id in GetAllActionIds() <==> GetMetadata(id).Some?
    ensures forall i, j :: 0 <= i < j < |GetAllActionIds()| ==> GetAllActionIds()[i] != GetAllActionIds()[j]
  {
    CatalogShape();
    forall i | 0 <= i < |Table|
      ensures GetMetadata(Table[i].0) == Some(Table[i].1)
    {
      LookupFindsEntry(Table, i);
    }
  }

  lemma NotInTable(actionId: string)
    requires forall i :: 0 <= i < |Table| ==> Table[i].0 != actionId
    ensures GetMetadata(actionId) == None
  {
  }

  /** Two defined ids have no catalog entry. */
  lemma UncataloguedIds()
    ensures GetMetadata(NavPageGoto) == None
    ensures GetMetadata(ViewFullscreen) == None
  {
    // Every catalogued id of the same length differs from `nav.page.goto`
    // at position 9 and from `view.fullscreen` at position 5.
    forall i | 0 <= i < |Table|
      ensures |Table[i].0| != 13 || Table[i].0[9] != 'g'
      ensures |Table[i].0| != 15 || Table[i].0[5] != 'f'
    {
    }
    NotInTable(NavPageGoto);
    NotInTable(ViewFullscreen);
  }

  /** Only `page.delete` lacks a gesture hint. */
  lemma OnlyPageDeleteLacksHint()
    ensures forall i :: 0 <= i < |Table| ==> (Table[i].1.gestureHint.None? <==> Table[i].0 == PageDelete)
    ensures GetMetadata(PageDelete) == Some(ActionMetadata("Page", "Icon.PageDelete", "Delete Page", None))
  {
    CatalogShape();
    forall i | 0 <= i < |Table|
      ensures Table[i].1.gestureHint.None? <==> Table[i].0 == PageDelete
    {
      assert Table[26].0 == PageDelete;
      if i != 26 {
        assert Table[i].0 != Table[26].0;
      }
    }
    LookupFindsEntry(Table, 26);
  }
}
