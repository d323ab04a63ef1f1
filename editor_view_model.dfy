/** The editor's view model: the open notebook, the page being shown,
    the current drawing tool with its colour and width, the undo and redo
    stacks, and the structural edits (new page, moving a page into a
    section, reordering sections, new section) after which the page list
    is rebuilt in section order and numbered 1..n.

    Pages are referred to by id: `CurrentPage` is the id of the page
    shown, and an edit "to the current page" applies to the notebook's
    page with that id. */
module Editor {
  import opened Common
  import opened Models
  import opened DocumentLists
  import opened PageOrdering
  import BaseTools
  import HighlighterTools

  // ---------------------------------------------------------------------
  // Ribbon

  /** The editor's ribbon states. */
  datatype RibbonMode = Full | TabsOnly | FullScreen

  /** `CycleRibbonMode`: Full, TabsOnly, FullScreen, Full. */
  function NextRibbonMode(m: RibbonMode): (r: RibbonMode)
    ensures r != m
  {
    match m
    case Full => TabsOnly
    case TabsOnly => FullScreen
    case FullScreen => Full
  }

  /** The toolbar is hidden only in FullScreen. */
  predicate IsRibbonVisible(m: RibbonMode)
    ensures IsRibbonVisible(m) <==> m == Full || m == TabsOnly
  {
    m != FullScreen
  }

  /** The full toolbar shows only in Full, and then it is visible. */
  predicate IsRibbonFull(m: RibbonMode)
    ensures IsRibbonFull(m) ==> IsRibbonVisible(m)
    ensures IsRibbonFull(m) <==> m != TabsOnly && m != FullScreen
  {
    m == Full
  }

  /** Three presses come back to the start, passing through every state,
      and leaving FullScreen always restores the full ribbon. */
  lemma RibbonCycle(m: RibbonMode)
    ensures NextRibbonMode(NextRibbonMode(NextRibbonMode(m))) == m
    ensures {m, NextRibbonMode(m), NextRibbonMode(NextRibbonMode(m))} == {Full, TabsOnly, FullScreen}
    ensures !IsRibbonVisible(m) ==> IsRibbonFull(NextRibbonMode(m))
  {
  }

  // ---------------------------------------------------------------------
  // Section colours

  /** The rotation `GetNextSectionColor` picks from. */
  const SectionColors: seq<string> :=
    ["#7C3AED", "#2563EB", "#059669", "#D97706", "#DC2626", "#DB2777", "#4F46E5", "#0891B2"]

  /** The colour for a notebook that already has `sectionCount` sections. */
  function NextSectionColor(sectionCount: nat): (c: string)
    ensures c in SectionColors
  {
    SectionColors[sectionCount % |SectionColors|]
  }

  /** The colours repeat every eight sections and never sooner: any eight
      consecutive sections get eight different colours. */
  lemma SectionColorsRotate(n: nat)
    ensures NextSectionColor(n + 8) == NextSectionColor(n)
    ensures forall k :: n < k < n + 8 ==> NextSectionColor(k) != NextSectionColor(n)
  {
    assert (n + 8) % 8 == n % 8;
    forall k | n < k < n + 8
      ensures NextSectionColor(k) != NextSectionColor(n)
    {
      assert k % 8 != n % 8;
      ColorsDistinct(k % 8, n % 8);
    }
  }

  lemma ColorsDistinct(a: nat, b: nat)
    requires a < 8 && b < 8 && a != b
    ensures SectionColors[a] != SectionColors[b]
  {
    var c := SectionColors;
    assert c[a][1] != c[b][1] || c[a][2] != c[b][2] || c[a][3] != c[b][3];
  }

  // ---------------------------------------------------------------------
  // New pages

  /** `new Page { NotebookId, SectionId, Format, Template }`: the
      notebook's default format and template, page number 1, no strokes. */
  function NewPage(id: Guid, nb: Notebook, sectionId: Option<Guid>): (p: Page)
    ensures p.id == id && p.notebookId == nb.id && p.sectionId == sectionId
    ensures p.pageNumber == 1 && p.format == nb.defaultFormat && p.template == nb.defaultTemplate && p.strokes == []
  {
    Page(id, nb.id, sectionId, 1, nb.defaultFormat, nb.defaultTemplate, [])
  }

  /** `List.IndexOf`: the first position holding `x`, or -1. */
  function IndexOf<T(==)>(xs: seq<T>, x: T): (i: int)
    ensures x in xs ==> 0 <= i < |xs| && xs[i] == x && x !in xs[..i]
    ensures x !in xs ==> i == -1
  {
    if |xs| == 0 then -1
    else if xs[0] == x then 0
    else
      var j := IndexOf(xs[1..], x);
      assert x in xs ==> x in xs[1..] by { assert xs == [xs[0]] + xs[1..]; }
      assert x in xs[1..] ==> xs[..j + 1] == [xs[0]] + xs[1..][..j];
      if j < 0 then -1 else j + 1
  }

  /** The position `AddNewPage` inserts at: after the section's last page
      (by page number) when a section with pages is given, at the end when
      the section has none, otherwise after the current page (0 in an
      empty notebook). */
  function InsertIndex(pages: seq<Page>, sectionId: Option<Guid>, currentPageIndex: int): (k: int)
    ensures sectionId.Some? ==> 0 <= k <= |pages|
    ensures sectionId.None? && currentPageIndex >= 0 ==> k >= 0
  {
    if sectionId.Some? then
      if PagesIn(pages, sectionId) != [] then IndexOf(pages, LastOfSection(pages, sectionId.value)) + 1 else |pages|
    else if |pages| > 0 then currentPageIndex + 1 else 0
  }

  /** With a section that has pages, the new page goes right after the
      section's page with the highest number. */
  lemma InsertAfterSection(pages: seq<Page>, sid: Guid, currentPageIndex: int)
    requires PagesIn(pages, Some(sid)) != []
    ensures var k := InsertIndex(pages, Some(sid), currentPageIndex);
      1 <= k <= |pages| && pages[k - 1].sectionId == Some(sid) &&
      forall p :: p in pages && p.sectionId == Some(sid) ==> p.pageNumber <= pages[k - 1].pageNumber
  {
    var last := LastOfSection(pages, sid);
    var k := IndexOf(pages, last) + 1;
    assert InsertIndex(pages, Some(sid), currentPageIndex) == k;
    assert pages[k - 1] == last;
  }

  /** The section's page with the highest number, as `AddNewPage` finds
      it: the last one after sorting by page number. */
  function LastOfSection(pages: seq<Page>, sid: Guid): (last: Page)
    requires PagesIn(pages, Some(sid)) != []
    ensures last in pages && last.sectionId == Some(sid)
    ensures forall p :: p in pages && p.sectionId == Some(sid) ==> p.pageNumber <= last.pageNumber
  {
    var pin := PagesIn(pages, Some(sid));
    var sp := SortBy(pin, PageNumberKey);
    var last := sp[|sp| - 1];
    assert last in pin;
    assert forall p :: p in pages && p.sectionId == Some(sid) ==> p.pageNumber <= last.pageNumber by {
      forall p | p in pages && p.sectionId == Some(sid)
        ensures p.pageNumber <= last.pageNumber
      {
        assert p in pin;
        LastHasHighestNumber(sp, p);
      }
    }
    last
  }

  /** The last page of a list sorted by page number has the highest number. */
  lemma LastHasHighestNumber(sp: seq<Page>, p: Page)
    requires SortedBy(sp, PageNumberKey) && p in sp
    ensures p.pageNumber <= sp[|sp| - 1].pageNumber
  {
    var i :| 0 <= i < |sp| && sp[i] == p;
    if i < |sp| - 1 {
      assert PageNumberKey(sp[i]) <= PageNumberKey(sp[|sp| - 1]);
    }
  }

  /** A section without pages gets the new page at the end; without a
      section it goes right after the current page (at 0 in an empty
      notebook). */
  lemma InsertIndexPlacement(pages: seq<Page>, sectionId: Option<Guid>, currentPageIndex: int)
    ensures sectionId.Some? && PagesIn(pages, sectionId) == [] ==> InsertIndex(pages, sectionId, currentPageIndex) == |pages|
    ensures sectionId.None? && |pages| > 0 ==> InsertIndex(pages, sectionId, currentPageIndex) == currentPageIndex + 1
    ensures sectionId.None? && |pages| == 0 ==> InsertIndex(pages, sectionId, currentPageIndex) == 0
  {
  }

  /** Inserting at `k` and rebuilding keeps the new page, renumbered to
      its new position, when its section exists (or it has none). */
  lemma NewPageKept(pages: seq<Page>, sections: seq<Section>, k: nat, page: Page)
    requires k <= |pages| && Kept(page, sections)
    ensures var r := Renumbered(pages[..k] + [page] + pages[k..], sections);
      exists i :: 0 <= i < |r| && r[i] == page.(pageNumber := i + 1)
  {
    var ins := pages[..k] + [page] + pages[k..];
    assert ins[k] == page;
    var g := Grouped(ins, sections);
    assert page in g;
    var i :| 0 <= i < |g| && g[i] == page;
    assert Renumbered(ins, sections)[i] == page.(pageNumber := i + 1);
  }

  lemma {:induction false} KeptPagesConcat(a: seq<Page>, b: seq<Page>, sections: seq<Section>)
    ensures KeptPages(a + b, sections) == KeptPages(a, sections) + KeptPages(b, sections)
  {
    if |a| > 0 {
      assert (a + b)[1..] == a[1..] + b;
      KeptPagesConcat(a[1..], b, sections);
    } else {
      assert a + b == b;
    }
  }

  lemma KeptPagesInsert(a: seq<Page>, b: seq<Page>, page: Page, sections: seq<Section>)
    requires Kept(page, sections)
    ensures |KeptPages(a + [page] + b, sections)| == |KeptPages(a + b, sections)| + 1
  {
    KeptPagesConcat(a + [page], b, sections);
    KeptPagesConcat(a, [page], sections);
    KeptPagesConcat(a, b, sections);
    assert KeptPages([page], sections) == [page] by {
      assert KeptPages([page][1..], sections) == [];
    }
  }

  /** With distinct section ids, adding a page to an existing section (or
      to none) makes the rebuilt list exactly one page longer. */
  lemma NewPageAddsOne(pages: seq<Page>, sections: seq<Section>, k: nat, page: Page)
    requires k <= |pages| && Kept(page, sections) && DistinctSectionIds(sections)
    ensures |Renumbered(pages[..k] + [page] + pages[k..], sections)| == |Renumbered(pages, sections)| + 1
  {
    KeptPagesInsert(pages[..k], pages[k..], page, sections);
    assert pages[..k] + pages[k..] == pages;
    RenumberKeepsPages(pages[..k] + [page] + pages[k..], sections);
    RenumberKeepsPages(pages, sections);
  }

  /** The section loop collects nothing from a lone unsectioned page. */
  lemma {:induction false} GroupsWithoutSections(os: seq<Section>, page: Page)
    requires page.sectionId.None?
    ensures Groups(os, [page]) == []
  {
    if |os| > 0 {
      GroupsWithoutSections(os[..|os| - 1], page);
      assert PagesIn([page], Some(os[|os| - 1].id)) == [] by {
        assert PagesIn([page][1..], Some(os[|os| - 1].id)) == [];
      }
    }
  }

  lemma LonePageRenumbered(page: Page, sections: seq<Section>)
    requires page.sectionId.None? && page.pageNumber == 1
    ensures Renumbered([page], sections) == [page]
  {
    GroupsWithoutSections(SortBy(sections, SortOrderKey), page);
    assert PagesIn([page], None) == [page] by {
      assert PagesIn([page][1..], None) == [];
    }
    assert SortBy([page], PageNumberKey) == [page] by {
      assert SortBy([page][1..], PageNumberKey) == [];
    }
  }

  /** In an empty notebook the new unsectioned page goes in at 0 and is
      the whole rebuilt list. */
  lemma FirstPageInserted(nb: Notebook, id: Guid, currentPageIndex: int)
    requires |nb.pages| == 0
    ensures InsertIndex(nb.pages, None, currentPageIndex) == 0
    ensures var page := NewPage(id, nb, None);
      Renumbered(nb.pages[..0] + [page] + nb.pages[0..], nb.sections) == [page]
  {
    var page := NewPage(id, nb, None);
    assert nb.pages[..0] + [page] + nb.pages[0..] == [page];
    LonePageRenumbered(page, nb.sections);
  }

  /** The new page is not where `CurrentPageIndex` ends up: after pages 1
      and 2 with the second one shown, the new unsectioned page (number 1)
      sorts between them, lands at index 1, and index 2, the position it
      was inserted at, now holds the old second page. */
  lemma NewPageNotShown()
    ensures
      var p1 := Page(Guid(1), Guid(9), None, 1, A4, Blank, []);
      var p2 := Page(Guid(2), Guid(9), None, 2, A4, Blank, []);
      var added := Page(Guid(3), Guid(9), None, 1, A4, Blank, []);
      var k := InsertIndex([p1, p2], None, 1);
      var r := Renumbered([p1, p2][..k] + [added] + [p1, p2][k..], []);
      k == 2 && |r| == 3 && r[1] == added.(pageNumber := 2) && r[2] == p2.(pageNumber := 3)
  {
    var p1 := Page(Guid(1), Guid(9), None, 1, A4, Blank, []);
    var p2 := Page(Guid(2), Guid(9), None, 2, A4, Blank, []);
    var added := Page(Guid(3), Guid(9), None, 1, A4, Blank, []);
    NewPageSortsBack(p1, p2, added);
  }

  /** In a notebook of two unsectioned pages showing the second, a new
      unsectioned page whose number falls between theirs is inserted at
      index 2 but rebuilt into index 1, and index 2 then holds the old
      second page. */
  lemma NewPageSortsBack(p1: Page, p2: Page, added: Page)
    requires p1.sectionId.None? && p2.sectionId.None? && added.sectionId.None?
    requires p1.pageNumber <= added.pageNumber < p2.pageNumber
    ensures var k := InsertIndex([p1, p2], None, 1);
            var r := Renumbered([p1, p2][..k] + [added] + [p1, p2][k..], []);
            k == 2 && |r| == 3 && r[1] == added.(pageNumber := 2) && r[2] == p2.(pageNumber := 3)
  {
    assert InsertIndex([p1, p2], None, 1) == 2;
    var ins := [p1, p2, added];
    assert [p1, p2][..2] + [added] + [p1, p2][2..] == ins;
    UnsectionedOfThree(p1, p2, added);
    assert Groups(SortBy([], SortOrderKey), ins) == [];
    var g := Grouped(ins, []);
    assert g == [p1, added, p2];
    assert Numbered(g)[1] == added.(pageNumber := 2) && Numbered(g)[2] == p2.(pageNumber := 3);
  }

  /** Pages that all lack a section are their own unsectioned list. */
  lemma {:induction false} AllUnsectioned(ps: seq<Page>)
    requires forall p :: p in ps ==> p.sectionId.None?
    ensures PagesIn(ps, None) == ps
  {
    if |ps| > 0 {
      assert ps[0] in ps;
      AllUnsectioned(ps[1..]);
      assert ps == [ps[0]] + ps[1..];
    }
  }

  /** Three unsectioned pages where the third's number falls between the
      first's and the second's are shown in the order first, third,
      second. */
  lemma UnsectionedOfThree(a: Page, b: Page, c: Page)
    requires a.sectionId.None? && b.sectionId.None? && c.sectionId.None?
    requires a.pageNumber <= c.pageNumber < b.pageNumber
    ensures Unsectioned([a, b, c]) == [a, c, b]
  {
    AllUnsectioned([a, b, c]);
    SortThree(a, b, c, PageNumberKey);
  }

  // ---------------------------------------------------------------------
  // Page edits

  /** Every page with id `pageId` moved to `sectionId` (`page.SectionId = …`). */
  function WithSection(pages: seq<Page>, pageId: Guid, sectionId: Option<Guid>): (r: seq<Page>)
    ensures |r| == |pages|
    ensures forall i :: 0 <= i < |r| ==> r[i] == if pages[i].id == pageId then pages[i].(sectionId := sectionId) else pages[i]
  {
    seq(|pages|, i requires 0 <= i < |pages| => if pages[i].id == pageId then pages[i].(sectionId := sectionId) else pages[i])
  }

  /** After `MovePageToSection`, the moved page reappears, renumbered and
      carrying the target section, when the target exists or is no
      section; a page moved to a section the notebook does not have
      disappears from the rebuilt list. */
  lemma MovedPagePlacement(pages: seq<Page>, sections: seq<Section>, pageId: Guid, target: Option<Guid>)
    ensures var r := Renumbered(WithSection(pages, pageId, target), sections);
      (target.None? || target.value in SectionIdSet(sections)) ==>
        forall p :: p in pages && p.id == pageId ==>
          exists i :: 0 <= i < |r| && r[i] == p.(sectionId := target).(pageNumber := i + 1)
    ensures var r := Renumbered(WithSection(pages, pageId, target), sections);
      target.Some? && target.value !in SectionIdSet(sections) ==> forall i :: 0 <= i < |r| ==> r[i].id != pageId
  {
    if target.None? || target.value in SectionIdSet(sections) {
      forall p | p in pages && p.id == pageId
        ensures var r := Renumbered(WithSection(pages, pageId, target), sections);
          exists i :: 0 <= i < |r| && r[i] == p.(sectionId := target).(pageNumber := i + 1)
      {
        MovedPageKept(pages, sections, pageId, target, p);
      }
    } else {
      MovedPageDropped(pages, sections, pageId, target.value);
    }
  }

  lemma MovedPageKept(pages: seq<Page>, sections: seq<Section>, pageId: Guid, target: Option<Guid>, p: Page)
    requires target.None? || target.value in SectionIdSet(sections)
    requires p in pages && p.id == pageId
    ensures var r := Renumbered(WithSection(pages, pageId, target), sections);
      exists i :: 0 <= i < |r| && r[i] == p.(sectionId := target).(pageNumber := i + 1)
  {
    var moved := WithSection(pages, pageId, target);
    var g := Grouped(moved, sections);
    var r := Numbered(g);
    var j :| 0 <= j < |pages| && pages[j] == p;
    assert moved[j] == p.(sectionId := target);
    assert p.(sectionId := target) in g;
    var i :| 0 <= i < |g| && g[i] == p.(sectionId := target);
    assert Renumbered(moved, sections) == r;
    assert 0 <= i < |r| && r[i] == p.(sectionId := target).(pageNumber := i + 1);
  }

  lemma MovedPageDropped(pages: seq<Page>, sections: seq<Section>, pageId: Guid, target: Guid)
    requires target !in SectionIdSet(sections)
    ensures var r := Renumbered(WithSection(pages, pageId, Some(target)), sections);
      forall i :: 0 <= i < |r| ==> r[i].id != pageId
  {
    var moved := WithSection(pages, pageId, Some(target));
    var g := Grouped(moved, sections);
    var r := Numbered(g);
    forall i | 0 <= i < |r|
      ensures r[i].id != pageId
    {
      assert g[i] in moved && Kept(g[i], sections);
      var j :| 0 <= j < |moved| && moved[j] == g[i];
    }
  }

  // ---------------------------------------------------------------------
  // Undo and redo

  datatype UndoActionType = AddStroke | RemoveStroke | AddShape | RemoveShape | AddTextBlock | RemoveTextBlock

  /** An undoable action and the stroke it concerns. Only stroke actions
      are ever recorded; the other kinds undo and redo to nothing. */
  datatype UndoAction = UndoAction(kind: UndoActionType, data: Stroke)

  /** The kinds whose undo and redo touch the page's strokes. */
  predicate TouchesStrokes(k: UndoActionType) { k == AddStroke || k == RemoveStroke }

  /** `UndoAction.Undo` on a page's stroke list: an added stroke is
      removed (its first occurrence), a removed stroke is appended again. */
  function UndoOn(a: UndoAction, strokes: seq<Stroke>): (r: seq<Stroke>)
    ensures a.kind == AddStroke ==> multiset(r) == multiset(strokes) - multiset{a.data}
    ensures a.kind == RemoveStroke ==> multiset(r) == multiset(strokes) + multiset{a.data}
    ensures !TouchesStrokes(a.kind) ==> r == strokes
  {
    match a.kind
    case AddStroke => RemoveFirst(strokes, a.data)
    case RemoveStroke => strokes + [a.data]
    case _ => strokes
  }

  /** `UndoAction.Redo`: the mirror image of `UndoOn`. */
  function RedoOn(a: UndoAction, strokes: seq<Stroke>): (r: seq<Stroke>)
    ensures a.kind == AddStroke ==> r == strokes + [a.data]
    ensures a.kind == RemoveStroke ==> multiset(r) == multiset(strokes) - multiset{a.data}
    ensures !TouchesStrokes(a.kind) ==> r == strokes
  {
    match a.kind
    case AddStroke => strokes + [a.data]
    case RemoveStroke => RemoveFirst(strokes, a.data)
    case _ => strokes
  }

  lemma RemoveAppended<T>(s: seq<T>, x: T)
    requires x !in s
    ensures RemoveFirst(s + [x], x) == s
  {
    RemoveFirstAt(s + [x], x, |s|);
    assert (s + [x])[..|s|] == s;
  }

  /** Redo after undo, and undo after redo, give back the stroke list when
      the action's stroke is not already on it; in particular undoing a
      freshly added stroke restores the list it was added to. */
  lemma UndoRedoRoundTrip(a: UndoAction, strokes: seq<Stroke>)
    requires a.data !in strokes
    ensures a.kind != RemoveStroke ==> UndoOn(a, RedoOn(a, strokes)) == strokes
    ensures a.kind != AddStroke ==> RedoOn(a, UndoOn(a, strokes)) == strokes
    ensures a.kind == AddStroke ==> UndoOn(a, strokes + [a.data]) == strokes
  {
    if TouchesStrokes(a.kind) {
      RemoveAppended(strokes, a.data);
    }
  }

  /** The action undone on every page with id `pageId`. */
  function UndoOnPage(pages: seq<Page>, pageId: Guid, a: UndoAction): (r: seq<Page>)
    ensures |r| == |pages|
    ensures forall i :: 0 <= i < |r| ==> r[i] == if pages[i].id == pageId then pages[i].(strokes := UndoOn(a, pages[i].strokes)) else pages[i]
  {
    seq(|pages|, i requires 0 <= i < |pages| => if pages[i].id == pageId then pages[i].(strokes := UndoOn(a, pages[i].strokes)) else pages[i])
  }

  /** The action redone on every page with id `pageId`. */
  function RedoOnPage(pages: seq<Page>, pageId: Guid, a: UndoAction): (r: seq<Page>)
    ensures |r| == |pages|
    ensures forall i :: 0 <= i < |r| ==> r[i] == if pages[i].id == pageId then pages[i].(strokes := RedoOn(a, pages[i].strokes)) else pages[i]
  {
    seq(|pages|, i requires 0 <= i < |pages| => if pages[i].id == pageId then pages[i].(strokes := RedoOn(a, pages[i].strokes)) else pages[i])
  }

  /** The round trip lifted to the notebook: only the addressed page is
      touched, and it gets its strokes back. */
  lemma UndoRedoOnPages(pages: seq<Page>, pageId: Guid, a: UndoAction)
    requires forall i :: 0 <= i < |pages| && pages[i].id == pageId ==> a.data !in pages[i].strokes
    ensures a.kind != RemoveStroke ==> UndoOnPage(RedoOnPage(pages, pageId, a), pageId, a) == pages
    ensures a.kind != AddStroke ==> RedoOnPage(UndoOnPage(pages, pageId, a), pageId, a) == pages
  {
    forall i | 0 <= i < |pages| && pages[i].id == pageId {
      UndoRedoRoundTrip(a, pages[i].strokes);
    }
  }

  /** The action undone on the current page of the notebook, if both exist. */
  function UndoIn(nb: Option<Notebook>, page: Option<Guid>, a: UndoAction): Option<Notebook>
  {
    if nb.Some? && page.Some? then Some(nb.value.(pages := UndoOnPage(nb.value.pages, page.value, a))) else nb
  }

  function RedoIn(nb: Option<Notebook>, page: Option<Guid>, a: UndoAction): Option<Notebook>
  {
    if nb.Some? && page.Some? then Some(nb.value.(pages := RedoOnPage(nb.value.pages, page.value, a))) else nb
  }

  function Top(stack: seq<UndoAction>): UndoAction
    requires |stack| > 0
  {
    stack[|stack| - 1]
  }

  function Pop(stack: seq<UndoAction>): seq<UndoAction>
    requires |stack| > 0
  {
    stack[..|stack| - 1]
  }

  // ---------------------------------------------------------------------
  // Tools

  /** The modes that have a tool object (`_tools`). */
  const RegisteredTools: set<ToolMode> := {Pen, Highlighter, Eraser, Shape}

  /** Each registered tool's colour and width as constructed. */
  const InitialToolColors: map<ToolMode, string> :=
    map[Pen := BaseTools.DefaultColor, Highlighter := HighlighterTools.HighlighterColor,
        Eraser := BaseTools.DefaultColor, Shape := BaseTools.DefaultColor]
  const InitialToolWidths: map<ToolMode, real> :=
    map[Pen := BaseTools.DefaultWidth, Highlighter := HighlighterTools.HighlighterWidth,
        Eraser := BaseTools.DefaultWidth, Shape := BaseTools.DefaultWidth]

  /** The `CurrentPageIndex` setter's guard. */
  predicate IndexInRange(notebook: Option<Notebook>, value: int)
  {
    notebook.Some? && 0 <= value < |notebook.value.pages|
  }

  // ---------------------------------------------------------------------
  // The view model

  class EditorViewModel {
    var notebook: Option<Notebook>
    /** `CurrentPage`, by id. */
    var currentPage: Option<Guid>
    var currentPageIndex: int
    var currentToolMode: ToolMode
    /** The mode whose tool object is `_currentTool`. */
    var currentTool: Option<ToolMode>
    /** The registered tools whose `IsActive` is set. */
    var activeTools: set<ToolMode>
    var currentColor: string
    var currentWidth: real
    /** The `Color` and `Width` of each registered tool. */
    var toolColors: map<ToolMode, string>
    var toolWidths: map<ToolMode, real>
    /** `_undoStack` and `_redoStack`, top of the stack last. */
    var undoStack: seq<UndoAction>
    var redoStack: seq<UndoAction>
    var ribbonMode: RibbonMode

    /** The page index never goes negative, every registered tool has a
        colour and a width, and at most the current tool is active. */
    ghost predicate Valid()
      reads this
    {
      0 <= currentPageIndex &&
      toolColors.Keys == RegisteredTools && toolWidths.Keys == RegisteredTools &&
      (currentTool.Some? ==> currentTool.value in RegisteredTools) &&
      (forall t :: t in activeTools ==> currentTool == Some(t))
    }

    twostate predicate ToolsUnchanged()
      reads this
    {
      currentToolMode == old(currentToolMode) && currentTool == old(currentTool) && activeTools == old(activeTools) &&
      currentColor == old(currentColor) && currentWidth == old(currentWidth) &&
      toolColors == old(toolColors) && toolWidths == old(toolWidths) && ribbonMode == old(ribbonMode)
    }

    twostate predicate HistoryUnchanged()
      reads this
    {
      undoStack == old(undoStack) && redoStack == old(redoStack)
    }

    twostate predicate PlaceUnchanged()
      reads this
    {
      currentPage == old(currentPage) && currentPageIndex == old(currentPageIndex)
    }

    /** The outcome of `CurrentPageIndex = value`: the page at `value` is
        shown when the index is in range, otherwise nothing moves. */
    twostate predicate MovedTo(value: int)
      reads this
    {
      if IndexInRange(notebook, value) then currentPageIndex == value && currentPage == Some(notebook.value.pages[value].id)
      else currentPageIndex == old(currentPageIndex) && currentPage == old(currentPage)
    }

    /** No notebook, the pen selected and active in black at width 2, empty
        history, full ribbon. */
    constructor()
      ensures Valid()
      ensures notebook.None? && currentPage.None? && currentPageIndex == 0
      ensures currentToolMode == Pen && currentTool == Some(Pen) && activeTools == {Pen}
      ensures currentColor == "#000000" && currentWidth == 2.0
      ensures toolColors == InitialToolColors && toolWidths == InitialToolWidths
      ensures undoStack == [] && redoStack == [] && ribbonMode == Full
    {
      notebook := None;
      currentPage := None;
      currentPageIndex := 0;
      currentToolMode := Pen;
      currentTool := Some(Pen);
      activeTools := {Pen};
      currentColor := "#000000";
      currentWidth := 2.0;
      toolColors := InitialToolColors;
      toolWidths := InitialToolWidths;
      undoStack := [];
      redoStack := [];
      ribbonMode := Full;
    }

    /** The `Notebook` setter: shows the first page of a non-empty
        notebook; the page index is left as it was. */
    method SetNotebook(value: Option<Notebook>)
      requires Valid()
      modifies this
      ensures Valid() && notebook == value
      ensures currentPage == if value.Some? && |value.value.pages| > 0 then Some(value.value.pages[0].id) else old(currentPage)
      ensures currentPageIndex == old(currentPageIndex)
      ensures ToolsUnchanged() && HistoryUnchanged()
    {
      notebook := value;
      if value.Some? && |value.value.pages| > 0 {
        currentPage := Some(value.value.pages[0].id);
      }
    }

    /** The `CurrentPageIndex` setter: out-of-range values are ignored. */
    method SetCurrentPageIndex(value: int)
      requires Valid()
      modifies this
      ensures Valid() && MovedTo(value)
      ensures notebook == old(notebook) && ToolsUnchanged() && HistoryUnchanged()
    {
      if notebook.Some? && 0 <= value < |notebook.value.pages| {
        currentPageIndex := value;
        currentPage := Some(notebook.value.pages[value].id);
      }
    }

    /** A no-op on the last page. */
    method NextPage()
      requires Valid()
      modifies this
      ensures Valid() && MovedTo(old(currentPageIndex) + 1)
      ensures notebook == old(notebook) && ToolsUnchanged() && HistoryUnchanged()
    {
      SetCurrentPageIndex(currentPageIndex + 1);
    }

    /** A no-op on the first page. */
    method PreviousPage()
      requires Valid()
      modifies this
      ensures Valid() && MovedTo(old(currentPageIndex) - 1)
      ensures notebook == old(notebook) && ToolsUnchanged() && HistoryUnchanged()
    {
      SetCurrentPageIndex(currentPageIndex - 1);
    }

    /** `RenumberPages`: sections in `SortOrder` order, each with its pages
        in page-number order, then the unsectioned pages; pages of unknown
        sections are dropped; the result is numbered 1..n. */
    method RenumberPages() returns (o: Outcome)
      requires Valid()
      modifies this
      ensures Valid()
      ensures old(notebook).None? ==> o == Threw(NullReference) && notebook == old(notebook)
      ensures old(notebook).Some? ==> o == Done
      ensures old(notebook).Some? ==>
        notebook == Some(old(notebook).value.(pages := Renumbered(old(notebook).value.pages, old(notebook).value.sections)))
      ensures PlaceUnchanged() && ToolsUnchanged() && HistoryUnchanged()
    {
      if notebook.None? {
        return Threw(NullReference);
      }
      var nb := notebook.value;
      var grouped := GroupPages(nb.pages, nb.sections);
      var newPageList := NumberPages(grouped);
      notebook := Some(nb.(pages := newPageList));
      o := Done;
    }

    /** `AddNewPage(sectionId)`: inserts a fresh page at `InsertIndex`,
        rebuilds the page list, then sets `CurrentPageIndex` to the
        insertion index. `freshId` is the id `new Page()` draws. */
    method AddNewPage(freshId: Guid, sectionId: Option<Guid>) returns (r: Result<Page>)
      requires Valid()
      modifies this
      ensures Valid() && ToolsUnchanged() && HistoryUnchanged()
      ensures old(notebook).None? ==> r == Fault(NullReference) && notebook == old(notebook) && PlaceUnchanged()
      ensures old(notebook).Some? ==>
        var nb := old(notebook).value;
        var k := InsertIndex(nb.pages, sectionId, old(currentPageIndex));
        var page := NewPage(freshId, nb, sectionId);
        if k < 0 || k > |nb.pages| then
          r == Fault(IndexOutOfRange) && notebook == old(notebook) && PlaceUnchanged()
        else
          r == Ok(page) && notebook == Some(nb.(pages := Renumbered(nb.pages[..k] + [page] + nb.pages[k..], nb.sections))) &&
          MovedTo(k)
    {
      if notebook.None? {
        return Fault(NullReference);
      }
      var nb := notebook.value;
      var insertIndex := InsertIndex(nb.pages, sectionId, currentPageIndex);
      var page := NewPage(freshId, nb, sectionId);
      if insertIndex < 0 || insertIndex > |nb.pages| {
        return Fault(IndexOutOfRange);
      }
      notebook := Some(nb.(pages := nb.pages[..insertIndex] + [page] + nb.pages[insertIndex..]));
      var _ := RenumberPages();
      SetCurrentPageIndex(insertIndex);
      r := Ok(page);
    }

    /** `MovePageToSection`: the page takes the target section, then the
        page list is rebuilt (the page index is not adjusted). */
    method MovePageToSection(page: Page, targetSectionId: Option<Guid>) returns (o: Outcome)
      requires Valid()
      modifies this
      ensures Valid() && PlaceUnchanged() && ToolsUnchanged() && HistoryUnchanged()
      ensures old(notebook).None? ==> o == Threw(NullReference) && notebook == old(notebook)
      ensures old(notebook).Some? ==> o == Done
      ensures old(notebook).Some? ==>
        var nb := old(notebook).value;
        notebook == Some(nb.(pages := Renumbered(WithSection(nb.pages, page.id, targetSectionId), nb.sections)))
    {
      if notebook.Some? {
        notebook := Some(notebook.value.(pages := WithSection(notebook.value.pages, page.id, targetSectionId)));
      }
      o := RenumberPages();
    }

    /** `ReorderSection`: the section is moved to the clamped index of the
        `SortOrder`-sorted list, every section's `SortOrder` is set to its
        position there, and the page list is rebuilt. */
    method ReorderSection(section: Section, newIndex: int) returns (o: Outcome)
      requires Valid()
      modifies this
      ensures Valid() && PlaceUnchanged() && ToolsUnchanged() && HistoryUnchanged()
      ensures old(notebook).None? ==> o == Threw(NullReference) && notebook == old(notebook)
      ensures old(notebook).Some? ==> o == Done
      ensures old(notebook).Some? ==>
        var nb := old(notebook).value;
        var ss := ReorderSections(nb.sections, section, newIndex);
        notebook == Some(nb.(sections := ss, pages := Renumbered(nb.pages, ss)))
    {
      if notebook.None? {
        return Threw(NullReference);
      }
      var nb := notebook.value;
      var ss := RenumberSections(nb.sections, section, newIndex);
      notebook := Some(nb.(sections := ss));
      o := RenumberPages();
    }

    /** `GoToSection`: shows the section's page when the notebook has it. */
    method GoToSection(section: Section) returns (o: Outcome)
      requires Valid()
      modifies this
      ensures Valid() && notebook == old(notebook) && ToolsUnchanged() && HistoryUnchanged()
      ensures old(notebook).None? ==> o == Threw(NullReference) && PlaceUnchanged()
      ensures old(notebook).Some? ==> o == Done
      ensures old(notebook).Some? ==>
        match FirstIndex(old(notebook).value.pages, PageKey, section.pageId)
        case Some(i) => currentPageIndex == i && currentPage == Some(section.pageId)
        case None => PlaceUnchanged()
    {
      if notebook.None? {
        return Threw(NullReference);
      }
      var found := FirstIndex(notebook.value.pages, PageKey, section.pageId);
      if found.Some? {
        SetCurrentPageIndex(found.value);
      }
      o := Done;
    }

    /** `AddNewPage(null)` on an empty notebook: the notebook's only page
        is the new unsectioned page, numbered 1, and it is shown. */
    method AddFirstPage(freshPageId: Guid)
      requires Valid() && notebook.Some? && |notebook.value.pages| == 0
      modifies this
      ensures Valid() && ToolsUnchanged() && HistoryUnchanged()
      ensures notebook == Some(old(notebook).value.(pages := [NewPage(freshPageId, old(notebook).value, None)]))
      ensures currentPage == Some(freshPageId) && currentPageIndex == 0
    {
      FirstPageInserted(notebook.value, freshPageId, currentPageIndex);
      var _ := AddNewPage(freshPageId, None);
    }

    /** `AddNewSection(title)`: in an empty notebook a page is added first;
        the section starts at the current page, takes the next palette
        colour and `SortOrder` equal to the number of sections before it,
        and the current page joins it. Pages are not renumbered.
        `freshSectionId` and `freshPageId` are the ids `new Section()` and
        `new Page()` draw. */
    method AddNewSection(freshSectionId: Guid, freshPageId: Guid, title: string) returns (r: Result<Section>)
      requires Valid()
      modifies this
      ensures Valid() && ToolsUnchanged() && HistoryUnchanged()
      ensures old(notebook).None? ==> r == Fault(NullReference) && notebook == old(notebook) && PlaceUnchanged()
      ensures old(notebook).Some? && |old(notebook).value.pages| > 0 && old(currentPage).None? ==>
        r == Fault(NullReference) && notebook == old(notebook) && PlaceUnchanged()
      ensures r.Ok? ==>
        var count := |old(notebook).value.sections|;
        notebook.Some? && currentPage.Some? &&
        r.value == Section(freshSectionId, notebook.value.id, currentPage.value, title, NextSectionColor(count), count) &&
        notebook.value.sections == old(notebook).value.sections + [r.value]
      ensures old(notebook).Some? && |old(notebook).value.pages| > 0 && old(currentPage).Some? ==>
        r.Ok? && PlaceUnchanged() &&
        notebook.value.pages == WithSection(old(notebook).value.pages, old(currentPage).value, Some(freshSectionId))
      ensures old(notebook).Some? && |old(notebook).value.pages| == 0 ==>
        r.Ok? && currentPage == Some(freshPageId) && currentPageIndex == 0 &&
        notebook.value.pages == [NewPage(freshPageId, old(notebook).value, Some(freshSectionId))]
    {
      if notebook.None? {
        return Fault(NullReference);
      }
      if |notebook.value.pages| == 0 {
        AddFirstPage(freshPageId);
      }
      if currentPage.None? {
        return Fault(NullReference);
      }
      var nb := notebook.value;
      var count := |nb.sections|;
      var section := Section(freshSectionId, nb.id, currentPage.value, title, NextSectionColor(count), count);
      notebook := Some(nb.(sections := nb.sections + [section], pages := WithSection(nb.pages, currentPage.value, Some(freshSectionId))));
      r := Ok(section);
    }

    /** `AddStroke`: the stroke is stamped with the current page, appended
        to it, and recorded for undo; the redo history is discarded. */
    method AddStroke(stroke: Stroke) returns (o: Outcome)
      requires Valid()
      modifies this
      ensures Valid() && PlaceUnchanged() && ToolsUnchanged()
      ensures old(currentPage).None? ==> o == Threw(NullReference) && notebook == old(notebook) && HistoryUnchanged()
      ensures old(currentPage).Some? ==>
        var a := UndoAction(UndoActionType.AddStroke, stroke.(pageId := old(currentPage).value));
        o == Done && undoStack == old(undoStack) + [a] && redoStack == [] &&
        notebook == RedoIn(old(notebook), old(currentPage), a)
    {
      if currentPage.None? {
        return Threw(NullReference);
      }
      var s := stroke.(pageId := currentPage.value);
      var action := UndoAction(UndoActionType.AddStroke, s);
      if notebook.Some? {
        notebook := Some(notebook.value.(pages := RedoOnPage(notebook.value.pages, currentPage.value, action)));
      }
      undoStack := undoStack + [action];
      redoStack := [];
      o := Done;
    }

    /** `Undo`: pops the last action, undoes it on the current page and
        pushes it for redo. A stroke action with no current page throws
        after the pop. */
    method Undo() returns (o: Outcome)
      requires Valid()
      modifies this
      ensures Valid() && PlaceUnchanged() && ToolsUnchanged()
      ensures |old(undoStack)| == 0 ==> o == Done && HistoryUnchanged() && notebook == old(notebook)
      ensures |old(undoStack)| > 0 ==> undoStack == Pop(old(undoStack))
      ensures |old(undoStack)| > 0 && old(currentPage).None? && TouchesStrokes(Top(old(undoStack)).kind) ==>
        o == Threw(NullReference) && redoStack == old(redoStack) && notebook == old(notebook)
      ensures |old(undoStack)| > 0 && !(old(currentPage).None? && TouchesStrokes(Top(old(undoStack)).kind)) ==>
        o == Done && redoStack == old(redoStack) + [Top(old(undoStack))] &&
        notebook == UndoIn(old(notebook), old(currentPage), Top(old(undoStack)))
      ensures o.Done? ==> |undoStack| + |redoStack| == |old(undoStack)| + |old(redoStack)|
    {
      if |undoStack| == 0 {
        return Done;
      }
      var action := undoStack[|undoStack| - 1];
      undoStack := undoStack[..|undoStack| - 1];
      if currentPage.None? && TouchesStrokes(action.kind) {
        return Threw(NullReference);
      }
      if notebook.Some? && currentPage.Some? {
        notebook := Some(notebook.value.(pages := UndoOnPage(notebook.value.pages, currentPage.value, action)));
      }
      redoStack := redoStack + [action];
      o := Done;
    }

    /** `Redo`: the mirror image of `Undo`. */
    method Redo() returns (o: Outcome)
      requires Valid()
      modifies this
      ensures Valid() && PlaceUnchanged() && ToolsUnchanged()
      ensures |old(redoStack)| == 0 ==> o == Done && HistoryUnchanged() && notebook == old(notebook)
      ensures |old(redoStack)| > 0 ==> redoStack == Pop(old(redoStack))
      ensures |old(redoStack)| > 0 && old(currentPage).None? && TouchesStrokes(Top(old(redoStack)).kind) ==>
        o == Threw(NullReference) && undoStack == old(undoStack) && notebook == old(notebook)
      ensures |old(redoStack)| > 0 && !(old(currentPage).None? && TouchesStrokes(Top(old(redoStack)).kind)) ==>
        o == Done && undoStack == old(undoStack) + [Top(old(redoStack))] &&
        notebook == RedoIn(old(notebook), old(currentPage), Top(old(redoStack)))
      ensures o.Done? ==> |undoStack| + |redoStack| == |old(undoStack)| + |old(redoStack)|
    {
      if |redoStack| == 0 {
        return Done;
      }
      var action := redoStack[|redoStack| - 1];
      redoStack := redoStack[..|redoStack| - 1];
      if currentPage.None? && TouchesStrokes(action.kind) {
        return Threw(NullReference);
      }
      if notebook.Some? && currentPage.Some? {
        notebook := Some(notebook.value.(pages := RedoOnPage(notebook.value.pages, currentPage.value, action)));
      }
      undoStack := undoStack + [action];
      o := Done;
    }

    /** Undo has something to take back exactly when an action was recorded. */
    predicate CanUndo()
      reads this
      ensures CanUndo() <==> undoStack != []
    {
      |undoStack| > 0
    }

    /** Redo has something to replay exactly when an undone action waits. */
    predicate CanRedo()
      reads this
      ensures CanRedo() <==> redoStack != []
    {
      |redoStack| > 0
    }

    /** The `CurrentToolMode` setter: the old tool is deactivated; the new
        mode's tool becomes current and active if it has one, otherwise
        the deactivated tool stays current. */
    method SetCurrentToolMode(value: ToolMode)
      requires Valid()
      modifies this
      ensures Valid() && currentToolMode == value
      ensures currentTool == if value in RegisteredTools then Some(value) else old(currentTool)
      ensures activeTools == if value in RegisteredTools then {value} else {}
      ensures currentColor == old(currentColor) && currentWidth == old(currentWidth)
      ensures toolColors == old(toolColors) && toolWidths == old(toolWidths) && ribbonMode == old(ribbonMode)
      ensures notebook == old(notebook) && PlaceUnchanged() && HistoryUnchanged()
    {
      currentToolMode := value;
      if currentTool.Some? {
        activeTools := activeTools - {currentTool.value};
      }
      assert activeTools == {};
      if value in RegisteredTools {
        currentTool := Some(value);
        activeTools := activeTools + {value};
      }
    }

    /** The `CurrentColor` setter: also recolours the current tool. */
    method SetCurrentColor(value: string)
      requires Valid()
      modifies this
      ensures Valid() && currentColor == value
      ensures toolColors == if currentTool.Some? then old(toolColors)[currentTool.value := value] else old(toolColors)
      ensures currentToolMode == old(currentToolMode) && currentTool == old(currentTool) && activeTools == old(activeTools)
      ensures currentWidth == old(currentWidth) && toolWidths == old(toolWidths) && ribbonMode == old(ribbonMode)
      ensures notebook == old(notebook) && PlaceUnchanged() && HistoryUnchanged()
    {
      currentColor := value;
      if currentTool.Some? {
        toolColors := toolColors[currentTool.value := value];
      }
    }

    /** The `CurrentWidth` setter: also resizes the current tool. */
    method SetCurrentWidth(value: real)
      requires Valid()
      modifies this
      ensures Valid() && currentWidth == value
      ensures toolWidths == if currentTool.Some? then old(toolWidths)[currentTool.value := value] else old(toolWidths)
      ensures currentToolMode == old(currentToolMode) && currentTool == old(currentTool) && activeTools == old(activeTools)
      ensures currentColor == old(currentColor) && toolColors == old(toolColors) && ribbonMode == old(ribbonMode)
      ensures notebook == old(notebook) && PlaceUnchanged() && HistoryUnchanged()
    {
      currentWidth := value;
      if currentTool.Some? {
        toolWidths := toolWidths[currentTool.value := value];
      }
    }

    /** `CycleRibbonMode`. */
    method CycleRibbonMode()
      requires Valid()
      modifies this
      ensures Valid() && ribbonMode == NextRibbonMode(old(ribbonMode))
      ensures currentToolMode == old(currentToolMode) && currentTool == old(currentTool) && activeTools == old(activeTools)
      ensures currentColor == old(currentColor) && currentWidth == old(currentWidth)
      ensures toolColors == old(toolColors) && toolWidths == old(toolWidths)
      ensures notebook == old(notebook) && PlaceUnchanged() && HistoryUnchanged()
    {
      ribbonMode := NextRibbonMode(ribbonMode);
    }
  }
}
