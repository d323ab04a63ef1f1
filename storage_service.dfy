/** `StorageService`: the in-memory store of libraries, notebooks and pages
    behind `IStorageService`. Each list is kept with unique ids; saving is
    an upsert that moves the saved entry to the end. */
module Storage {
  import opened Common
  import opened Models
  import opened DocumentLists

  class StorageService {
    var libraries: seq<Library>
    var notebooks: seq<Notebook>
    var pages: seq<Page>

    ghost predicate Valid()
      reads this
    {
      UniqueIds(libraries, LibraryKey) && UniqueIds(notebooks, NotebookKey) && UniqueIds(pages, PageKey)
    }

    /** A new service holds nothing; the data directory it creates is not
        modelled. */
    constructor ()
      ensures Valid()
      ensures libraries == [] && notebooks == [] && pages == []
    {
      libraries := [];
      notebooks := [];
      pages := [];
    }

    method SaveLibrary(library: Library)
      requires Valid()
      modifies this
      ensures Valid()
      ensures libraries == Upsert(old(libraries), LibraryKey, library)
      ensures notebooks == old(notebooks) && pages == old(pages)
    {
      UpsertSpec(libraries, LibraryKey, library);
      var existing := FirstWithId(libraries, LibraryKey, library.id);
      if existing.Some? {
        libraries := RemoveFirst(libraries, existing.value);
      }
      libraries := libraries + [library];
    }

    method LoadLibrary(libraryId: Guid) returns (r: Option<Library>)
      ensures r == FirstWithId(libraries, LibraryKey, libraryId)
    {
      r := FirstWithId(libraries, LibraryKey, libraryId);
    }

    method SaveNotebook(notebook: Notebook)
      requires Valid()
      modifies this
      ensures Valid()
      ensures notebooks == Upsert(old(notebooks), NotebookKey, notebook)
      ensures libraries == old(libraries) && pages == old(pages)
    {
      UpsertSpec(notebooks, NotebookKey, notebook);
      var existing := FirstWithId(notebooks, NotebookKey, notebook.id);
      if existing.Some? {
        notebooks := RemoveFirst(notebooks, existing.value);
      }
      notebooks := notebooks + [notebook];
    }

    method LoadNotebook(notebookId: Guid) returns (r: Option<Notebook>)
      ensures r == FirstWithId(notebooks, NotebookKey, notebookId)
    {
      r := FirstWithId(notebooks, NotebookKey, notebookId);
    }

    method SavePage(page: Page)
      requires Valid()
      modifies this
      ensures Valid()
      ensures pages == Upsert(old(pages), PageKey, page)
      ensures libraries == old(libraries) && notebooks == old(notebooks)
    {
      UpsertSpec(pages, PageKey, page);
      var existing := FirstWithId(pages, PageKey, page.id);
      if existing.Some? {
        pages := RemoveFirst(pages, existing.value);
      }
      pages := pages + [page];
    }

    method LoadPage(pageId: Guid) returns (r: Option<Page>)
      ensures r == FirstWithId(pages, PageKey, pageId)
    {
      r := FirstWithId(pages, PageKey, pageId);
    }

    /** `ToArray()`: a fresh array holding the libraries in stored order. */
    method GetAllLibraries() returns (r: array<Library>)
      ensures fresh(r) && r[..] == libraries
    {
      r := new Library[|libraries|](i requires 0 <= i < |libraries| reads this => libraries[i]);
    }

    /** Deleting a library that is stored also deletes its notebooks, one
        `Remove` per notebook; pages are left alone. An unknown id changes
        nothing. */
    method DeleteLibrary(libraryId: Guid)
      requires Valid()
      modifies this
      ensures Valid()
      ensures FirstWithId(old(libraries), LibraryKey, libraryId).Some? ==>
                libraries == RemoveWithId(old(libraries), LibraryKey, libraryId) &&
                notebooks == NotebooksOutside(old(notebooks), libraryId)
      ensures FirstWithId(old(libraries), LibraryKey, libraryId).None? ==>
                libraries == old(libraries) && notebooks == old(notebooks)
      ensures pages == old(pages)
    {
      var lib := FirstWithId(libraries, LibraryKey, libraryId);
      if lib.Some? {
        RemoveWithIdSpec(libraries, LibraryKey, libraryId);
        ghost var kept := RemoveWithId(libraries, LibraryKey, libraryId);
        libraries := RemoveFirst(libraries, lib.value);
        assert libraries == kept && UniqueIds(kept, LibraryKey);
        var original := notebooks;
        var toDelete := NotebooksOf(notebooks, libraryId);
        DropNoneOf(original, libraryId);
        var k := 0;
        while k < |toDelete|
          invariant 0 <= k <= |toDelete|
          invariant notebooks == DropFirstOf(original, libraryId, k)
          invariant libraries == kept && pages == old(pages)
        {
          DropNextOf(original, libraryId, k);
          notebooks := RemoveFirst(notebooks, toDelete[k]);
          k := k + 1;
        }
        DropAllOf(original, libraryId);
        OutsideKeepsUniqueIds(original, libraryId);
      }
    }

    method DeleteNotebook(notebookId: Guid)
      requires Valid()
      modifies this
      ensures Valid()
      ensures notebooks == RemoveWithId(old(notebooks), NotebookKey, notebookId)
      ensures libraries == old(libraries) && pages == old(pages)
    {
      RemoveWithIdSpec(notebooks, NotebookKey, notebookId);
      var nb := FirstWithId(notebooks, NotebookKey, notebookId);
      if nb.Some? {
        notebooks := RemoveFirst(notebooks, nb.value);
      }
    }
  }
}
