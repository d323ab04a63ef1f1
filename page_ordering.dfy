/** The page order the editor rebuilds after every structural change
    (`RenumberPages`): sections in `SortOrder` order, each section's pages
    in their old `PageNumber` order, unsectioned pages last, pages of
    unknown sections dropped, and the result numbered 1..n. `OrderBy` is
    a stable sort, modelled as a stable insertion sort. Also the section
    list rebuilt by `ReorderSection`. */
module PageOrdering {
  import opened Common
  import opened Models
  import opened DocumentLists

  /** Keys ascend along `s`. */
  predicate SortedBy<T>(s: seq<T>, key: T -> int)
  {
    forall i, j :: 0 <= i < j < |s| ==> key(s[i]) <= key(s[j])
  }

  /** Puts `x` in front of the first element whose key is not smaller. */
  function InsertBy<T>(x: T, s: seq<T>, key: T -> int): (r: seq<T>)
    ensures |r| == |s| + 1
  {
    if |s| == 0 then [x]
    else if key(x) <= key(s[0]) then [x] + s
    else [s[0]] + InsertBy(x, s[1..], key)
  }

  /** Inserting adds exactly `x`. */
  lemma {:induction false} InsertByPermutes<T>(x: T, s: seq<T>, key: T -> int)
    ensures multiset(InsertBy(x, s, key)) == multiset(s) + multiset{x}
  {
    if |s| > 0 && key(x) > key(s[0]) {
      InsertByPermutes(x, s[1..], key);
      assert s == [s[0]] + s[1..];
    }
  }

  lemma InsertByMembers<T(!new)>(x: T, s: seq<T>, key: T -> int)
    ensures forall y :: y in InsertBy(x, s, key) <==> y == x || y in s
  {
    InsertByPermutes(x, s, key);
    var r := InsertBy(x, s, key);
    forall y ensures y in r <==> y == x || y in s {
      assert y in r <==> multiset(r)[y] > 0;
      assert y in s <==> multiset(s)[y] > 0;
    }
  }

  /** Inserting into a sorted list keeps it sorted. */
  lemma {:induction false} InsertBySorted<T(!new)>(x: T, s: seq<T>, key: T -> int)
    requires SortedBy(s, key)
    ensures SortedBy(InsertBy(x, s, key), key)
  {
    var r := InsertBy(x, s, key);
    if |s| > 0 && key(x) > key(s[0]) {
      var rest := InsertBy(x, s[1..], key);
      assert r == [s[0]] + rest;
      InsertBySorted(x, s[1..], key);
      InsertByMembers(x, s[1..], key);
      forall i, j | 0 <= i < j < |r| ensures key(r[i]) <= key(r[j]) {
        if i == 0 {
          assert r[j] == rest[j - 1] && rest[j - 1] in rest;
          if r[j] != x {
            assert r[j] in s[1..];
            var m :| 0 <= m < |s[1..]| && s[1..][m] == r[j];
            assert s[m + 1] == r[j];
          }
        } else {
          assert r[i] == rest[i - 1] && r[j] == rest[j - 1];
        }
      }
    } else if |s| > 0 {
      forall i, j | 0 <= i < j < |r| ensures key(r[i]) <= key(r[j]) {
        if i > 0 {
          assert r[i] == s[i - 1] && r[j] == s[j - 1];
        } else if j > 1 {
          assert key(s[0]) <= key(s[j - 1]);
        }
      }
    }
  }

  /** `OrderBy(key)`: a stable sort. */
  function SortBy<T(!new)>(xs: seq<T>, key: T -> int): (r: seq<T>)
    ensures |r| == |xs|
    ensures multiset(r) == multiset(xs)
    ensures forall y :: y in r <==> y in xs
    ensures SortedBy(r, key)
  {
    if |xs| == 0 then []
    else
      var rest := SortBy(xs[1..], key);
      InsertByPermutes(xs[0], rest, key);
      InsertBySorted(xs[0], rest, key);
      assert xs == [xs[0]] + xs[1..];
      var r := InsertBy(xs[0], rest, key);
      SameMultisetSameMembers(r, xs);
      r
  }

  /** Two lists with the same multiset have the same members. */
  lemma SameMultisetSameMembers<T>(a: seq<T>, b: seq<T>)
    requires multiset(a) == multiset(b)
    ensures forall y :: y in a <==> y in b
  {
    forall y ensures y in a <==> y in b {
      assert y in a <==> multiset(a)[y] > 0;
      assert y in b <==> multiset(b)[y] > 0;
    }
  }

  /** A stable sort of `[a, b, c]` when `c`'s key falls between `a`'s and `b`'s. */
  lemma SortThree<T(!new)>(a: T, b: T, c: T, key: T -> int)
    requires key(a) <= key(c) < key(b)
    ensures SortBy([a, b, c], key) == [a, c, b]
  {
    SortByFirst([c], key);
    assert [c][1..] == [];
    assert SortBy([c], key) == [c];
    SortByFirst([b, c], key);
    assert [b, c][1..] == [c];
    InsertAfterOne(b, c, key);
    assert SortBy([b, c], key) == [c, b];
    SortByFirst([a, b, c], key);
    assert [a, b, c][1..] == [b, c];
    InsertInFront(a, [c, b], key);
  }

  /** One unfolding of the sort. */
  lemma SortByFirst<T(!new)>(xs: seq<T>, key: T -> int)
    requires |xs| > 0
    ensures SortBy(xs, key) == InsertBy(xs[0], SortBy(xs[1..], key), key)
  {
  }

  /** An element whose key is not larger than the head's goes first. */
  lemma InsertInFront<T>(x: T, s: seq<T>, key: T -> int)
    requires |s| > 0 && key(x) <= key(s[0])
    ensures InsertBy(x, s, key) == [x] + s
  {
  }

  /** An element with a larger key goes after a single one. */
  lemma InsertAfterOne<T>(x: T, y: T, key: T -> int)
    requires key(y) < key(x)
    ensures InsertBy(x, [y], key) == [y, x]
  {
    assert [y][1..] == [];
  }

  /** The elements of `s` whose key is `k`, in order. */
  function WithKey<T>(s: seq<T>, key: T -> int, k: int): seq<T>
  {
    if |s| == 0 then []
    else (if key(s[0]) == k then [s[0]] else []) + WithKey(s[1..], key, k)
  }

  lemma {:induction false} InsertByWithKey<T>(x: T, s: seq<T>, key: T -> int, k: int)
    requires SortedBy(s, key)
    ensures WithKey(InsertBy(x, s, key), key, k) == (if key(x) == k then [x] else []) + WithKey(s, key, k)
  {
    if |s| > 0 && key(x) > key(s[0]) {
      InsertByWithKey(x, s[1..], key, k);
      var r := InsertBy(x, s, key);
      assert r[1..] == InsertBy(x, s[1..], key);
    } else if |s| > 0 {
      var r := InsertBy(x, s, key);
      assert r[1..] == s;
    }
  }

  /** Stability: elements with equal keys keep their relative order. */
  lemma {:induction false} SortByIsStable<T(!new)>(xs: seq<T>, key: T -> int, k: int)
    ensures WithKey(SortBy(xs, key), key, k) == WithKey(xs, key, k)
  {
    if |xs| > 0 {
      SortByIsStable(xs[1..], key, k);
      InsertByWithKey(xs[0], SortBy(xs[1..], key), key, k);
    }
  }

  function SortOrderKey(s: Section): int { s.sortOrder }
  function PageNumberKey(p: Page): int { p.pageNumber }

  /** No two sections share an id. */
  predicate DistinctSectionIds(ss: seq<Section>)
  {
    forall i, j :: 0 <= i < j < |ss| ==> ss[i].id != ss[j].id
  }

  function SectionIdSet(ss: seq<Section>): set<Guid>
  {
    set k | 0 <= k < |ss| :: ss[k].id
  }

  /** A page survives renumbering when it is unsectioned or its section
      exists. */
  predicate Kept(p: Page, sections: seq<Section>)
  {
    p.sectionId.None? || p.sectionId.value in SectionIdSet(sections)
  }

  /** `Pages.Where(p => p.SectionId == sid)`. */
  function PagesIn(pages: seq<Page>, sid: Option<Guid>): (r: seq<Page>)
    ensures forall p :: p in r <==> p in pages && p.sectionId == sid
  {
    if |pages| == 0 then []
    else (if pages[0].sectionId == sid then [pages[0]] else []) + PagesIn(pages[1..], sid)
  }

  /** One section's pages, ordered by page number. */
  function SectionPages(pages: seq<Page>, s: Section): seq<Page>
  {
    SortBy(PagesIn(pages, Some(s.id)), PageNumberKey)
  }

  /** The page list after the section loop has visited the sections `os`. */
  function Groups(os: seq<Section>, pages: seq<Page>): seq<Page>
  {
    if |os| == 0 then []
    else Groups(os[..|os| - 1], pages) + SectionPages(pages, os[|os| - 1])
  }

  /** The section loop collects exactly the pages of the visited sections. */
  lemma {:induction false} GroupsMembers(os: seq<Section>, pages: seq<Page>)
    ensures forall p :: p in Groups(os, pages) <==> p in pages && p.sectionId.Some? && p.sectionId.value in SectionIdSet(os)
  {
    if |os| > 0 {
      GroupsMembers(os[..|os| - 1], pages);
      SectionIdSetSnoc(os);
    }
  }

  /** The unsectioned pages, ordered by page number. */
  function Unsectioned(pages: seq<Page>): seq<Page>
  {
    SortBy(PagesIn(pages, None), PageNumberKey)
  }

  /** The rebuilt page list before numbering. */
  function Grouped(pages: seq<Page>, sections: seq<Section>): (r: seq<Page>)
    ensures forall p :: p in r <==> p in pages && Kept(p, sections)
  {
    var ordered := SortBy(sections, SortOrderKey);
    GroupsMembers(ordered, pages);
    SortKeepsSectionIds(sections);
    Groups(ordered, pages) + Unsectioned(pages)
  }

  /** Sorting the sections keeps their set of ids. */
  lemma SortKeepsSectionIds(sections: seq<Section>)
    ensures SectionIdSet(SortBy(sections, SortOrderKey)) == SectionIdSet(sections)
  {
    var ordered := SortBy(sections, SortOrderKey);
    forall g | g in SectionIdSet(ordered) ensures g in SectionIdSet(sections) {
      var k :| 0 <= k < |ordered| && ordered[k].id == g;
      assert ordered[k] in sections;
    }
    forall g | g in SectionIdSet(sections) ensures g in SectionIdSet(ordered) {
      var k :| 0 <= k < |sections| && sections[k].id == g;
      assert sections[k] in ordered;
    }
  }

  /** One more section's pages appended to the groups so far. */
  lemma GroupsSnoc(os: seq<Section>, k: nat, pages: seq<Page>)
    requires k < |os|
    ensures Groups(os[..k + 1], pages) == Groups(os[..k], pages) + SectionPages(pages, os[k])
  {
    assert os[..k + 1][..k] == os[..k];
  }

  /** `Pages[i].PageNumber = i + 1` for every position. */
  function Numbered(g: seq<Page>): (r: seq<Page>)
    ensures |r| == |g|
    ensures forall i :: 0 <= i < |r| ==> r[i] == g[i].(pageNumber := i + 1)
  {
    seq(|g|, i requires 0 <= i < |g| => g[i].(pageNumber := i + 1))
  }

  /** `RenumberPages`: the rebuilt list, numbered 1..n in order. */
  function Renumbered(pages: seq<Page>, sections: seq<Section>): (r: seq<Page>)
    ensures |r| == |Grouped(pages, sections)|
    ensures forall i :: 0 <= i < |r| ==> r[i].pageNumber == i + 1
  {
    Numbered(Grouped(pages, sections))
  }

  /** The first half of `RenumberPages`: the loop over the sorted sections
      collecting each one's pages, then the unsectioned pages. */
  method GroupPages(pages: seq<Page>, sections: seq<Section>) returns (g: seq<Page>)
    ensures g == Grouped(pages, sections)
  {
    var ordered := SortBy(sections, SortOrderKey);
    g := [];
    var k := 0;
    while k < |ordered|
      invariant 0 <= k <= |ordered|
      invariant g == Groups(ordered[..k], pages)
    {
      GroupsSnoc(ordered, k, pages);
      g := g + SectionPages(pages, ordered[k]);
      k := k + 1;
    }
    assert ordered[..|ordered|] == ordered;
    g := g + Unsectioned(pages);
  }

  /** The second half of `RenumberPages`: the loop giving each page its
      position plus one as its number. */
  method NumberPages(g: seq<Page>) returns (r: seq<Page>)
    ensures r == Numbered(g)
  {
    r := g;
    var i := 0;
    while i < |r|
      invariant 0 <= i <= |r| && |r| == |g|
      invariant forall j :: 0 <= j < i ==> r[j] == g[j].(pageNumber := j + 1)
      invariant forall j :: i <= j < |r| ==> r[j] == g[j]
    {
      r := r[i := r[i].(pageNumber := i + 1)];
      i := i + 1;
    }
  }


  /** Sections come in `SortOrder` order: a page of section `a` precedes a
      page of section `b` only if `a.sortOrder <= b.sortOrder`. */
  predicate SectionsInOrder(g: seq<Page>, ss: seq<Section>)
  {
    forall i, j, a, b ::
      (0 <= i < j < |g| && a in ss && b in ss && g[i].sectionId == Some(a.id) && g[j].sectionId == Some(b.id))
      ==> a.sortOrder <= b.sortOrder
  }

  /** Within one section (and among the unsectioned pages) the old page
      numbers ascend. */
  predicate NumbersAscendWithinSection(g: seq<Page>)
  {
    forall i, j :: 0 <= i < j < |g| && g[i].sectionId == g[j].sectionId ==> g[i].pageNumber <= g[j].pageNumber
  }

  /** With distinct ids, a section is fixed by its id. */
  lemma SectionById(os: seq<Section>, a: Section, k: nat)
    requires DistinctSectionIds(os) && a in os && k < |os| && a.id == os[k].id
    ensures a == os[k]
  {
    var m :| 0 <= m < |os| && os[m] == a;
    assert !(m < k) && !(k < m);
  }

  /** Appending the pages of the next section in `SortOrder` order keeps
      the sections in order. */
  lemma AppendSectionInOrder(g: seq<Page>, sp: seq<Page>, os: seq<Section>)
    requires |os| > 0 && DistinctSectionIds(os) && SortedBy(os, SortOrderKey)
    requires SectionsInOrder(g, os[..|os| - 1])
    requires forall p :: p in g ==> p.sectionId.Some? && p.sectionId.value in SectionIdSet(os[..|os| - 1])
    requires forall p :: p in sp ==> p.sectionId == Some(os[|os| - 1].id)
    ensures SectionsInOrder(g + sp, os)
  {
    var n := |os| - 1;
    var init := os[..n];
    var r := g + sp;
    forall i, j, a, b | 0 <= i < j < |r| && a in os && b in os &&
      r[i].sectionId == Some(a.id) && r[j].sectionId == Some(b.id)
      ensures a.sortOrder <= b.sortOrder
    {
      if i >= |g| {
        assert r[i] in sp && r[j] in sp;
        SectionsByPosition(os, a, n, b, n);
      } else {
        assert r[i] == g[i] && r[i] in g;
        var k :| 0 <= k < |init| && init[k].id == a.id;
        if j >= |g| {
          assert r[j] in sp;
          SectionsByPosition(os, a, k, b, n);
        } else {
          assert r[j] == g[j] && r[j] in g;
          var m :| 0 <= m < |init| && init[m].id == b.id;
          SectionById(os, a, k);
          SectionById(os, b, m);
          assert a in init && b in init;
        }
      }
    }
  }

  /** In a sorted list with distinct ids, a section found at an earlier
      position has a `SortOrder` no larger than one found later. */
  lemma SectionsByPosition(os: seq<Section>, a: Section, ka: nat, b: Section, kb: nat)
    requires DistinctSectionIds(os) && SortedBy(os, SortOrderKey)
    requires a in os && b in os && ka <= kb < |os| && a.id == os[ka].id && b.id == os[kb].id
    ensures a.sortOrder <= b.sortOrder
  {
    SectionById(os, a, ka);
    SectionById(os, b, kb);
    if ka < kb {
      assert SortOrderKey(os[ka]) <= SortOrderKey(os[kb]);
    }
  }

  /** Appending one section's page-number-sorted pages keeps the numbers
      ascending within every section. */
  lemma AppendSectionAscending(g: seq<Page>, sp: seq<Page>, id: Guid)
    requires NumbersAscendWithinSection(g) && SortedBy(sp, PageNumberKey)
    requires forall p :: p in g ==> p.sectionId != Some(id)
    requires forall p :: p in sp ==> p.sectionId == Some(id)
    ensures NumbersAscendWithinSection(g + sp)
  {
    var r := g + sp;
    forall i, j | 0 <= i < j < |r| && r[i].sectionId == r[j].sectionId
      ensures r[i].pageNumber <= r[j].pageNumber
    {
      if j < |g| {
        assert g[i] == r[i] && g[j] == r[j];
      } else if i >= |g| {
        assert sp[i - |g|] == r[i] && sp[j - |g|] == r[j];
      }
    }
  }

  /** The section loop, visiting sections sorted by `SortOrder`, lays the
      pages out section by section. */
  lemma {:induction false} GroupsInOrder(os: seq<Section>, pages: seq<Page>)
    requires DistinctSectionIds(os) && SortedBy(os, SortOrderKey)
    ensures SectionsInOrder(Groups(os, pages), os)
    ensures NumbersAscendWithinSection(Groups(os, pages))
  {
    if |os| > 0 {
      var n := |os| - 1;
      var init := os[..n];
      GroupsInOrder(init, pages);
      GroupsMembers(init, pages);
      var g := Groups(init, pages);
      var sp := SectionPages(pages, os[n]);
      assert Groups(os, pages) == g + sp;
      AppendSectionInOrder(g, sp, os);
      forall p | p in g ensures p.sectionId != Some(os[n].id) {
        var k :| 0 <= k < |init| && init[k].id == p.sectionId.value;
        assert init[k] == os[k];
      }
      AppendSectionAscending(g, sp, os[n].id);
    }
  }

  /** Sorting keeps section ids distinct. */
  lemma {:induction false} SortKeepsDistinctIds(ss: seq<Section>)
    requires DistinctSectionIds(ss)
    ensures DistinctSectionIds(SortBy(ss, SortOrderKey))
  {
    if |ss| > 0 {
      var tail := ss[1..];
      assert DistinctSectionIds(tail) by {
        forall i, j | 0 <= i < j < |tail| ensures tail[i].id != tail[j].id {
          assert tail[i] == ss[i + 1] && tail[j] == ss[j + 1];
        }
      }
      SortKeepsDistinctIds(tail);
      var sorted := SortBy(tail, SortOrderKey);
      forall y | y in sorted ensures y.id != ss[0].id {
        var k :| 0 <= k < |tail| && tail[k] == y;
        assert ss[k + 1] == y;
      }
      InsertKeepsDistinctIds(ss[0], sorted);
    }
  }

  lemma {:induction false} InsertKeepsDistinctIds(x: Section, s: seq<Section>)
    requires DistinctSectionIds(s) && forall y :: y in s ==> y.id != x.id
    ensures DistinctSectionIds(InsertBy(x, s, SortOrderKey))
  {
    var r := InsertBy(x, s, SortOrderKey);
    if |s| > 0 && x.sortOrder > s[0].sortOrder {
      var tail := s[1..];
      assert DistinctSectionIds(tail) by {
        forall i, j | 0 <= i < j < |tail| ensures tail[i].id != tail[j].id {
          assert tail[i] == s[i + 1] && tail[j] == s[j + 1];
        }
      }
      InsertKeepsDistinctIds(x, tail);
      var rest := InsertBy(x, tail, SortOrderKey);
      InsertByMembers(x, tail, SortOrderKey);
      assert r == [s[0]] + rest;
      forall y | y in rest ensures y.id != s[0].id {
        if y != x {
          var k :| 0 <= k < |tail| && tail[k] == y;
          assert s[k + 1] == y;
        }
      }
      forall i, j | 0 <= i < j < |r| ensures r[i].id != r[j].id {
        if i == 0 { assert r[j] in rest; } else { assert r[i] == rest[i - 1] && r[j] == rest[j - 1]; }
      }
    } else if |s| > 0 {
      assert r == [x] + s;
      forall i, j | 0 <= i < j < |r| ensures r[i].id != r[j].id {
        if i == 0 { assert r[j] in s; } else { assert r[i] == s[i - 1] && r[j] == s[j - 1]; }
      }
    }
  }

  /** The rebuilt list is ordered: sections by `SortOrder`, pages within
      a section (and the unsectioned pages) by their old numbers, and the
      unsectioned pages after every sectioned page. */
  lemma RenumberOrder(pages: seq<Page>, sections: seq<Section>)
    requires DistinctSectionIds(sections)
    ensures SectionsInOrder(Grouped(pages, sections), sections)
    ensures NumbersAscendWithinSection(Grouped(pages, sections))
    ensures forall i, j :: 0 <= i < j < |Grouped(pages, sections)| && Grouped(pages, sections)[i].sectionId.None? ==>
              Grouped(pages, sections)[j].sectionId.None?
  {
    var ordered := SortBy(sections, SortOrderKey);
    SortKeepsDistinctIds(sections);
    GroupsInOrder(ordered, pages);
    GroupsMembers(ordered, pages);
    var g := Groups(ordered, pages);
    var u := Unsectioned(pages);
    assert Grouped(pages, sections) == g + u;
    UnsectionedAfterGroups(g, u, ordered, sections);
  }

  lemma UnsectionedAfterGroups(g: seq<Page>, u: seq<Page>, ordered: seq<Section>, sections: seq<Section>)
    requires SectionsInOrder(g, ordered) && NumbersAscendWithinSection(g)
    requires forall a :: a in sections <==> a in ordered
    requires forall p :: p in g ==> p.sectionId.Some?
    requires forall p :: p in u ==> p.sectionId.None?
    requires SortedBy(u, PageNumberKey)
    ensures SectionsInOrder(g + u, sections)
    ensures NumbersAscendWithinSection(g + u)
    ensures forall i, j :: 0 <= i < j < |g + u| && (g + u)[i].sectionId.None? ==> (g + u)[j].sectionId.None?
  {
    var r := g + u;
    forall i, j, a, b | 0 <= i < j < |r| && a in sections && b in sections &&
      r[i].sectionId == Some(a.id) && r[j].sectionId == Some(b.id)
      ensures a.sortOrder <= b.sortOrder
    {
      assert g[i] == r[i] && g[j] == r[j];
    }
    forall i, j | 0 <= i < j < |r| && r[i].sectionId == r[j].sectionId
      ensures r[i].pageNumber <= r[j].pageNumber
    {
      if j < |g| {
        assert g[i] == r[i] && g[j] == r[j];
      } else if i >= |g| {
        assert u[i - |g|] == r[i] && u[j - |g|] == r[j];
      }
    }
    forall i, j | 0 <= i < j < |r| && r[i].sectionId.None? ensures r[j].sectionId.None? {
      assert r[j] in u;
    }
  }

  /** The pages that survive renumbering, in their old order. */
  function KeptPages(pages: seq<Page>, sections: seq<Section>): (r: seq<Page>)
    ensures |r| <= |pages|
    ensures forall p :: p in r <==> p in pages && Kept(p, sections)
  {
    if |pages| == 0 then []
    else (if Kept(pages[0], sections) then [pages[0]] else []) + KeptPages(pages[1..], sections)
  }

  /** The pages whose section id is in `ids`. */
  function InSections(pages: seq<Page>, ids: set<Guid>): seq<Page>
  {
    if |pages| == 0 then []
    else (if pages[0].sectionId.Some? && pages[0].sectionId.value in ids then [pages[0]] else [])
         + InSections(pages[1..], ids)
  }

  lemma {:induction false} InSectionsSplit(pages: seq<Page>, ids: set<Guid>, id: Guid)
    requires id !in ids
    ensures multiset(InSections(pages, ids + {id})) == multiset(InSections(pages, ids)) + multiset(PagesIn(pages, Some(id)))
  {
    if |pages| > 0 {
      InSectionsSplit(pages[1..], ids, id);
    }
  }

  lemma {:induction false} KeptSplit(pages: seq<Page>, sections: seq<Section>)
    ensures multiset(KeptPages(pages, sections)) == multiset(InSections(pages, SectionIdSet(sections))) + multiset(PagesIn(pages, None))
  {
    if |pages| > 0 {
      KeptSplit(pages[1..], sections);
    }
  }

  lemma SectionIdSetSnoc(os: seq<Section>)
    requires |os| > 0
    ensures SectionIdSet(os) == SectionIdSet(os[..|os| - 1]) + {os[|os| - 1].id}
  {
    var init := os[..|os| - 1];
    forall g | g in SectionIdSet(os) ensures g in SectionIdSet(init) + {os[|os| - 1].id} {
      var k :| 0 <= k < |os| && os[k].id == g;
      if k < |os| - 1 { assert init[k] == os[k]; }
    }
    forall g | g in SectionIdSet(init) ensures g in SectionIdSet(os) {
      var k :| 0 <= k < |init| && init[k].id == g;
      assert os[k] == init[k];
    }
  }

  /** With distinct section ids, the section loop collects each page of an
      existing section exactly once. */
  lemma {:induction false} GroupsCollectOnce(os: seq<Section>, pages: seq<Page>)
    requires DistinctSectionIds(os)
    ensures multiset(Groups(os, pages)) == multiset(InSections(pages, SectionIdSet(os)))
  {
    if |os| > 0 {
      var n := |os| - 1;
      var init := os[..n];
      LastIdIsNew(os);
      GroupsCollectOnce(init, pages);
      SectionIdSetSnoc(os);
      CollectStep(Groups(init, pages), SectionPages(pages, os[n]), pages, SectionIdSet(init), os[n].id);
      assert Groups(os, pages) == Groups(init, pages) + SectionPages(pages, os[n]);
    } else {
      assert SectionIdSet(os) == {};
      InSectionsNone(pages);
    }
  }

  lemma LastIdIsNew(os: seq<Section>)
    requires |os| > 0 && DistinctSectionIds(os)
    ensures os[|os| - 1].id !in SectionIdSet(os[..|os| - 1])
    ensures DistinctSectionIds(os[..|os| - 1])
  {
  }

  lemma {:induction false} InSectionsNone(pages: seq<Page>)
    ensures InSections(pages, {}) == []
  {
    if |pages| > 0 {
      InSectionsNone(pages[1..]);
    }
  }

  lemma CollectStep(g: seq<Page>, sp: seq<Page>, pages: seq<Page>, ids: set<Guid>, id: Guid)
    requires id !in ids
    requires multiset(g) == multiset(InSections(pages, ids))
    requires multiset(sp) == multiset(PagesIn(pages, Some(id)))
    ensures multiset(g + sp) == multiset(InSections(pages, ids + {id}))
  {
    InSectionsSplit(pages, ids, id);
  }

  /** With distinct section ids, renumbering is a permutation of the kept
      pages (up to the new numbers): no page is lost or duplicated, and
      exactly the pages of unknown sections are dropped. */
  lemma RenumberKeepsPages(pages: seq<Page>, sections: seq<Section>)
    requires DistinctSectionIds(sections)
    ensures multiset(Grouped(pages, sections)) == multiset(KeptPages(pages, sections))
    ensures |Renumbered(pages, sections)| == |KeptPages(pages, sections)|
  {
    var ordered := SortBy(sections, SortOrderKey);
    SortKeepsDistinctIds(sections);
    GroupsCollectOnce(ordered, pages);
    assert SectionIdSet(ordered) == SectionIdSet(sections) by {
      forall g | g in SectionIdSet(ordered) ensures g in SectionIdSet(sections) {
        var k :| 0 <= k < |ordered| && ordered[k].id == g;
        assert ordered[k] in sections;
      }
      forall g | g in SectionIdSet(sections) ensures g in SectionIdSet(ordered) {
        var k :| 0 <= k < |sections| && sections[k].id == g;
        assert sections[k] in ordered;
      }
    }
    KeptSplit(pages, sections);
    assert Grouped(pages, sections) == Groups(ordered, pages) + Unsectioned(pages);
    assert |Grouped(pages, sections)| == |multiset(Grouped(pages, sections))|;
  }

  function SectionKey(s: Section): Guid { s.id }

  /** `Math.Max(0, Math.Min(index, count))`. */
  function Clamp(index: int, count: nat): (r: nat)
    ensures r <= count
    ensures 0 <= index <= count ==> r == index
  {
    if index < 0 then 0 else if index > count then count else index
  }

  /** The list `ReorderSection` builds: the sections by `SortOrder`, the
      moved section taken out (by id) and put back at the clamped index.
      The moved section sits at that index, and the other sections keep
      their relative order. */
  function Reordered(sorted: seq<Section>, section: Section, newIndex: int): (r: seq<Section>)
    ensures var rest := RemoveWithId(sorted, SectionKey, section.id);
            var k := Clamp(newIndex, |rest|);
            |r| == |rest| + 1 && r[k] == section && r[..k] + r[k + 1..] == rest
  {
    var rest := RemoveWithId(sorted, SectionKey, section.id);
    var k := Clamp(newIndex, |rest|);
    var r := rest[..k] + [section] + rest[k..];
    assert r[..k] == rest[..k];
    assert r[k + 1..] == rest[k..];
    assert rest == rest[..k] + rest[k..];
    r
  }

  /** Sets the `SortOrder` of the sections with the given id. */
  function SetSortOrder(ss: seq<Section>, id: Guid, v: int): (r: seq<Section>)
    ensures |r| == |ss|
    ensures forall j :: 0 <= j < |ss| ==> r[j] == if ss[j].id == id then ss[j].(sortOrder := v) else ss[j]
  {
    seq(|ss|, j requires 0 <= j < |ss| => if ss[j].id == id then ss[j].(sortOrder := v) else ss[j])
  }

  /** The numbering loop of `ReorderSection` after `n` turns: the section
      at position `i` of `ordered` gets `SortOrder = i`. */
  function AssignOrders(ss: seq<Section>, ordered: seq<Section>, n: nat): (r: seq<Section>)
    requires n <= |ordered|
    ensures |r| == |ss|
  {
    if n == 0 then ss else SetSortOrder(AssignOrders(ss, ordered, n - 1), ordered[n - 1].id, n - 1)
  }

  /** With distinct ids in `ordered`, every section ends up numbered with
      the position of its id in `ordered`; sections whose id is not there
      keep their number; no other field changes. */
  lemma {:induction false} AssignOrdersSpec(ss: seq<Section>, ordered: seq<Section>, n: nat)
    requires n <= |ordered| && DistinctSectionIds(ordered)
    ensures forall j, k :: 0 <= j < |ss| && 0 <= k < n && ordered[k].id == ss[j].id ==>
              AssignOrders(ss, ordered, n)[j] == ss[j].(sortOrder := k)
    ensures forall j :: 0 <= j < |ss| && ss[j].id !in SectionIdSet(ordered[..n]) ==>
              AssignOrders(ss, ordered, n)[j] == ss[j]
  {
    if n > 0 {
      AssignOrdersSpec(ss, ordered, n - 1);
      SectionIdSetSnoc(ordered[..n]);
      assert ordered[..n][..n - 1] == ordered[..n - 1];
    } else {
      assert SectionIdSet(ordered[..0]) == {};
    }
  }

  /** `ReorderSection` on the section list: the stably sorted list with
      the section moved, then renumbered by position. */
  function ReorderSections(ss: seq<Section>, section: Section, newIndex: int): (r: seq<Section>)
    ensures |r| == |ss|
  {
    var ordered := Reordered(SortBy(ss, SortOrderKey), section, newIndex);
    AssignOrders(ss, ordered, |ordered|)
  }

  /** The section half of `ReorderSection`: the clamped move, then the
      loop giving each section its position as `SortOrder`. */
  method RenumberSections(ss: seq<Section>, section: Section, newIndex: int) returns (r: seq<Section>)
    ensures r == ReorderSections(ss, section, newIndex)
  {
    var ordered := Reordered(SortBy(ss, SortOrderKey), section, newIndex);
    r := NumberByPosition(ss, ordered);
  }

  /** The numbering loop of `ReorderSection`: each section of `ordered`,
      in turn, gets its position as `SortOrder`. */
  method NumberByPosition(ss: seq<Section>, ordered: seq<Section>) returns (r: seq<Section>)
    ensures r == AssignOrders(ss, ordered, |ordered|)
  {
    r := ss;
    var i := 0;
    while i < |ordered|
      invariant 0 <= i <= |ordered|
      invariant r == AssignOrders(ss, ordered, i)
    {
      r := SetSortOrder(r, ordered[i].id, i);
      i := i + 1;
    }
  }

  /** Inserting a section with a new id keeps the ids distinct. */
  lemma InsertAtIds(rest: seq<Section>, section: Section, k: nat)
    requires DistinctSectionIds(rest) && k <= |rest|
    requires forall y :: y in rest ==> y.id != section.id
    ensures var l := rest[..k] + [section] + rest[k..];
            |l| == |rest| + 1 && l[k] == section && DistinctSectionIds(l) &&
            SectionIdSet(l) == SectionIdSet(rest) + {section.id}
  {
    var l := rest[..k] + [section] + rest[k..];
    forall i | 0 <= i < |l| ensures l[i] == if i < k then rest[i] else if i == k then section else rest[i - 1] {
    }
    forall i, j | 0 <= i < j < |l| ensures l[i].id != l[j].id {
      if i == k { assert l[j] in rest; }
      else if j == k { assert l[i] in rest; }
    }
    forall g | g in SectionIdSet(rest) ensures g in SectionIdSet(l) {
      var b :| 0 <= b < |rest| && rest[b].id == g;
      if b < k { assert l[b] == rest[b]; } else { assert l[b + 1] == rest[b]; }
    }
    assert l[k].id == section.id;
  }

  /** Taking the moved section out of the sorted list leaves the other
      ids, each once. */
  lemma RestIds(ss: seq<Section>, section: Section)
    requires DistinctSectionIds(ss) && section.id in SectionIdSet(ss)
    ensures var rest := RemoveWithId(SortBy(ss, SortOrderKey), SectionKey, section.id);
            |rest| == |ss| - 1 && DistinctSectionIds(rest) &&
            (forall y :: y in rest ==> y.id != section.id) &&
            SectionIdSet(rest) + {section.id} == SectionIdSet(ss)
  {
    var sorted := SortBy(ss, SortOrderKey);
    SortKeepsDistinctIds(ss);
    assert UniqueIds(sorted, SectionKey);
    RemoveWithIdSpec(sorted, SectionKey, section.id);
    var rest := RemoveWithId(sorted, SectionKey, section.id);
    var m :| 0 <= m < |ss| && ss[m].id == section.id;
    assert ss[m] in sorted;
    assert FirstWithId(sorted, SectionKey, section.id).Some?;
    IdsWithout(ss, sorted, rest, section.id);
  }

  /** When `sorted` holds the sections of `ss` and `rest` exactly those of
      `sorted` with another id, the ids of `rest` are those of `ss` but `id`. */
  lemma IdsWithout(ss: seq<Section>, sorted: seq<Section>, rest: seq<Section>, id: Guid)
    requires forall y :: y in sorted <==> y in ss
    requires forall y :: y in rest ==> y in sorted && y.id != id
    requires forall y :: y in sorted && y.id != id ==> y in rest
    requires id in SectionIdSet(ss)
    ensures SectionIdSet(rest) + {id} == SectionIdSet(ss)
  {
    forall g | g in SectionIdSet(ss) ensures g in SectionIdSet(rest) + {id} {
      var a :| 0 <= a < |ss| && ss[a].id == g;
      if g != id {
        assert ss[a] in sorted;
        assert ss[a] in rest;
        var b :| 0 <= b < |rest| && rest[b] == ss[a];
      }
    }
    forall g | g in SectionIdSet(rest) ensures g in SectionIdSet(ss) {
      var a :| 0 <= a < |rest| && rest[a].id == g;
      assert rest[a] in rest;
      var b :| 0 <= b < |ss| && ss[b] == rest[a];
    }
  }

  /** The list `ReorderSection` numbers holds every section id once, with
      the moved section at the clamped index. */
  lemma ReorderedIds(ss: seq<Section>, section: Section, newIndex: int)
    requires DistinctSectionIds(ss) && section.id in SectionIdSet(ss)
    ensures var l := Reordered(SortBy(ss, SortOrderKey), section, newIndex);
            |l| == |ss| && DistinctSectionIds(l) && SectionIdSet(l) == SectionIdSet(ss) &&
            l[Clamp(newIndex, |ss| - 1)] == section
  {
    RestIds(ss, section);
    var rest := RemoveWithId(SortBy(ss, SortOrderKey), SectionKey, section.id);
    InsertAtIds(rest, section, Clamp(newIndex, |rest|));
  }

  /** Numbering by a list with distinct ids that covers every section
      gives each section the position of its id. */
  lemma NumberedByPosition(ss: seq<Section>, l: seq<Section>)
    requires DistinctSectionIds(l) && SectionIdSet(ss) <= SectionIdSet(l)
    ensures forall j :: 0 <= j < |ss| ==>
              AssignOrders(ss, l, |l|)[j] == ss[j].(sortOrder := PositionOf(l, ss[j].id))
  {
    AssignOrdersSpec(ss, l, |l|);
    forall j | 0 <= j < |ss| ensures AssignOrders(ss, l, |l|)[j] == ss[j].(sortOrder := PositionOf(l, ss[j].id)) {
      assert ss[j].id in SectionIdSet(ss);
      PositionOfSpec(l, ss[j].id);
    }
  }

  /** After `ReorderSection` the section numbers are exactly 0..n-1, one
      per section, the moved section has the clamped index, and nothing
      but the numbers changes. */
  lemma ReorderSectionsNumbering(ss: seq<Section>, section: Section, newIndex: int)
    requires DistinctSectionIds(ss) && section.id in SectionIdSet(ss)
    ensures forall j :: 0 <= j < |ss| ==> 0 <= ReorderSections(ss, section, newIndex)[j].sortOrder < |ss|
    ensures forall i, j :: 0 <= i < j < |ss| ==>
              ReorderSections(ss, section, newIndex)[i].sortOrder != ReorderSections(ss, section, newIndex)[j].sortOrder
    ensures forall j :: 0 <= j < |ss| && ss[j].id == section.id ==>
              ReorderSections(ss, section, newIndex)[j].sortOrder == Clamp(newIndex, |ss| - 1)
    ensures forall j :: 0 <= j < |ss| ==>
              ReorderSections(ss, section, newIndex)[j] == ss[j].(sortOrder := ReorderSections(ss, section, newIndex)[j].sortOrder)
  {
    ReorderedIds(ss, section, newIndex);
    var l := Reordered(SortBy(ss, SortOrderKey), section, newIndex);
    NumberedByPosition(ss, l);
    var r := ReorderSections(ss, section, newIndex);
    assert r == AssignOrders(ss, l, |l|);
    forall j | 0 <= j < |ss| ensures 0 <= r[j].sortOrder < |ss| {
      assert ss[j].id in SectionIdSet(ss);
      PositionOfSpec(l, ss[j].id);
    }
    forall i, j | 0 <= i < j < |ss| ensures r[i].sortOrder != r[j].sortOrder {
      assert ss[i].id in SectionIdSet(ss) && ss[j].id in SectionIdSet(ss);
      PositionOfSpec(l, ss[i].id);
      PositionOfSpec(l, ss[j].id);
    }
    forall j | 0 <= j < |ss| && ss[j].id == section.id ensures r[j].sortOrder == Clamp(newIndex, |ss| - 1) {
      PositionOfSpec(l, section.id);
    }
  }

  /** The position of the section with id `id` in `l`. */
  function PositionOf(l: seq<Section>, id: Guid): nat
  {
    if |l| == 0 || l[0].id == id then 0 else 1 + PositionOf(l[1..], id)
  }

  lemma {:induction false} PositionOfSpec(l: seq<Section>, id: Guid)
    requires DistinctSectionIds(l) && id in SectionIdSet(l)
    ensures PositionOf(l, id) < |l| && l[PositionOf(l, id)].id == id
    ensures forall k :: 0 <= k < |l| && l[k].id == id ==> k == PositionOf(l, id)
  {
    if l[0].id != id {
      var tail := l[1..];
      assert id in SectionIdSet(tail) by {
        var a :| 0 <= a < |l| && l[a].id == id;
        assert tail[a - 1] == l[a];
      }
      assert DistinctSectionIds(tail) by {
        forall i, j | 0 <= i < j < |tail| ensures tail[i].id != tail[j].id {
          assert tail[i] == l[i + 1] && tail[j] == l[j + 1];
        }
      }
      PositionOfSpec(tail, id);
      forall k | 0 <= k < |l| && l[k].id == id ensures k == PositionOf(l, id) {
        assert tail[k - 1] == l[k];
      }
    }
  }
}

