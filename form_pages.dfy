/**
 * The page list manager (`useFormPages`): an ordered list of form pages and
 * a bin of removed pages, with duplicate, remove and restore.
 */
module FormPages {

  import opened Wrappers
  import opened Text
  import opened Lists

  datatype PageType = Authorized | Person | Wallet | Lynx | Scope

  /** The page type as the source spells it (also the prefix of generated ids). */
  function TypeName(t: PageType): string {
    match t
    case Authorized => "authorized"
    case Person => "person"
    case Wallet => "wallet"
    case Lynx => "lynx"
    case Scope => "scope"
  }

  /** A page descriptor; `title` is the source's `label` (a reserved word in Dafny). */
  datatype FormPage = FormPage(id: string, kind: PageType, title: string)

  /** The active list and the bin of removed pages. */
  datatype PageState = PageState(pages: seq<FormPage>, removed: seq<FormPage>)

  /** No two pages share an id. */
  predicate DistinctIds(pages: seq<FormPage>) {
    forall i, j :: 0 <= i < j < |pages| ==> pages[i].id != pages[j].id
  }

  /** `pages.findIndex(p => p.id === id)`: the first index holding `id`, or -1. */
  function FindIndex(pages: seq<FormPage>, id: string): (i: int)
    ensures -1 <= i < |pages|
    ensures i >= 0 ==> pages[i].id == id && forall j :: 0 <= j < i ==> pages[j].id != id
    ensures i == -1 <==> forall j :: 0 <= j < |pages| ==> pages[j].id != id
  {
    if pages == [] then -1
    else if pages[0].id == id then 0
    else
      var k := FindIndex(pages[1..], id);
      if k == -1 then -1 else k + 1
  }

  /** `pages.find(p => p.id === id)`: the first page holding `id`. */
  function Find(pages: seq<FormPage>, id: string): (r: Option<FormPage>)
    ensures r.None? <==> forall j :: 0 <= j < |pages| ==> pages[j].id != id
    ensures r.Some? ==> r.value in pages && r.value.id == id
  {
    var i := FindIndex(pages, id);
    if i < 0 then None else Some(pages[i])
  }

  /** `pages.filter(p => p.type === t).length`. */
  function CountOfType(pages: seq<FormPage>, t: PageType): (n: nat)
    ensures n <= |pages|
  {
    if pages == [] then 0
    else (if pages[0].kind == t then 1 else 0) + CountOfType(pages[1..], t)
  }

  lemma {:induction false} CountOfTypeConcat(a: seq<FormPage>, b: seq<FormPage>, t: PageType)
    ensures CountOfType(a + b, t) == CountOfType(a, t) + CountOfType(b, t)
  {
    if a == [] {
      assert a + b == b;
    } else {
      assert (a + b)[1..] == a[1..] + b;
      CountOfTypeConcat(a[1..], b, t);
    }
  }

  /** `pages.filter(p => p.id !== id)`: every page with `id` dropped, the rest kept in order. */
  function WithoutId(pages: seq<FormPage>, id: string): (r: seq<FormPage>)
    ensures forall p :: p in r ==> p in pages && p.id != id
    ensures forall p :: p in pages && p.id != id ==> p in r
    ensures |r| <= |pages|
  {
    if pages == [] then []
    else if pages[0].id == id then WithoutId(pages[1..], id)
    else [pages[0]] + WithoutId(pages[1..], id)
  }

  /** Filtering works piecewise, so the kept pages stay in their original order. */
  lemma {:induction false} WithoutIdConcat(a: seq<FormPage>, b: seq<FormPage>, id: string)
    ensures WithoutId(a + b, id) == WithoutId(a, id) + WithoutId(b, id)
  {
    if a == [] {
      assert a + b == b;
    } else {
      assert (a + b)[1..] == a[1..] + b;
      WithoutIdConcat(a[1..], b, id);
    }
  }

  /** Filtering out an id nobody holds changes nothing. */
  lemma {:induction false} WithoutAbsentId(pages: seq<FormPage>, id: string)
    requires forall j :: 0 <= j < |pages| ==> pages[j].id != id
    ensures WithoutId(pages, id) == pages
  {
    if pages != [] {
      WithoutAbsentId(pages[1..], id);
    }
  }

  /** Index `i` is the only one holding `id`. */
  predicate OnlyAt(pages: seq<FormPage>, id: string, i: nat) {
    i < |pages| && pages[i].id == id && forall j :: 0 <= j < |pages| && j != i ==> pages[j].id != id
  }

  /** In a list with distinct ids, the index holding an id is the only one holding it. */
  lemma DistinctOnlyAt(pages: seq<FormPage>, i: nat)
    requires DistinctIds(pages) && i < |pages|
    ensures OnlyAt(pages, pages[i].id, i)
  {
    forall j | 0 <= j < |pages| && j != i ensures pages[j].id != pages[i].id {
      if j < i {
        assert pages[j].id != pages[i].id;
      } else {
        assert pages[i].id != pages[j].id;
      }
    }
  }

  /** Below an index `i > 0` that alone holds `id`, the head does not hold it and the tail holds it at `i - 1` only. */
  lemma OnlyAtTail(pages: seq<FormPage>, id: string, i: nat)
    requires OnlyAt(pages, id, i) && i > 0
    ensures pages[0].id != id && OnlyAt(pages[1..], id, i - 1)
  {
    var tail := pages[1..];
    forall j | 0 <= j < |tail| && j != i - 1 ensures tail[j].id != id {
      assert tail[j] == pages[j + 1];
    }
  }

  /** When index 0 alone holds `id`, no page of the tail holds it. */
  lemma OnlyAtHead(pages: seq<FormPage>, id: string)
    requires OnlyAt(pages, id, 0)
    ensures forall j :: 0 <= j < |pages[1..]| ==> pages[1..][j].id != id
  {
    forall j | 0 <= j < |pages[1..]| ensures pages[1..][j].id != id {
      assert pages[1..][j] == pages[j + 1];
    }
  }

  /** Filtering out an id held at index `i` only drops exactly that page. */
  lemma {:induction false} WithoutIdDropsOne(pages: seq<FormPage>, id: string, i: nat)
    requires OnlyAt(pages, id, i)
    ensures WithoutId(pages, id) == pages[..i] + pages[i + 1..]
  {
    var tail := pages[1..];
    if i == 0 {
      OnlyAtHead(pages, id);
      WithoutAbsentId(tail, id);
      assert pages[..0] + pages[1..] == tail;
    } else {
      OnlyAtTail(pages, id, i);
      WithoutIdDropsOne(tail, id, i - 1);
      SpliceUnderHead(pages, i);
    }
  }

  /** Dropping index `i > 0` from a list is keeping its head and dropping `i - 1` from its tail. */
  lemma SpliceUnderHead(pages: seq<FormPage>, i: nat)
    requires 0 < i < |pages|
    ensures pages[..i] + pages[i + 1..] == [pages[0]] + (pages[1..][..i - 1] + pages[1..][i..])
  {
    var tail := pages[1..];
    assert pages[..i] == [pages[0]] + tail[..i - 1];
    assert pages[i + 1..] == tail[i..];
  }

  /** "Authorized Person N" or "Person N". */
  function PersonLabel(t: PageType, n: nat): string
    requires t == Authorized || t == Person
  {
    (if t == Authorized then "Authorized Person " else "Person ") + NatToString(n)
  }

  /**
   * The label of a copy of `src` when `sameType` pages of its type exist:
   * person-like pages are numbered one past that count, any other page is
   * the source label followed by " (Copy)".
   */
  function CopyLabel(src: FormPage, sameType: nat): string {
    if src.kind == Authorized || src.kind == Person then PersonLabel(src.kind, sameType + 1)
    else src.title + " (Copy)"
  }

  /** `${type}-${Date.now()}`, with the clock reading passed in; nothing makes it unique. */
  function NewPageId(t: PageType, now: nat): string {
    TypeName(t) + "-" + NatToString(now)
  }

  /**
   * `duplicatePage`: a page of the same type is inserted right after the
   * first page holding `pageId`; an unknown id changes nothing.
   */
  function Duplicated(pages: seq<FormPage>, pageId: string, now: nat): (r: seq<FormPage>)
    ensures FindIndex(pages, pageId) == -1 ==> r == pages
    ensures FindIndex(pages, pageId) >= 0 ==>
      var i := FindIndex(pages, pageId);
      && |r| == |pages| + 1
      && r[..i + 1] == pages[..i + 1]
      && r[i + 2..] == pages[i + 1..]
      && r[i + 1].kind == pages[i].kind
      && r[i + 1].id == NewPageId(pages[i].kind, now)
      && r[i + 1].title == CopyLabel(pages[i], CountOfType(pages, pages[i].kind))
  {
    var i := FindIndex(pages, pageId);
    if i == -1 then pages
    else
      var src := pages[i];
      var copy := FormPage(NewPageId(src.kind, now), src.kind, CopyLabel(src, CountOfType(pages, src.kind)));
      pages[..i + 1] + [copy] + pages[i + 1..]
  }

  /**
   * Duplication adds one page of the source's type and none of any other,
   * and the copy's number is the new count of pages of that type.
   */
  lemma DuplicateCounts(pages: seq<FormPage>, pageId: string, now: nat, t: PageType)
    requires FindIndex(pages, pageId) >= 0
    ensures var src := pages[FindIndex(pages, pageId)];
      CountOfType(Duplicated(pages, pageId, now), t)
        == CountOfType(pages, t) + (if t == src.kind then 1 else 0)
  {
    var i := FindIndex(pages, pageId);
    var r := Duplicated(pages, pageId, now);
    assert r == pages[..i + 1] + [r[i + 1]] + pages[i + 1..];
    CountOfTypeConcat(pages[..i + 1] + [r[i + 1]], pages[i + 1..], t);
    CountOfTypeConcat(pages[..i + 1], [r[i + 1]], t);
    CountOfTypeConcat(pages[..i + 1], pages[i + 1..], t);
    assert pages == pages[..i + 1] + pages[i + 1..];
  }

  /** Every id a duplication at clock reading `now` can generate. */
  function IdsAt(now: nat): set<string> {
    {NewPageId(Authorized, now), NewPageId(Person, now), NewPageId(Wallet, now),
     NewPageId(Lynx, now), NewPageId(Scope, now)}
  }

  /** With a clock reading no page id uses yet, duplication keeps ids distinct. */
  lemma DuplicateFreshIdKeepsDistinct(pages: seq<FormPage>, pageId: string, now: nat)
    requires DistinctIds(pages)
    requires forall j :: 0 <= j < |pages| ==> pages[j].id !in IdsAt(now)
    ensures DistinctIds(Duplicated(pages, pageId, now))
  {
    var i := FindIndex(pages, pageId);
    if i >= 0 {
      var r := Duplicated(pages, pageId, now);
      assert forall k :: 0 <= k <= i ==> r[k] == pages[k] by {
        forall k | 0 <= k <= i ensures r[k] == pages[k] {
          assert r[k] == r[..i + 1][k];
        }
      }
      assert forall k :: i + 2 <= k < |r| ==> r[k] == pages[k - 1] by {
        forall k | i + 2 <= k < |r| ensures r[k] == pages[k - 1] {
          assert r[k] == r[i + 2..][k - i - 2];
        }
      }
      forall a, b | 0 <= a < b < |r| ensures r[a].id != r[b].id {
        var a' := if a <= i then a else a - 1;
        var b' := if b <= i then b else b - 1;
        if a == i + 1 {
          assert r[b] == pages[b'];
          assert r[a].id in IdsAt(now);
        } else if b == i + 1 {
          assert r[a] == pages[a'];
          assert r[b].id in IdsAt(now);
        } else {
          assert r[a] == pages[a'] && r[b] == pages[b'] && a' < b';
        }
      }
    }
  }

  /**
   * `removePage`: with at most one page nothing changes (the user is warned
   * instead); otherwise the first page holding `pageId` goes to the end of
   * the bin and every page holding it leaves the list.
   */
  function Removed(s: PageState, pageId: string): (r: PageState)
    ensures |s.pages| <= 1 ==> r == s
    ensures |s.pages| > 1 ==> r.pages == WithoutId(s.pages, pageId)
    ensures |s.pages| > 1 ==>
      r.removed == s.removed + (match Find(s.pages, pageId) case Some(p) => [p] case None => [])
  {
    if |s.pages| <= 1 then s
    else
      var bin := match Find(s.pages, pageId) case Some(p) => s.removed + [p] case None => s.removed;
      PageState(WithoutId(s.pages, pageId), bin)
  }

  /** With distinct ids, filtering out one id drops at most one page. */
  lemma WithoutIdLength(pages: seq<FormPage>, id: string)
    requires DistinctIds(pages)
    ensures |WithoutId(pages, id)| >= |pages| - 1
  {
    var i := FindIndex(pages, id);
    if i >= 0 {
      DistinctOnlyAt(pages, i);
      WithoutIdDropsOne(pages, id, i);
    } else {
      WithoutAbsentId(pages, id);
    }
  }

  /** With distinct ids, removal never empties a non-empty list. */
  lemma RemoveKeepsAPage(s: PageState, pageId: string)
    requires DistinctIds(s.pages) && |s.pages| >= 1
    ensures |Removed(s, pageId).pages| >= 1
  {
    if |s.pages| > 1 {
      WithoutIdLength(s.pages, pageId);
    }
  }

  /** With distinct ids, removal loses no page: it only moves one to the bin. */
  lemma RemoveMovesToBin(s: PageState, pageId: string)
    requires DistinctIds(s.pages) && |s.pages| > 1
    ensures multiset(Removed(s, pageId).pages) + multiset(Removed(s, pageId).removed)
         == multiset(s.pages) + multiset(s.removed)
  {
    var i := FindIndex(s.pages, pageId);
    var r := Removed(s, pageId);
    if i >= 0 {
      DistinctOnlyAt(s.pages, i);
      WithoutIdDropsOne(s.pages, pageId, i);
      assert r.pages == s.pages[..i] + s.pages[i + 1..];
      assert r.removed == s.removed + [s.pages[i]];
      assert s.pages == s.pages[..i] + [s.pages[i]] + s.pages[i + 1..];
    } else {
      WithoutAbsentId(s.pages, pageId);
    }
  }

  /**
   * Ids are timestamps and may collide; when two pages share an id, removal
   * drops both from the list but bins only the first, so one page is lost.
   */
  lemma RemoveWithSharedIdLosesPage(a: FormPage, b: FormPage, c: FormPage)
    requires a.id == b.id && c.id != a.id
    ensures var r := Removed(PageState([a, b, c], []), a.id);
      r.pages == [c] && r.removed == [a]
  {
    var pages := [a, b, c];
    assert pages[1..] == [b, c] && [b, c][1..] == [c] && [c][1..] == [];
    assert WithoutId([c], a.id) == [c];
    assert WithoutId([b, c], a.id) == [c];
    assert FindIndex(pages, a.id) == 0;
  }

  /**
   * `restorePage`: the first binned page holding `pageId` goes to the end of
   * the list and every binned page holding it leaves the bin; an id that is
   * not in the bin changes nothing.
   */
  function Restored(s: PageState, pageId: string): (r: PageState)
    ensures Find(s.removed, pageId).None? ==> r == s
    ensures Find(s.removed, pageId).Some? ==>
      r.pages == s.pages + [Find(s.removed, pageId).value]
      && r.removed == WithoutId(s.removed, pageId)
  {
    match Find(s.removed, pageId)
    case Some(p) => PageState(s.pages + [p], WithoutId(s.removed, pageId))
    case None => s
  }

  /**
   * Removing a page and then restoring it brings it back at the end of the
   * list and leaves the bin as it was: restore does not return a page to its
   * former position.
   */
  lemma RestoreUndoesRemove(s: PageState, i: nat)
    requires DistinctIds(s.pages + s.removed) && |s.pages| > 1 && i < |s.pages|
    ensures var p := s.pages[i];
      Restored(Removed(s, p.id), p.id)
        == PageState(s.pages[..i] + s.pages[i + 1..] + [p], s.removed)
  {
    var p := s.pages[i];
    DistinctSplit(s.pages, s.removed, i);
    var k := FindIndex(s.pages, p.id);
    assert k == i;
    DistinctOnlyAt(s.pages, i);
    WithoutIdDropsOne(s.pages, p.id, i);
    var bin := s.removed + [p];
    assert FindIndex(s.removed, p.id) == -1;
    FindIndexAppend(s.removed, p);
    WithoutIdConcat(s.removed, [p], p.id);
    WithoutAbsentId(s.removed, p.id);
  }

  /** Distinct ids across two lists: each list is distinct, and the `i`th page of the first is not in the second. */
  lemma DistinctSplit(a: seq<FormPage>, b: seq<FormPage>, i: nat)
    requires DistinctIds(a + b) && i < |a|
    ensures DistinctIds(a)
    ensures forall j :: 0 <= j < |b| ==> b[j].id != a[i].id
  {
    var all := a + b;
    forall x, y | 0 <= x < y < |a| ensures a[x].id != a[y].id {
      assert a[x] == all[x] && a[y] == all[y];
    }
    forall j | 0 <= j < |b| ensures b[j].id != a[i].id {
      assert all[i] == a[i] && all[|a| + j] == b[j];
    }
  }

  lemma FindIndexAppend(s: seq<FormPage>, p: FormPage)
    requires FindIndex(s, p.id) == -1
    ensures FindIndex(s + [p], p.id) == |s|
  {
    var t := s + [p];
    assert t[|s|] == p;
    assert forall j :: 0 <= j < |s| ==> t[j] == s[j];
  }

  /** The list manager the form pages are kept in. */
  class FormPageList {
    var pages: seq<FormPage>
    var removedPages: seq<FormPage>

    constructor (initialPages: seq<FormPage>)
      ensures pages == initialPages && removedPages == []
    {
      pages := initialPages;
      removedPages := [];
    }

    /** Insert a copy of the page holding `pageId` right after it (`splice` on a copy of the list). */
    method DuplicatePage(pageId: string, now: nat)
      modifies this
      ensures pages == Duplicated(old(pages), pageId, now)
      ensures removedPages == old(removedPages)
    {
      var pageIndex := FindIndex(pages, pageId);
      if pageIndex == -1 {
        return;
      }
      var pageToDuplicate := pages[pageIndex];
      var sameTypeCount := CountOfType(pages, pageToDuplicate.kind);
      var newPage := FormPage(NewPageId(pageToDuplicate.kind, now), pageToDuplicate.kind,
                              CopyLabel(pageToDuplicate, sameTypeCount));
      var newPages := pages;
      newPages := newPages[..pageIndex + 1] + [newPage] + newPages[pageIndex + 1..];
      pages := newPages;
    }

    /** Move the page holding `pageId` to the bin; `warned` stands for the alert shown instead. */
    method RemovePage(pageId: string) returns (warned: bool)
      modifies this
      ensures warned <==> |old(pages)| <= 1
      ensures PageState(pages, removedPages) == Removed(PageState(old(pages), old(removedPages)), pageId)
    {
      if |pages| <= 1 {
        return true;
      }
      warned := false;
      var removedPage := Find(pages, pageId);
      if removedPage.Some? {
        removedPages := removedPages + [removedPage.value];
      }
      pages := WithoutId(pages, pageId);
    }

    /** Bring the binned page holding `pageId` back at the end of the list. */
    method RestorePage(pageId: string)
      modifies this
      ensures PageState(pages, removedPages) == Restored(PageState(old(pages), old(removedPages)), pageId)
    {
      var restoredPage := Find(removedPages, pageId);
      if restoredPage.Some? {
        pages := pages + [restoredPage.value];
        removedPages := WithoutId(removedPages, pageId);
      }
    }
  }
}
