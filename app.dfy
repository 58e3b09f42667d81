/**
 * The application shell: its starting pages, the page handlers (the same
 * rules as the page list manager), the extra persons shown under the first
 * authorized-person page and the settings panel's position list.
 */
module App {

  import opened Wrappers
  import opened Text
  import opened Lists
  import opened Storage
  import opened Positions
  import opened FormPages
  import opened FormRenderer

  /** The four pages the application starts with. */
  function InitialPages(): (pages: seq<FormPage>)
    ensures |pages| == 4 && DistinctIds(pages)
    ensures pages[0].id == "auth-1" && pages[0].kind == Authorized
  {
    [FormPage("auth-1", Authorized, "Authorized Person 1"),
     FormPage("wallet-1", Wallet, "Wallet & Bank Account"),
     FormPage("lynx-1", Lynx, "Lynx & API"),
     FormPage("scope-1", Scope, "Scope of Authority")]
  }

  /** `isAuthorizedForm`: the page under which the extra persons and the Add Person button appear. */
  predicate HostsExtraPersons(page: FormPage) {
    page.kind == Authorized && page.id == "auth-1"
  }

  /** Of the starting pages exactly the first hosts the extra persons, and it reads as person 1. */
  lemma InitialPagesHostOnce()
    ensures forall i :: 0 <= i < |InitialPages()| ==> (HostsExtraPersons(InitialPages()[i]) <==> i == 0)
    ensures RenderForm(InitialPages()[0]) == AuthorizedPersonForm(1)
  {
    var p := InitialPages()[0];
    PersonLabelRoundTrip(Authorized, 1);
    assert PersonLabel(Authorized, 1) == p.title by {
      assert NatToString(1) == "1";
    }
  }

  /** Extra person numbers as the list keeps them: increasing, all from 2 on. */
  predicate PersonsValid(persons: seq<nat>) {
    && (forall i, j :: 0 <= i < j < |persons| ==> persons[i] < persons[j])
    && (forall i :: 0 <= i < |persons| ==> persons[i] >= 2)
  }

  /**
   * `nextPersonNumber`: one past the largest extra person, or 2 when there
   * is none (person 1 is the authorized person itself).
   */
  function NextPersonNumber(persons: seq<nat>): (n: nat)
    ensures forall x :: x in persons ==> x < n
    ensures persons == [] ==> n == 2
    ensures persons != [] ==> n - 1 in persons
  {
    if |persons| > 0 then Max(persons) + 1 else 2
  }

  /** Adding a person keeps the list increasing and from 2 on. */
  lemma AddPersonKeepsValid(persons: seq<nat>)
    requires PersonsValid(persons)
    ensures PersonsValid(persons + [NextPersonNumber(persons)])
  {
    var n := NextPersonNumber(persons);
    var r := persons + [n];
    if persons != [] {
      assert persons[|persons| - 1] in persons;
      var k :| 0 <= k < |persons| && persons[k] == n - 1;
    }
    forall i, j | 0 <= i < j < |r| ensures r[i] < r[j] {
      assert r[i] == persons[i] && persons[i] in persons;
      if j < |persons| {
        assert r[j] == persons[j];
      }
    }
  }

  /** A valid list stays valid without its first person. */
  lemma TailValid(persons: seq<nat>)
    requires PersonsValid(persons) && persons != []
    ensures PersonsValid(persons[1..])
    ensures forall y :: y in persons[1..] ==> persons[0] < y
  {
    var tail := persons[1..];
    forall y | y in tail ensures persons[0] < y {
      var k :| 0 <= k < |tail| && tail[k] == y;
      assert persons[k + 1] == y;
    }
  }

  /** A person below every one of a valid list goes in front of it. */
  lemma ConsValid(first: nat, rest: seq<nat>)
    requires PersonsValid(rest) && first >= 2
    requires forall y :: y in rest ==> first < y
    ensures PersonsValid([first] + rest)
  {
    var r := [first] + rest;
    forall i, j | 0 <= i < j < |r| ensures r[i] < r[j] {
      assert r[j] == rest[j - 1] && rest[j - 1] in rest;
    }
  }

  /** Removing a person keeps the list increasing and from 2 on. */
  lemma {:induction false} RemovePersonKeepsValid(persons: seq<nat>, n: nat)
    requires PersonsValid(persons)
    ensures PersonsValid(RemoveAll(persons, n))
  {
    if persons != [] {
      TailValid(persons);
      RemovePersonKeepsValid(persons[1..], n);
      if persons[0] != n {
        ConsValid(persons[0], RemoveAll(persons[1..], n));
      }
    }
  }

  /**
   * What a page renders: its own form, then, under the host page only, one
   * person form per extra person, numbered by that person.
   */
  function PageBlock(page: FormPage, persons: seq<nat>): (r: seq<FormView>)
    ensures |r| == 1 + (if HostsExtraPersons(page) then |persons| else 0)
    ensures r[0] == RenderForm(page)
    ensures HostsExtraPersons(page) ==> forall i :: 0 <= i < |persons| ==> r[i + 1] == PersonForm(persons[i])
  {
    [RenderForm(page)] + (if HostsExtraPersons(page) then seq(|persons|, i requires 0 <= i < |persons| => PersonForm(persons[i])) else [])
  }

  /** The state `App` keeps. */
  class AppState {
    var pages: seq<FormPage>
    var removedPages: seq<FormPage>
    var additionalPersons: seq<nat>
    var customPositions: seq<string>
    /** The text in the settings panel's "new position" input. */
    var newPosition: string

    constructor (store: LocalStorage)
      ensures pages == InitialPages() && removedPages == [] && additionalPersons == []
      ensures customPositions == GetCustomPositions(store) && newPosition == ""
    {
      pages := InitialPages();
      removedPages := [];
      additionalPersons := [];
      customPositions := GetCustomPositions(store);
      newPosition := "";
    }

    /** `handleDuplicatePage`: the hook's `duplicatePage`, inline. */
    method HandleDuplicatePage(pageId: string, now: nat)
      modifies this`pages
      ensures pages == Duplicated(old(pages), pageId, now)
    {
      var pageIndex := FindIndex(pages, pageId);
      if pageIndex == -1 {
        return;
      }
      var pageToDuplicate := pages[pageIndex];
      var sameTypeCount := CountOfType(pages, pageToDuplicate.kind);
      var newPage := FormPage(NewPageId(pageToDuplicate.kind, now), pageToDuplicate.kind,
                              CopyLabel(pageToDuplicate, sameTypeCount));
      pages := pages[..pageIndex + 1] + [newPage] + pages[pageIndex + 1..];
    }

    /** `handleRemovePage`: the hook's `removePage`, inline; `warned` is the alert. */
    method HandleRemovePage(pageId: string) returns (warned: bool)
      modifies this`pages, this`removedPages
      ensures warned <==> |old(pages)| <= 1
      ensures PageState(pages, removedPages) == Removed(PageState(old(pages), old(removedPages)), pageId)
    {
      if |pages| <= 1 {
        return true;
      }
      warned := false;
      var removedPage := Find(pages, pageId);
      if removedPage.Some? {
        removedPages := removedPages + [removedPage.value];
      }
      pages := WithoutId(pages, pageId);
    }

    /** `handleRestorePage`: the hook's `restorePage`, inline. */
    method HandleRestorePage(pageId: string)
      modifies this`pages, this`removedPages
      ensures PageState(pages, removedPages) == Restored(PageState(old(pages), old(removedPages)), pageId)
    {
      var restoredPage := Find(removedPages, pageId);
      if restoredPage.Some? {
        pages := pages + [restoredPage.value];
        removedPages := WithoutId(removedPages, pageId);
      }
    }

    /** The Add Person button: append the next person number. */
    method AddPerson()
      modifies this`additionalPersons
      ensures additionalPersons == old(additionalPersons) + [NextPersonNumber(old(additionalPersons))]
      ensures PersonsValid(old(additionalPersons)) ==> PersonsValid(additionalPersons)
    {
      if PersonsValid(additionalPersons) {
        AddPersonKeepsValid(additionalPersons);
      }
      additionalPersons := additionalPersons + [NextPersonNumber(additionalPersons)];
    }

    /** A person's remove button: filter that number out, the others keep their order. */
    method RemovePerson(personNum: nat)
      modifies this`additionalPersons
      ensures additionalPersons == RemoveAll(old(additionalPersons), personNum)
      ensures PersonsValid(old(additionalPersons)) ==> PersonsValid(additionalPersons)
    {
      if PersonsValid(additionalPersons) {
        RemovePersonKeepsValid(additionalPersons, personNum);
      }
      additionalPersons := RemoveAll(additionalPersons, personNum);
    }

    /**
     * `handleAddPosition`: trimmed, non-blank text that storage does not
     * already offer is added and the input is cleared; anything else
     * leaves the panel and storage as they were.
     */
    method HandleAddPosition(store: LocalStorage)
      modifies this`customPositions, this`newPosition, store
      ensures var add := PositionToAdd(old(newPosition), old(GetAllPositions(store)));
        if add.Some? then
          && store.items == old(store.items)[CustomPositionsKey := Json(old(GetCustomPositions(store)) + [add.value])]
          && GetCustomPositions(store) == old(GetCustomPositions(store)) + [add.value]
          && customPositions == GetCustomPositions(store) && newPosition == ""
        else
          store.items == old(store.items) && customPositions == old(customPositions) && newPosition == old(newPosition)
    {
      var add := PositionToAdd(newPosition, GetAllPositions(store));
      if add.Some? {
        AcceptedIsAppended(newPosition, GetCustomPositions(store));
        SaveNewPosition(store, add.value);
      }
    }

    /** The branch of `handleAddPosition` that saves: store, re-read, clear the input. */
    method SaveNewPosition(store: LocalStorage, position: string)
      requires WithCustomPosition(GetCustomPositions(store), position) == GetCustomPositions(store) + [position]
      modifies this`customPositions, this`newPosition, store
      ensures store.items == old(store.items)[CustomPositionsKey := Json(old(GetCustomPositions(store)) + [position])]
      ensures GetCustomPositions(store) == old(GetCustomPositions(store)) + [position]
      ensures customPositions == GetCustomPositions(store) && newPosition == ""
    {
      AddCustomPosition(store, position);
      customPositions := GetCustomPositions(store);
      newPosition := "";
    }

    /** `handleRemovePosition`: remove from storage and re-read the custom list. */
    method HandleRemovePosition(store: LocalStorage, position: string)
      modifies this`customPositions, store
      ensures store.items == StoredAfterRemove(old(store.items), position)
      ensures GetCustomPositions(store) == WithoutCustomPosition(old(GetCustomPositions(store)), position)
      ensures customPositions == GetCustomPositions(store)
    {
      RemoveCustomPosition(store, position);
      customPositions := GetCustomPositions(store);
    }
  }
}
