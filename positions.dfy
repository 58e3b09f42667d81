/**
 * The registry of job positions offered by the position fields: a fixed
 * list of defaults plus a custom list the user extends, kept in
 * localStorage under one key.
 */
module Positions {

  import opened Wrappers
  import opened Text
  import opened Lists
  import opened Storage

  const DefaultPositions: seq<string> := [
    "Chief Executive Officer (CEO)",
    "Chief Financial Officer (CFO)",
    "Chief Technology Officer (CTO)",
    "Chief Operating Officer (COO)",
    "Managing Director",
    "Director",
    "Vice President",
    "Senior Manager",
    "Manager",
    "Team Lead",
    "Analyst",
    "Consultant",
    "Administrator",
    "Coordinator"
  ]

  const CustomPositionsKey: string := "customPositions"

  /** The defaults list fourteen distinct positions. */
  lemma DefaultsDistinct()
    ensures |DefaultPositions| == 14 && NoDups(DefaultPositions)
  {
  }

  /** The shape the custom list keeps: no repeats, and nothing that is already a default. */
  predicate CustomValid(custom: seq<string>) {
    NoDups(custom) && forall p :: p in custom ==> p !in DefaultPositions
  }

  /** `getCustomPositions`: the stored custom list, or `[]` when missing or unreadable. */
  function GetCustomPositions(store: LocalStorage): seq<string>
    reads store
  {
    store.GetList(CustomPositionsKey)
  }

  /** What `getAllPositions` returns for a given custom list. */
  function AllPositions(custom: seq<string>): (r: seq<string>)
    ensures |r| == |DefaultPositions| + |custom|
    ensures r[..|DefaultPositions|] == DefaultPositions
    ensures r[|DefaultPositions|..] == custom
    ensures forall p :: p in r <==> p in DefaultPositions || p in custom
  {
    DefaultPositions + custom
  }

  /** `getAllPositions`: the defaults first, then the stored custom positions. */
  function GetAllPositions(store: LocalStorage): seq<string>
    reads store
  {
    AllPositions(GetCustomPositions(store))
  }

  /** A read of a missing or unparsable entry gives no custom positions, only the defaults. */
  lemma UnreadableCustomIsEmpty(items: map<string, Stored>)
    requires CustomPositionsKey !in items || items[CustomPositionsKey].Unparsable?
    ensures ReadList(items, CustomPositionsKey) == []
    ensures AllPositions(ReadList(items, CustomPositionsKey)) == DefaultPositions
  {
    assert DefaultPositions + [] == DefaultPositions;
  }

  /** The custom list after `addCustomPosition(position)`. */
  function WithCustomPosition(custom: seq<string>, position: string): (r: seq<string>)
    ensures position in custom || position in DefaultPositions ==> r == custom
    ensures position !in custom && position !in DefaultPositions ==> r == custom + [position]
  {
    if position !in custom && position !in DefaultPositions then custom + [position] else custom
  }

  /**
   * The test both position panels make before adding: the trimmed input,
   * when it is not blank and `offered` does not already list it.
   */
  function PositionToAdd(input: string, offered: seq<string>): (r: Option<string>)
    ensures r.Some? <==> Trim(input) != "" && Trim(input) !in offered
    ensures r.Some? ==> r.value == Trim(input)
  {
    var trimmed := Trim(input);
    if trimmed != "" && trimmed !in offered then Some(trimmed) else None
  }

  /**
   * Checked against everything on offer, an accepted position is new to the
   * custom list, so adding it appends it.
   */
  lemma AcceptedIsAppended(input: string, custom: seq<string>)
    requires PositionToAdd(input, AllPositions(custom)).Some?
    ensures var t := PositionToAdd(input, AllPositions(custom)).value;
      t != "" && WithCustomPosition(custom, t) == custom + [t]
  {
  }

  /** After an add the position is on offer, and every earlier one still is. */
  lemma AddMakesAvailable(custom: seq<string>, position: string)
    ensures position in AllPositions(WithCustomPosition(custom, position))
    ensures forall p :: p in AllPositions(custom) ==> p in AllPositions(WithCustomPosition(custom, position))
  {
  }

  /** Adding the same position twice is the same as adding it once. */
  lemma AddIdempotent(custom: seq<string>, position: string)
    ensures WithCustomPosition(WithCustomPosition(custom, position), position)
         == WithCustomPosition(custom, position)
  {
  }

  /** Adding keeps the custom list duplicate-free and apart from the defaults. */
  lemma AddKeepsCustomValid(custom: seq<string>, position: string)
    requires CustomValid(custom)
    ensures CustomValid(WithCustomPosition(custom, position))
  {
    if position !in custom && position !in DefaultPositions {
      SnocNoDups(custom, position);
    }
  }

  /** The custom list after `removeCustomPosition(position)`. */
  function WithoutCustomPosition(custom: seq<string>, position: string): (r: seq<string>)
    ensures position !in r
    ensures forall p :: p in r <==> p in custom && p != position
  {
    RemoveAll(custom, position)
  }

  /** Removing keeps the custom list duplicate-free and apart from the defaults. */
  lemma RemoveKeepsCustomValid(custom: seq<string>, position: string)
    requires CustomValid(custom)
    ensures CustomValid(WithoutCustomPosition(custom, position))
  {
    RemoveAllNoDups(custom, position);
  }

  /**
   * Removing a default, or anything not in the custom list, leaves the
   * custom list as it was; the defaults are never touched.
   */
  lemma RemoveNonCustomUnchanged(custom: seq<string>, position: string)
    requires CustomValid(custom)
    requires position in DefaultPositions || position !in custom
    ensures WithoutCustomPosition(custom, position) == custom
    ensures AllPositions(WithoutCustomPosition(custom, position)) == AllPositions(custom)
  {
    RemoveAbsent(custom, position);
  }

  /**
   * Removing what was just added gives the same list as removing it without
   * the add: the add leaves no trace once the position is removed again.
   */
  lemma RemoveUndoesAdd(custom: seq<string>, position: string)
    requires CustomValid(custom)
    ensures WithoutCustomPosition(WithCustomPosition(custom, position), position)
         == WithoutCustomPosition(custom, position)
  {
    if position !in custom && position !in DefaultPositions {
      RemoveAllConcat(custom, [position], position);
      assert RemoveAll([position], position) == [];
    }
  }

  /** Adding a new position and then removing it gives back the custom list as it was. */
  lemma RemoveAfterFreshAdd(custom: seq<string>, position: string)
    requires position !in custom && position !in DefaultPositions
    ensures WithoutCustomPosition(WithCustomPosition(custom, position), position) == custom
  {
    RemoveAllConcat(custom, [position], position);
    RemoveAbsent(custom, position);
    assert RemoveAll([position], position) == [];
  }

  /**
   * The storage after `addCustomPosition(position)`: a new position is
   * appended to the stored custom list; every other key keeps its entry.
   */
  function StoredAfterAdd(items: map<string, Stored>, position: string): (r: map<string, Stored>)
    ensures forall k :: k != CustomPositionsKey ==> (k in r <==> k in items) && (k in r ==> r[k] == items[k])
    ensures ReadList(r, CustomPositionsKey) == WithCustomPosition(ReadList(items, CustomPositionsKey), position)
  {
    var custom := ReadList(items, CustomPositionsKey);
    if position in custom || position in DefaultPositions then items
    else items[CustomPositionsKey := Json(custom + [position])]
  }

  /**
   * The storage after `removeCustomPosition(position)`: the filtered custom
   * list is always written back; every other key keeps its entry.
   */
  function StoredAfterRemove(items: map<string, Stored>, position: string): (r: map<string, Stored>)
    ensures forall k :: k != CustomPositionsKey ==> (k in r <==> k in items) && (k in r ==> r[k] == items[k])
    ensures CustomPositionsKey in r && r[CustomPositionsKey].Json?
    ensures ReadList(r, CustomPositionsKey) == WithoutCustomPosition(ReadList(items, CustomPositionsKey), position)
  {
    items[CustomPositionsKey := Json(WithoutCustomPosition(ReadList(items, CustomPositionsKey), position))]
  }

  /** `addCustomPosition`: append a new position to the stored custom list and save it. */
  method AddCustomPosition(store: LocalStorage, position: string)
    modifies store
    ensures store.items == StoredAfterAdd(old(store.items), position)
    ensures GetCustomPositions(store) == WithCustomPosition(old(GetCustomPositions(store)), position)
  {
    var custom := GetCustomPositions(store);
    if position !in custom && position !in DefaultPositions {
      custom := custom + [position];
      store.SetList(CustomPositionsKey, custom);
    }
  }

  /** `removeCustomPosition`: filter the stored custom list and save it, whether or not it changed. */
  method RemoveCustomPosition(store: LocalStorage, position: string)
    modifies store
    ensures store.items == StoredAfterRemove(old(store.items), position)
    ensures GetCustomPositions(store) == WithoutCustomPosition(old(GetCustomPositions(store)), position)
  {
    var custom := GetCustomPositions(store);
    var filtered := RemoveAll(custom, position);
    store.SetList(CustomPositionsKey, filtered);
  }
}
