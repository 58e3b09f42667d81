/**
 * The `usePositions` hook: a component-side cache of the position registry
 * that checks new entries against its cached list and re-reads storage
 * after every change.
 */
module UsePositions {

  import opened Text
  import opened Storage
  import opened Positions

  class PositionsHook {
    var customPositions: seq<string>
    var allPositions: seq<string>

    /** The cache agrees with itself: all positions are the defaults, then the custom ones. */
    predicate Valid()
      reads this
    {
      allPositions == AllPositions(customPositions)
    }

    /** The cache holds exactly what storage holds. */
    predicate InSync(store: LocalStorage)
      reads this, store
    {
      customPositions == GetCustomPositions(store) && allPositions == GetAllPositions(store)
    }

    /** Both state fields start from a read of storage. */
    constructor (store: LocalStorage)
      ensures InSync(store) && Valid()
    {
      customPositions := GetCustomPositions(store);
      allPositions := GetAllPositions(store);
    }

    /** `updatePositions`: re-read both fields from storage. */
    method UpdatePositions(store: LocalStorage)
      modifies this
      ensures InSync(store) && Valid()
    {
      customPositions := GetCustomPositions(store);
      allPositions := GetAllPositions(store);
    }

    /**
     * `addPosition`: blank text, or trimmed text the cached list already
     * offers, changes nothing at all; otherwise the trimmed text goes to
     * the registry and the cache is refreshed.
     */
    method AddPosition(store: LocalStorage, position: string)
      modifies this, store
      ensures var add := PositionToAdd(position, old(allPositions));
        if add.Some? then
          && store.items == StoredAfterAdd(old(store.items), add.value)
          && GetCustomPositions(store) == WithCustomPosition(old(GetCustomPositions(store)), add.value)
          && InSync(store) && Valid()
        else
          customPositions == old(customPositions) && allPositions == old(allPositions) && store.items == old(store.items)
    {
      var add := PositionToAdd(position, allPositions);
      if add.Some? {
        SaveAndRefresh(store, add.value);
      }
    }

    /** The branch of `addPosition` that saves: register the position, then refresh. */
    method SaveAndRefresh(store: LocalStorage, position: string)
      modifies this, store
      ensures store.items == StoredAfterAdd(old(store.items), position)
      ensures GetCustomPositions(store) == WithCustomPosition(old(GetCustomPositions(store)), position)
      ensures InSync(store) && Valid()
    {
      AddCustomPosition(store, position);
      UpdatePositions(store);
    }

    /** `removePosition`: always remove from the registry, then refresh. */
    method RemovePosition(store: LocalStorage, position: string)
      modifies this, store
      ensures store.items == StoredAfterRemove(old(store.items), position)
      ensures GetCustomPositions(store) == WithoutCustomPosition(old(GetCustomPositions(store)), position)
      ensures InSync(store) && Valid()
    {
      RemoveCustomPosition(store, position);
      UpdatePositions(store);
    }
  }
}
