/**
 * The multi-select widget: a list of chosen options that a click toggles,
 * with an optional cap on how many may be chosen, and a search box that
 * narrows the options shown.
 */
module MultiSelect {

  import opened Text
  import opened Lists

  /** `maxSelections && value.length >= maxSelections`: the cap is set (non-zero) and reached. */
  predicate AtLimit(value: seq<string>, maxSelections: int) {
    maxSelections != 0 && |value| >= maxSelections
  }

  /**
   * `handleSelect`: a chosen item is unchosen (every occurrence of it); an
   * unchosen one is appended unless the cap is reached, in which case
   * nothing changes. `maxSelections` 0 stands for an unset cap.
   */
  function Select(value: seq<string>, item: string, maxSelections: int): (r: seq<string>)
    ensures item in value ==> item !in r && forall x :: x in r <==> x in value && x != item
    ensures item !in value && AtLimit(value, maxSelections) ==> r == value
    ensures item !in value && !AtLimit(value, maxSelections) ==> r == value + [item]
  {
    if item in value then RemoveAll(value, item)
    else if AtLimit(value, maxSelections) then value
    else value + [item]
  }

  /** `handleRemove`: every occurrence of the item dropped, the rest in order. */
  function Deselect(value: seq<string>, item: string): (r: seq<string>)
    ensures item !in r
    ensures forall x :: x in r <==> x in value && x != item
  {
    RemoveAll(value, item)
  }

  /** With a positive cap, a selection never takes the list past the cap. */
  lemma SelectWithinCap(value: seq<string>, item: string, maxSelections: int)
    requires maxSelections > 0 && |value| <= maxSelections
    ensures |Select(value, item, maxSelections)| <= maxSelections
  {
  }

  /** Selecting keeps a duplicate-free list duplicate-free. */
  lemma SelectKeepsNoDups(value: seq<string>, item: string, maxSelections: int)
    requires NoDups(value)
    ensures NoDups(Select(value, item, maxSelections))
  {
    if item in value {
      RemoveAllNoDups(value, item);
    } else if !AtLimit(value, maxSelections) {
      SnocNoDups(value, item);
    }
  }

  /** Selecting an absent item twice while below the cap gives back the original list. */
  lemma SelectTwiceUndoes(value: seq<string>, item: string, maxSelections: int)
    requires item !in value && !AtLimit(value, maxSelections)
    ensures Select(Select(value, item, maxSelections), item, maxSelections) == value
  {
    RemoveAllConcat(value, [item], item);
    RemoveAbsent(value, item);
    assert RemoveAll([item], item) == [];
  }

  /**
   * `isDisabled`: an option is greyed out exactly when the cap is set and
   * reached and the option is not one of the chosen.
   */
  predicate IsDisabled(value: seq<string>, option: string, maxSelections: int) {
    AtLimit(value, maxSelections) && option !in value
  }

  /** A click on an enabled option always changes the list; a click on a disabled one never does. */
  lemma DisabledIffNoEffect(value: seq<string>, option: string, maxSelections: int)
    ensures IsDisabled(value, option, maxSelections) <==> Select(value, option, maxSelections) == value
  {
    if option in value {
      assert option !in Select(value, option, maxSelections);
    } else if !AtLimit(value, maxSelections) {
      assert |Select(value, option, maxSelections)| == |value| + 1;
    }
  }

  /** `option.toLowerCase().includes(query.toLowerCase())`. */
  predicate Matches(option: string, query: string) {
    Contains(ToLower(option), ToLower(query))
  }

  /** `options.filter(...)`: the options matching the query, in their order. */
  function FilterOptions(options: seq<string>, query: string): (r: seq<string>)
    ensures |r| <= |options|
    ensures forall x :: x in r <==> x in options && Matches(x, query)
  {
    if options == [] then []
    else if Matches(options[0], query) then [options[0]] + FilterOptions(options[1..], query)
    else FilterOptions(options[1..], query)
  }

  /** An empty search shows every option. */
  lemma {:induction false} EmptyQueryKeepsAll(options: seq<string>)
    ensures FilterOptions(options, "") == options
  {
    if options != [] {
      ContainsEmpty(ToLower(options[0]));
      EmptyQueryKeepsAll(options[1..]);
    }
  }

  /** The filtered options keep their relative order: filtering works piecewise. */
  lemma {:induction false} FilterOptionsConcat(a: seq<string>, b: seq<string>, query: string)
    ensures FilterOptions(a + b, query) == FilterOptions(a, query) + FilterOptions(b, query)
  {
    if a == [] {
      assert a + b == b;
    } else {
      assert (a + b)[1..] == a[1..] + b;
      FilterOptionsConcat(a[1..], b, query);
    }
  }
}
