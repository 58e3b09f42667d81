/**
 * The input rules the two person forms share: the digit-stripping
 * sanitisers, the radio groups that a second click clears, the country
 * filled in from a known city, and which autocomplete fields remember
 * what was committed to them.
 */
module PersonInputs {

  import opened Wrappers
  import opened Text
  import opened Schemas
  import opened Storage
  import opened AutocompleteHistory

  /** `value.replace(/[0-9]/g, '')` as a filter function for an autocomplete field. */
  function StripDigitsFilter(): string -> string {
    s => StripDigits(s)
  }

  /** The city and country fields keep none of the digits typed into them. */
  lemma StripDigitsFilterNoDigits(input: string)
    ensures NoDigits(StripDigitsFilter()(input))
  {
  }

  /**
   * One click on radio option `option` (the group's change and the
   * option's own click handler taken together): clicking the chosen option
   * clears the group to '', clicking any other chooses it.
   */
  function RadioClick(current: string, option: string): (r: string)
    ensures current == option ==> r == ""
    ensures current != option ==> r == option
  {
    if current == option then "" else option
  }

  /** Radio clicks never take a group outside its enum, as long as the enum has ''. */
  lemma RadioClickStaysInEnum(current: string, option: string, values: set<string>)
    requires current in values && option in values && "" in values
    ensures RadioClick(current, option) in values
  {
  }

  /** Two clicks on the same option from a cleared group leave it cleared again. */
  lemma RadioDoubleClickClears(option: string)
    requires option != ""
    ensures RadioClick(RadioClick("", option), option) == ""
  {
  }

  /**
   * What the city effect writes to the country: the country that `lookup`
   * (`getCountryForCity`) gives for a non-empty city when it gives a
   * non-empty name, and nothing otherwise.
   */
  function CountryForCity(city: string, lookup: string -> Option<string>): (r: Option<string>)
    ensures r.Some? <==> city != "" && lookup(city).Some? && lookup(city).value != ""
    ensures r.Some? ==> r.value == lookup(city).value
  {
    if city == "" then None
    else
      match lookup(city)
      case Some(c) => if c != "" then Some(c) else None
      case None => None
  }

  /**
   * `onValueCommit={(value) => addToAutocompleteHistory(fieldName, value)}`:
   * what an autocomplete field reported as committed goes into that field's
   * history, and nothing is written when nothing was committed.
   */
  method CommitToHistory(store: LocalStorage, fieldName: string, committed: Option<string>)
    modifies store
    ensures committed.None? ==> store.items == old(store.items)
    ensures committed.Some? ==>
      GetAutocompleteHistory(store, fieldName) == Committed(old(GetAutocompleteHistory(store, fieldName)), committed.value)
  {
    if committed.Some? {
      AddToAutocompleteHistory(store, fieldName, committed.value);
    }
  }
}
