/**
 * The autocomplete text field: it shows the options matching what was
 * typed, and reports a value as "committed" when an option is chosen or
 * when the field loses focus holding a new non-empty value.
 */
module Autocomplete {

  import opened Wrappers
  import opened Text
  import opened MultiSelect

  /**
   * The options the filtering effect shows: all of them for an empty value,
   * otherwise those containing the value, ignoring A-Z case, in their order.
   */
  function ShownOptions(options: seq<string>, value: string): (r: seq<string>)
    ensures value == "" ==> r == options
    ensures forall x :: x in r <==> x in options && Matches(x, value)
  {
    if value == "" then
      EmptyQueryKeepsAll(options);
      options
    else FilterOptions(options, value)
  }

  /** The empty-value branch of the effect agrees with filtering by the empty string. */
  lemma ShownIsFiltered(options: seq<string>, value: string)
    ensures ShownOptions(options, value) == FilterOptions(options, value)
  {
    if value == "" {
      EmptyQueryKeepsAll(options);
    }
  }

  /** `filterInput ? filterInput(inputValue) : inputValue`. */
  function ApplyFilter(filterInput: Option<string -> string>, input: string): (r: string)
    ensures filterInput.None? ==> r == input
    ensures filterInput.Some? ==> r == filterInput.value(input)
  {
    match filterInput
    case Some(f) => f(input)
    case None => input
  }

  /**
   * What a blur commits: the current value when a commit handler is wired,
   * the value is non-empty and it differs from the remembered one; else nothing.
   */
  function BlurCommit(value: string, previous: string, hasCommit: bool): (c: Option<string>)
    ensures c.Some? <==> hasCommit && value != "" && value != previous
    ensures c.Some? ==> c.value == value
  {
    if value != "" && value != previous && hasCommit then Some(value) else None
  }

  /** Once a blur has remembered the value, another blur without typing commits nothing. */
  lemma SecondBlurCommitsNothing(value: string, hasCommit: bool)
    ensures BlurCommit(value, value, hasCommit).None?
  {
  }

  /** One autocomplete field and the state the component keeps for it. */
  class AutocompleteField {
    /** The field's value (held by the form, shown and changed by this component). */
    var value: string
    /** `previousValue.current`: the value as of the last blur (initially the first value). */
    var previousValue: string
    var isOpen: bool
    var options: seq<string>
    var filteredOptions: seq<string>
    /** Whether an `onValueCommit` handler was passed. */
    const hasCommit: bool
    const filterInput: Option<string -> string>

    /** Mount: remember the initial value and run the filtering effect once. */
    constructor (initialValue: string, options0: seq<string>, hasCommit0: bool, filterInput0: Option<string -> string>)
      ensures value == initialValue && previousValue == initialValue && !isOpen
      ensures options == options0 && filteredOptions == ShownOptions(options0, initialValue)
      ensures hasCommit == hasCommit0 && filterInput == filterInput0
    {
      value := initialValue;
      previousValue := initialValue;
      isOpen := false;
      options := options0;
      filteredOptions := ShownOptions(options0, initialValue);
      hasCommit := hasCommit0;
      filterInput := filterInput0;
    }

    /** The filtering effect, re-run whenever the value or the options change. */
    method Refilter()
      modifies this`filteredOptions
      ensures filteredOptions == ShownOptions(options, value)
    {
      if value != "" {
        filteredOptions := FilterOptions(options, value);
      } else {
        filteredOptions := options;
      }
    }

    /**
     * `handleSelect`: the value becomes the option and the option is
     * committed whether or not it changed; the remembered value stays.
     */
    method HandleSelect(option: string) returns (committed: Option<string>)
      modifies this`value, this`isOpen, this`filteredOptions
      ensures value == option && !isOpen
      ensures committed == if hasCommit then Some(option) else None
      ensures filteredOptions == ShownOptions(options, value)
    {
      value := option;
      isOpen := false;
      Refilter();
      committed := if hasCommit then Some(option) else None;
    }

    /** `handleInputChange`: the typed text, passed through `filterInput` when there is one. */
    method HandleInputChange(input: string)
      modifies this`value, this`isOpen, this`filteredOptions
      ensures value == ApplyFilter(filterInput, input) && isOpen
      ensures filteredOptions == ShownOptions(options, value)
    {
      var filtered := input;
      if filterInput.Some? {
        filtered := filterInput.value(input);
      }
      value := filtered;
      isOpen := true;
      Refilter();
    }

    /** `handleFocus`: the list opens. */
    method HandleFocus()
      modifies this`isOpen
      ensures isOpen
    {
      isOpen := true;
    }

    /**
     * `handleBlur` (with its delay taken as part of the same event): commit
     * the value if it is new and non-empty, then remember it.
     */
    method HandleBlur() returns (committed: Option<string>)
      modifies this`previousValue
      ensures committed == BlurCommit(value, old(previousValue), hasCommit)
      ensures previousValue == value
    {
      committed := None;
      if value != "" && value != previousValue && hasCommit {
        committed := Some(value);
      }
      previousValue := value;
    }
  }
}
