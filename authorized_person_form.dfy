/**
 * The authorized-person form: its starting values, the handlers that clean
 * what is typed into the name and zip fields, the radio groups, the city
 * effect and which autocomplete fields feed the suggestion history.
 */
module AuthorizedPersonForm {

  import opened Wrappers
  import opened Text
  import opened Schemas
  import opened PersonInputs
  import opened Autocomplete
  import opened MultiSelect

  /** The autocomplete fields given an `onValueCommit`: street, city and country, not position. */
  const HistoryFields: set<string> := {"street", "city", "country"}

  /** The autocomplete fields given the digit-stripping `filterInput`. */
  const DigitFreeFields: set<string> := {"city", "country"}

  /** `defaultValues`: every text field empty and no nationality. */
  function Defaults(): (v: AuthorizedPersonValues)
    ensures v.nationalities == [] && v.clientName == "" && v.action == "" && v.signaturePower == ""
  {
    AuthorizedPersonValues("", "", "", "", "", "", [], "", "", "", "", "", "", "", "", "", "")
  }

  /**
   * The untouched form does not validate: the client name, both names, the
   * date of birth and the nationalities are reported, nothing else.
   */
  lemma DefaultsRejected()
    ensures AuthorizedPersonErrors(Defaults()) == {ClientName, FirstName, LastName, DateOfBirth, Nationalities}
    ensures !AuthorizedPersonValid(Defaults())
  {
    AuthorizedPersonErrorsEmptyIffValid(Defaults());
  }

  class AuthorizedPersonFormState {
    /** The number shown in the "Person N:" heading and element ids. */
    const personNumber: nat
    var values: AuthorizedPersonValues

    constructor (personNumber0: nat)
      ensures personNumber == personNumber0 && values == Defaults()
    {
      personNumber := personNumber0;
      values := Defaults();
    }

    /** The first-name input: every digit typed is dropped before the value reaches the field. */
    method InputFirstName(text: string)
      modifies this`values
      ensures values == old(values).(firstName := StripDigits(text))
      ensures NoDigits(values.firstName)
    {
      var cleaned := StripDigits(text);
      values := values.(firstName := cleaned);
    }

    /** The last-name input, cleaned the same way. */
    method InputLastName(text: string)
      modifies this`values
      ensures values == old(values).(lastName := StripDigits(text))
      ensures NoDigits(values.lastName)
    {
      var cleaned := StripDigits(text);
      values := values.(lastName := cleaned);
    }

    /** The zip input: only the digits typed are kept, so the field always passes a digits-only rule. */
    method InputZipCode(text: string)
      modifies this`values
      ensures values == old(values).(zipCode := KeepDigits(text))
      ensures IsDigits(values.zipCode)
    {
      var cleaned := KeepDigits(text);
      values := values.(zipCode := cleaned);
    }

    /**
     * The nationality multi-select, capped at three: a click toggles a
     * country, and a fourth is refused.
     */
    method ClickNationality(country: string)
      modifies this`values
      ensures values == old(values).(nationalities := Select(old(values).nationalities, country, 3))
      ensures |old(values).nationalities| <= 3 ==> |values.nationalities| <= 3
    {
      if |values.nationalities| <= 3 {
        SelectWithinCap(values.nationalities, country, 3);
      }
      values := values.(nationalities := Select(values.nationalities, country, 3));
    }

    /** A chosen nationality's remove button. */
    method RemoveNationality(country: string)
      modifies this`values
      ensures values == old(values).(nationalities := Deselect(old(values).nationalities, country))
      ensures country !in values.nationalities
    {
      values := values.(nationalities := Deselect(values.nationalities, country));
    }

    /** A click on an action radio: the chosen option is cleared, another is chosen. */
    method ClickAction(option: string)
      requires option in {"add", "update", "remove"}
      modifies this`values
      ensures values == old(values).(action := RadioClick(old(values).action, option))
      ensures old(values).action in ActionValues ==> values.action in ActionValues
    {
      values := values.(action := RadioClick(values.action, option));
    }

    /** A click on a signature-power radio, with the same rule. */
    method ClickSignaturePower(option: string)
      requires option in {"none", "sole", "jointly"}
      modifies this`values
      ensures values == old(values).(signaturePower := RadioClick(old(values).signaturePower, option))
      ensures old(values).signaturePower in SignaturePowerValues ==> values.signaturePower in SignaturePowerValues
    {
      values := values.(signaturePower := RadioClick(values.signaturePower, option));
    }

    /**
     * The city autocomplete writes its value. The effect watching the city
     * runs only when that value changes, and then fills in the country when
     * `lookup` (`getCountryForCity`) knows it; writing the city it already
     * holds leaves the country alone.
     */
    method ChangeCity(city: string, lookup: string -> Option<string>)
      modifies this`values
      ensures city == old(values).city ==> values == old(values)
      ensures city != old(values).city ==>
        values == old(values).(city := city, country := CountryForCity(city, lookup).GetOr(old(values).country))
    {
      var changed := city != values.city;
      values := values.(city := city);
      if changed && values.city != "" {
        var countryForCity := lookup(values.city);
        if countryForCity.Some? && countryForCity.value != "" {
          values := values.(country := countryForCity.value);
        }
      }
    }

    /** The country autocomplete writes its value. */
    method ChangeCountry(country: string)
      modifies this`values
      ensures values == old(values).(country := country)
    {
      values := values.(country := country);
    }

    /**
     * The autocomplete rendered for `fieldName` (street, city, country or
     * position): it commits to the history only for street, city and country,
     * and strips digits only for city and country.
     */
    method AutocompleteFor(fieldName: string, current: string, options: seq<string>) returns (a: AutocompleteField)
      requires fieldName in {"street", "city", "country", "position"}
      ensures fresh(a) && a.value == current && a.previousValue == current
      ensures a.hasCommit <==> fieldName in HistoryFields
      ensures a.filterInput == if fieldName in DigitFreeFields then Some(StripDigitsFilter()) else None
    {
      var filter: Option<string -> string> := None;
      if fieldName in DigitFreeFields {
        filter := Some(StripDigitsFilter());
      }
      a := new AutocompleteField(current, options, fieldName in HistoryFields, filter);
    }
  }
}
