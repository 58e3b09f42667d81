/**
 * The person form (additional persons and person pages): the same input
 * rules as the authorized-person form over the `PersonSchema` record, with
 * no client name and with the position field also feeding the history.
 */
module PersonForm {

  import opened Wrappers
  import opened Text
  import opened Schemas
  import opened PersonInputs
  import opened Autocomplete
  import opened MultiSelect

  /** The autocomplete fields given an `onValueCommit`: street, city, country and position. */
  const HistoryFields: set<string> := {"street", "city", "country", "position"}

  /** The autocomplete fields given the digit-stripping `filterInput`. */
  const DigitFreeFields: set<string> := {"city", "country"}

  /** `defaultValues`: every field present and empty, no nationality. */
  function Defaults(): (v: PersonValues)
    ensures v.nationalities == [] && v.action == Some("") && v.signaturePower == Some("")
    ensures v.zipCode == Some("") && v.idDocument == Some("")
  {
    PersonValues(Some(""), "", "", "", Some(""), [], Some(""), Some(""), Some(""), Some(""),
                 Some(""), Some(""), Some(""), Some(""), Some(""), Some(""))
  }

  /**
   * The untouched form does not validate: both names, the date of birth
   * and the nationalities are reported, and nothing else.
   */
  lemma DefaultsRejected(isEmail: string -> bool)
    ensures PersonErrors(Defaults(), isEmail) == {FirstName, LastName, DateOfBirth, Nationalities}
    ensures !PersonValid(Defaults(), isEmail)
  {
    PersonErrorsEmptyIffValid(Defaults(), isEmail);
  }

  class PersonFormState {
    /** The number shown in the "Person N:" heading and element ids. */
    const personNumber: nat
    var values: PersonValues

    constructor (personNumber0: nat)
      ensures personNumber == personNumber0 && values == Defaults()
    {
      personNumber := personNumber0;
      values := Defaults();
    }

    /** The first-name input: every digit typed is dropped before the value reaches the field. */
    method InputFirstName(text: string)
      modifies this`values
      ensures values == old(values).(firstName := StripDigits(text))
      ensures NoDigits(values.firstName)
    {
      var cleaned := StripDigits(text);
      values := values.(firstName := cleaned);
    }

    /** The last-name input, cleaned the same way. */
    method InputLastName(text: string)
      modifies this`values
      ensures values == old(values).(lastName := StripDigits(text))
      ensures NoDigits(values.lastName)
    {
      var cleaned := StripDigits(text);
      values := values.(lastName := cleaned);
    }

    /** The zip input: only the digits typed are kept, so the zip rule of the schema always holds. */
    method InputZipCode(text: string)
      modifies this`values
      ensures values == old(values).(zipCode := Some(KeepDigits(text)))
      ensures OptionalOk(values.zipCode, IsDigits)
    {
      var cleaned := KeepDigits(text);
      values := values.(zipCode := Some(cleaned));
    }

    /**
     * The nationality multi-select, capped at three: a click toggles a
     * country, and a fourth is refused.
     */
    method ClickNationality(country: string)
      modifies this`values
      ensures values == old(values).(nationalities := Select(old(values).nationalities, country, 3))
      ensures |old(values).nationalities| <= 3 ==> |values.nationalities| <= 3
    {
      if |values.nationalities| <= 3 {
        SelectWithinCap(values.nationalities, country, 3);
      }
      values := values.(nationalities := Select(values.nationalities, country, 3));
    }

    /** A chosen nationality's remove button. */
    method RemoveNationality(country: string)
      modifies this`values
      ensures values == old(values).(nationalities := Deselect(old(values).nationalities, country))
      ensures country !in values.nationalities
    {
      values := values.(nationalities := Deselect(values.nationalities, country));
    }

    /** A click on an action radio: the chosen option is cleared, another is chosen. */
    method ClickAction(option: string)
      requires option in {"add", "update", "remove"}
      modifies this`values
      ensures values == old(values).(action := Some(RadioClick(old(values).action.GetOr(""), option)))
      ensures OptionalOk(values.action, IsAction)
    {
      values := values.(action := Some(RadioClick(values.action.GetOr(""), option)));
    }

    /** A click on a signature-power radio, with the same rule. */
    method ClickSignaturePower(option: string)
      requires option in {"none", "sole", "jointly"}
      modifies this`values
      ensures values == old(values).(signaturePower := Some(RadioClick(old(values).signaturePower.GetOr(""), option)))
      ensures OptionalOk(values.signaturePower, IsSignaturePower)
    {
      values := values.(signaturePower := Some(RadioClick(values.signaturePower.GetOr(""), option)));
    }

    /**
     * The city autocomplete writes its value. The effect watching the city
     * runs only when that value changes, and then fills in the country when
     * `lookup` (`getCountryForCity`) knows it; writing the city it already
     * holds leaves the country alone.
     */
    method ChangeCity(city: string, lookup: string -> Option<string>)
      modifies this`values
      ensures Some(city) == old(values).city ==> values == old(values)
      ensures var found := CountryForCity(city, lookup);
        Some(city) != old(values).city ==>
        values == old(values).(city := Some(city), country := if found.Some? then found else old(values).country)
    {
      var changed := Some(city) != values.city;
      values := values.(city := Some(city));
      if changed && city != "" {
        var countryForCity := lookup(city);
        if countryForCity.Some? && countryForCity.value != "" {
          values := values.(country := Some(countryForCity.value));
        }
      }
    }

    /** The country autocomplete writes its value. */
    method ChangeCountry(country: string)
      modifies this`values
      ensures values == old(values).(country := Some(country))
    {
      values := values.(country := Some(country));
    }

    /**
     * The autocomplete rendered for `fieldName` (street, city, country or
     * position): every one of them commits to the history; city and country
     * strip digits.
     */
    method AutocompleteFor(fieldName: string, current: string, options: seq<string>) returns (a: AutocompleteField)
      requires fieldName in {"street", "city", "country", "position"}
      ensures fresh(a) && a.value == current && a.previousValue == current
      ensures a.hasCommit <==> fieldName in HistoryFields
      ensures a.filterInput == if fieldName in DigitFreeFields then Some(StripDigitsFilter()) else None
    {
      var filter: Option<string -> string> := None;
      if fieldName in DigitFreeFields {
        filter := Some(StripDigitsFilter());
      }
      a := new AutocompleteField(current, options, fieldName in HistoryFields, filter);
    }
  }
}
