/**
 * The field rules of the two person records, as the zod schemas state
 * them: which fields are required, which must be digits or phone text,
 * how many nationalities may be chosen and which enum values are allowed.
 * The e-mail check is a library routine and is passed in as `isEmail`.
 */
module Schemas {

  import opened Wrappers
  import opened Text

  /** `['add', 'update', 'remove', '']`. */
  const ActionValues: set<string> := {"add", "update", "remove", ""}
  /** `['none', 'sole', 'jointly', '']`. */
  const SignaturePowerValues: set<string> := {"none", "sole", "jointly", ""}

  /** `z.enum(['add', 'update', 'remove', ''])`. */
  predicate IsAction(s: string) {
    s in ActionValues
  }

  /** `z.enum(['none', 'sole', 'jointly', ''])`. */
  predicate IsSignaturePower(s: string) {
    s in SignaturePowerValues
  }

  /** `z.string().email().optional().or(z.literal(''))`: absent, empty, or an e-mail address. */
  predicate EmailOk(o: Option<string>, isEmail: string -> bool) {
    o.None? || o.value == "" || isEmail(o.value)
  }

  /** `z.string().min(1)`. */
  predicate NonEmpty(s: string) {
    |s| >= 1
  }

  /** One character of the class `[\d\s\+\-\(\)]`. */
  predicate IsPhoneChar(c: char) {
    IsDigit(c) || IsJsWhitespace(c) || c == '+' || c == '-' || c == '(' || c == ')'
  }

  /** `/^[\d\s\+\-\(\)]*$/`. */
  predicate IsPhoneText(s: string) {
    forall i :: 0 <= i < |s| ==> IsPhoneChar(s[i])
  }

  /** `z.array(z.string()).min(1).max(3)`. */
  predicate NationalitiesOk(ns: seq<string>) {
    1 <= |ns| <= 3
  }

  /** `.optional()` around a rule: an absent value passes. */
  predicate OptionalOk<T>(o: Option<T>, ok: T -> bool) {
    match o
    case None => true
    case Some(v) => ok(v)
  }

  /** The values the `PersonSchema` describes; `None` is an absent (undefined) field. */
  datatype PersonValues = PersonValues(
    action: Option<string>,
    firstName: string,
    lastName: string,
    dateOfBirth: string,
    idDocument: Option<string>,
    nationalities: seq<string>,
    street: Option<string>,
    zipCode: Option<string>,
    city: Option<string>,
    country: Option<string>,
    businessEmail: Option<string>,
    businessPhone: Option<string>,
    mobilePhone: Option<string>,
    position: Option<string>,
    signaturePower: Option<string>,
    signature: Option<string>)

  /** The fields a validation error can be reported against. */
  datatype Field =
    | ClientName | Action | FirstName | LastName | DateOfBirth | IdDocument | Nationalities
    | ZipCode | BusinessEmail | BusinessPhone | MobilePhone | SignaturePower

  /** `PersonSchema` accepts the record. */
  predicate PersonValid(v: PersonValues, isEmail: string -> bool) {
    && OptionalOk(v.action, IsAction)
    && NonEmpty(v.firstName)
    && NonEmpty(v.lastName)
    && NonEmpty(v.dateOfBirth)
    && OptionalOk(v.idDocument, IsDigits)
    && NationalitiesOk(v.nationalities)
    && OptionalOk(v.zipCode, IsDigits)
    && EmailOk(v.businessEmail, isEmail)
    && OptionalOk(v.businessPhone, IsPhoneText)
    && OptionalOk(v.mobilePhone, IsPhoneText)
    && OptionalOk(v.signaturePower, IsSignaturePower)
  }

  /** The fields `PersonSchema` reports errors against. */
  function PersonErrors(v: PersonValues, isEmail: string -> bool): set<Field> {
    (if OptionalOk(v.action, IsAction) then {} else {Action})
    + (if NonEmpty(v.firstName) then {} else {FirstName})
    + (if NonEmpty(v.lastName) then {} else {LastName})
    + (if NonEmpty(v.dateOfBirth) then {} else {DateOfBirth})
    + (if OptionalOk(v.idDocument, IsDigits) then {} else {IdDocument})
    + (if NationalitiesOk(v.nationalities) then {} else {Nationalities})
    + (if OptionalOk(v.zipCode, IsDigits) then {} else {ZipCode})
    + (if EmailOk(v.businessEmail, isEmail) then {} else {BusinessEmail})
    + (if OptionalOk(v.businessPhone, IsPhoneText) then {} else {BusinessPhone})
    + (if OptionalOk(v.mobilePhone, IsPhoneText) then {} else {MobilePhone})
    + (if OptionalOk(v.signaturePower, IsSignaturePower) then {} else {SignaturePower})
  }

  /** A record is accepted exactly when no field has an error. */
  lemma PersonErrorsEmptyIffValid(v: PersonValues, isEmail: string -> bool)
    ensures PersonErrors(v, isEmail) == {} <==> PersonValid(v, isEmail)
  {
    var e := PersonErrors(v, isEmail);
    if !PersonValid(v, isEmail) {
      if !OptionalOk(v.action, IsAction) { assert Action in e; }
      else if !NonEmpty(v.firstName) { assert FirstName in e; }
      else if !NonEmpty(v.lastName) { assert LastName in e; }
      else if !NonEmpty(v.dateOfBirth) { assert DateOfBirth in e; }
      else if !OptionalOk(v.idDocument, IsDigits) { assert IdDocument in e; }
      else if !NationalitiesOk(v.nationalities) { assert Nationalities in e; }
      else if !OptionalOk(v.zipCode, IsDigits) { assert ZipCode in e; }
      else if !EmailOk(v.businessEmail, isEmail) { assert BusinessEmail in e; }
      else if !OptionalOk(v.businessPhone, IsPhoneText) { assert BusinessPhone in e; }
      else if !OptionalOk(v.mobilePhone, IsPhoneText) { assert MobilePhone in e; }
      else { assert SignaturePower in e; }
    }
  }

  /** The values the `AuthorizedPersonSchema` describes: every field is present. */
  datatype AuthorizedPersonValues = AuthorizedPersonValues(
    clientName: string,
    action: string,
    firstName: string,
    lastName: string,
    dateOfBirth: string,
    idDocument: string,
    nationalities: seq<string>,
    street: string,
    zipCode: string,
    city: string,
    country: string,
    businessEmail: string,
    businessPhone: string,
    mobilePhone: string,
    position: string,
    signaturePower: string,
    signature: string)

  /** `AuthorizedPersonSchema` accepts the record: no format rule on any free-text field. */
  predicate AuthorizedPersonValid(v: AuthorizedPersonValues) {
    && NonEmpty(v.clientName)
    && v.action in ActionValues
    && NonEmpty(v.firstName)
    && NonEmpty(v.lastName)
    && NonEmpty(v.dateOfBirth)
    && NationalitiesOk(v.nationalities)
    && v.signaturePower in SignaturePowerValues
  }

  /** The fields `AuthorizedPersonSchema` reports errors against. */
  function AuthorizedPersonErrors(v: AuthorizedPersonValues): set<Field> {
    (if NonEmpty(v.clientName) then {} else {ClientName})
    + (if v.action in ActionValues then {} else {Action})
    + (if NonEmpty(v.firstName) then {} else {FirstName})
    + (if NonEmpty(v.lastName) then {} else {LastName})
    + (if NonEmpty(v.dateOfBirth) then {} else {DateOfBirth})
    + (if NationalitiesOk(v.nationalities) then {} else {Nationalities})
    + (if v.signaturePower in SignaturePowerValues then {} else {SignaturePower})
  }

  /** A record is accepted exactly when no field has an error. */
  lemma AuthorizedPersonErrorsEmptyIffValid(v: AuthorizedPersonValues)
    ensures AuthorizedPersonErrors(v) == {} <==> AuthorizedPersonValid(v)
  {
    var e := AuthorizedPersonErrors(v);
    if !AuthorizedPersonValid(v) {
      if !NonEmpty(v.clientName) { assert ClientName in e; }
      else if v.action !in ActionValues { assert Action in e; }
      else if !NonEmpty(v.firstName) { assert FirstName in e; }
      else if !NonEmpty(v.lastName) { assert LastName in e; }
      else if !NonEmpty(v.dateOfBirth) { assert DateOfBirth in e; }
      else if !NationalitiesOk(v.nationalities) { assert Nationalities in e; }
      else { assert SignaturePower in e; }
    }
  }

  /** The same person as a `PersonSchema` record, every optional field present. */
  function AsPerson(v: AuthorizedPersonValues): (p: PersonValues)
    ensures p.firstName == v.firstName && p.lastName == v.lastName && p.nationalities == v.nationalities
    ensures p.zipCode == Some(v.zipCode) && p.idDocument == Some(v.idDocument)
  {
    PersonValues(Some(v.action), v.firstName, v.lastName, v.dateOfBirth, Some(v.idDocument),
                 v.nationalities, Some(v.street), Some(v.zipCode), Some(v.city), Some(v.country),
                 Some(v.businessEmail), Some(v.businessPhone), Some(v.mobilePhone), Some(v.position),
                 Some(v.signaturePower), Some(v.signature))
  }

  /**
   * The two schemas differ by the client name and the format rules: an
   * authorized person passes the person schema exactly when it passes its
   * own apart from the client name and its id, zip, e-mail and phone
   * fields have the person schema's formats.
   */
  lemma PersonSchemaIsAuthorizedPlusFormats(v: AuthorizedPersonValues, isEmail: string -> bool)
    ensures PersonValid(AsPerson(v), isEmail) <==>
      && AuthorizedPersonValid(v.(clientName := "x"))
      && IsDigits(v.idDocument) && IsDigits(v.zipCode)
      && (v.businessEmail == "" || isEmail(v.businessEmail))
      && IsPhoneText(v.businessPhone) && IsPhoneText(v.mobilePhone)
  {
  }
}
