/**
 * `FormRenderer`: which form a page shows, and the person number read back
 * from its label.
 */
module FormRenderer {

  import opened Wrappers
  import opened Text
  import opened FormPages

  /**
   * `label.includes('Person') ? parseInt(label.match(/\d+/)?.[0] || '1') : undefined`:
   * a label mentioning "Person" (case-sensitive) names the person given by its
   * first run of digits, or person 1 when it has no digit; any other label
   * names no person.
   */
  function PersonNumber(text: string): (r: Option<nat>)
    ensures r.Some? <==> Contains(text, "Person")
    ensures r.Some? && NoDigits(text) ==> r.value == 1
    ensures r.Some? && !NoDigits(text) ==> r.value == DecimalValue(FirstDigitRun(text).value)
  {
    if Contains(text, "Person") then
      match FirstDigitRun(text)
      case None => Some(1)
      case Some(run) => Some(DecimalValue(run))
    else None
  }

  /** The form a page renders, with the person number it passes down. */
  datatype FormView =
    | AuthorizedPersonForm(personNumber: nat)
    | PersonForm(personNumber: nat)
    | WalletBankAccountForm
    | LynxAPIForm
    | ScopeAuthorityForm

  /**
   * The `switch` on the page type. A person-like page with no number in its
   * label gets the form's own default: 1 for the authorized-person form,
   * 2 for the person form.
   */
  function RenderForm(page: FormPage): (v: FormView)
    ensures v.AuthorizedPersonForm? <==> page.kind == Authorized
    ensures v.PersonForm? <==> page.kind == Person
    ensures v.WalletBankAccountForm? <==> page.kind == Wallet
    ensures v.LynxAPIForm? <==> page.kind == Lynx
    ensures v.ScopeAuthorityForm? <==> page.kind == Scope
    ensures v.AuthorizedPersonForm? ==> v.personNumber == PersonNumber(page.title).GetOr(1)
    ensures v.PersonForm? ==> v.personNumber == PersonNumber(page.title).GetOr(2)
  {
    var n := PersonNumber(page.title);
    match page.kind
    case Authorized => AuthorizedPersonForm(n.GetOr(1))
    case Person => PersonForm(n.GetOr(2))
    case Wallet => WalletBankAccountForm
    case Lynx => LynxAPIForm
    case Scope => ScopeAuthorityForm
  }

  /** Both person labels mention "Person". */
  lemma PersonLabelMentionsPerson(t: PageType, n: nat)
    requires t == Authorized || t == Person
    ensures Contains(PersonLabel(t, n), "Person")
  {
    var s := PersonLabel(t, n);
    var p := if t == Authorized then 11 else 0;
    assert s[p..p + |"Person"|] == "Person";
    assert OccursAt(s, "Person", p);
    ContainsIffOccurs(s, "Person");
  }

  /** The labels duplication writes, "Authorized Person N" and "Person N", read back as N. */
  lemma PersonLabelRoundTrip(t: PageType, n: nat)
    requires t == Authorized || t == Person
    ensures PersonNumber(PersonLabel(t, n)) == Some(n)
  {
    var pre: string := if t == Authorized then "Authorized Person " else "Person ";
    assert PersonLabel(t, n) == pre + NatToString(n);
    assert NoDigits(pre);
    FirstDigitRunAfter(pre, NatToString(n));
    DecimalRoundTrip(n);
    PersonLabelMentionsPerson(t, n);
  }

  /**
   * A copy of a person-like page renders as the form of the same type whose
   * person number is the number of pages of that type after the copy.
   */
  lemma DuplicatedPersonRendersNextNumber(pages: seq<FormPage>, pageId: string, now: nat)
    requires FindIndex(pages, pageId) >= 0
    requires pages[FindIndex(pages, pageId)].kind in {Authorized, Person}
    ensures var i := FindIndex(pages, pageId);
      var r := Duplicated(pages, pageId, now);
      RenderForm(r[i + 1]).personNumber == CountOfType(r, pages[i].kind)
  {
    var i := FindIndex(pages, pageId);
    var t := pages[i].kind;
    var r := Duplicated(pages, pageId, now);
    var n := CountOfType(pages, t) + 1;
    DuplicateCounts(pages, pageId, now, t);
    assert CountOfType(r, t) == n;
    assert r[i + 1].title == PersonLabel(t, n) && r[i + 1].kind == t;
    PersonLabelRoundTrip(t, n);
  }
}
