# Form builder core in Dafny

This project models the rules that sit under the components of a React form
builder for client onboarding. The app has pages for an authorized person,
extra persons, a wallet and bank account, Lynx and API access, and a scope of
authority. The model covers:

- **Page list** (`useFormPages` and the same handlers inline in `App`): an
  ordered list of `{id, type, label}` pages and a bin of removed pages.
  - Duplicate inserts a copy after its source, with a numbered
    "Person N" / "Authorized Person N" label or a "(Copy)" label.
  - Remove keeps at least one page.
  - Restore appends the page to the end of the list.
  - The app also keeps a list of extra person numbers, always appending
    `max + 1`.
  - The form renderer reads the person number back out of a label.
- **Rights rows** of the Lynx & API form: the checkbox rule that keeps
  "view only" exclusive of every other right, the blank row a "+" appends,
  and row removal.
- **Suggestion history** (`autocomplete-history`): per-field lists in
  localStorage that are capped at 50, de-duplicated and newest first. Also
  merging them with predefined options, and clearing one field or all fields.
- **Position registry** (`positions`, `usePositions`, the settings panel in
  `App`): a fixed default list plus a custom list that is appended to and
  kept disjoint from the defaults.
- **Selection widgets**: the multi-select's toggle with a cap and its
  case-insensitive filter. The autocomplete's filtering, select, input and
  focus handlers, and its "commit on blur only if changed" rule.
- **Field rules and input handlers** of the two person forms:
  - the zod schemas as validity predicates, with the set of fields in error;
  - the digit-stripping name, city and country filters;
  - the digits-only zip filter;
  - the radio groups that a second click clears;
  - the effect that fills the country from a known city;
  - which autocomplete fields write to the history.

localStorage is a class holding a map from key to a stored entry. An entry is
either a JSON list of strings or text that does not parse. Reading a missing
or unparsable entry gives `[]`, as the source's `try`/`catch` and
`stored ? … : []` do. These inputs become parameters:

- `Date.now()` becomes `now: nat`;
- the `alert` becomes a returned `warned` flag;
- `getCountryForCity` becomes `lookup: string -> Option<string>`;
- zod's e-mail check becomes `isEmail: string -> bool`.

Stateful code is modelled as classes whose methods reassign their fields:

- `FormPageList`, `AppState`, `PositionsHook`, `LynxApiFormState`;
- `AutocompleteField`, `AuthorizedPersonFormState`, `PersonFormState`;
- `LocalStorage`.

Each method is specified by a pure function of the old state, and the
properties are proved about those functions.

## Model

| member | source | states |
|---|---|---|
| Storage.ReadList | src/data/autocomplete-history.ts:7-15 | a stored list reads back as itself; a missing key or a value that fails to parse reads as the empty list |
| Storage.LocalStorage.SetList | src/data/autocomplete-history.ts:31 | `setItem` replaces exactly the entry under its key with the serialised list |
| Storage.LocalStorage.RemoveItem | src/data/autocomplete-history.ts:52 | `removeItem` drops exactly that key |
| Text.Trim | src/data/autocomplete-history.ts:19-23 | `trim()` yields the contiguous slice of the input left between a leading and a trailing run of whitespace, and that slice neither starts nor ends with whitespace |
| Text.TrimPiece | src/data/autocomplete-history.ts:19-23 | the text left after stripping the end of the stripped start is a slice of the input, followed in the input only by whitespace |
| Text.BlankIffAllWhitespace | src/data/autocomplete-history.ts:19 | `!value.trim()` holds exactly when every character is whitespace |
| Text.TrimIdempotent | src/hooks/usePositions.ts:9-10 | trimming a trimmed string changes nothing |
| Text.StripDigits | src/app/components/AuthorizedPersonForm.tsx:195 | `replace(/[0-9]/g, '')` leaves no digit and keeps every non-digit character |
| Text.StripDigitsConcat | src/app/components/AuthorizedPersonForm.tsx:195 | stripping works character by character, so it distributes over concatenation |
| Text.StripDigitsKeepsDigitFree | src/app/components/AuthorizedPersonForm.tsx:195 | text without digits passes through unchanged |
| Text.StripDigitsIdempotent | src/app/components/AuthorizedPersonForm.tsx:195 | stripping twice is stripping once |
| Text.KeepDigits | src/app/components/AuthorizedPersonForm.tsx:325 | `replace(/\D/g, '')` leaves only digits and keeps every digit |
| Text.KeepDigitsConcat | src/app/components/AuthorizedPersonForm.tsx:325 | keeping digits distributes over concatenation |
| Text.KeepDigitsKeepsDigits | src/app/components/AuthorizedPersonForm.tsx:325 | a digit string passes through unchanged |
| Text.ToLower | src/app/components/ui/multi-select.tsx:50 | `toLowerCase()` keeps the length and lowers each character on its own |
| Text.ContainsIffOccurs | src/app/components/ui/multi-select.tsx:50 | `includes` holds exactly when the needle occurs at some index |
| Text.ContainsEmpty | src/app/components/ui/multi-select.tsx:49-51 | every string includes the empty string |
| Text.NatToString | src/hooks/useFormPages.ts:24-27 | a number in a template literal is a non-empty digit string with no leading zero |
| Text.DecimalRoundTrip | src/app/components/FormRenderer.tsx:15 | `parseInt` of a number's decimal rendering gives the number back |
| Text.FirstDigitIndex | src/app/components/FormRenderer.tsx:15 | where `/\d+/` starts to match: no digit before it, a digit at it |
| Text.DigitRunLength | src/app/components/FormRenderer.tsx:15 | how far the greedy `\d+` runs: digits up to it, a non-digit or the end after it |
| Text.FirstDigitRun | src/app/components/FormRenderer.tsx:15 | the `/\d+/` match: absent exactly when there is no digit, otherwise the first maximal run of digits |
| Text.FirstDigitRunAfter | src/app/components/FormRenderer.tsx:15 | digit-free text followed by digits matches exactly those digits |
| Lists.RemoveAll | src/app/components/ui/multi-select.tsx:46 | `filter(item !== x)` drops x entirely, keeps everything else and shortens a list that held x |
| Lists.RemoveAbsent | src/app/App.tsx:440 | filtering out an absent value changes nothing |
| Lists.RemoveAllConcat | src/app/components/ui/multi-select.tsx:46 | filtering distributes over concatenation, so the kept items stay in order |
| Lists.RemoveAllNoDups | src/data/positions.ts:57 | filtering keeps a duplicate-free list duplicate-free |
| Lists.Max | src/app/App.tsx:424 | `Math.max` of a non-empty list is one of its entries and bounds all of them |
| FormPages.FindIndex | src/hooks/useFormPages.ts:14 | `findIndex` gives the first page with the id, or -1 exactly when none has it |
| FormPages.Find | src/hooks/useFormPages.ts:50 | `find` gives a page with the id, or nothing exactly when none has it |
| FormPages.CountOfTypeConcat | src/hooks/useFormPages.ts:18 | the same-type count adds up over concatenation |
| FormPages.WithoutId | src/hooks/useFormPages.ts:54 | `filter(p.id !== id)` keeps exactly the pages with another id |
| FormPages.WithoutIdConcat | src/hooks/useFormPages.ts:54 | that filter distributes over concatenation, so the order is kept |
| FormPages.WithoutAbsentId | src/hooks/useFormPages.ts:54 | filtering out an id no page has changes nothing |
| FormPages.DistinctOnlyAt | src/hooks/useFormPages.ts:50-54 | with distinct ids, a page's id occurs only at its own index |
| FormPages.WithoutIdDropsOne | src/hooks/useFormPages.ts:54 | an id held by a single page is filtered out by removing that page alone |
| FormPages.Duplicated | src/hooks/useFormPages.ts:13-42 | an unknown id changes nothing; otherwise one page of the source's type is inserted at source index + 1, the id is the type, a dash and the clock reading, and the label comes from the same-type count; the other pages keep their order |
| FormPages.DuplicateCounts | src/hooks/useFormPages.ts:18-27 | duplication adds one page of the source's type and none of any other |
| FormPages.DuplicateFreshIdKeepsDistinct | src/hooks/useFormPages.ts:19 | ids stay distinct only if no page already holds an id the clock reading can produce; nothing in the source checks this |
| FormPages.Removed | src/hooks/useFormPages.ts:44-55 | with at most one page nothing changes; otherwise the first page with the id is appended to the bin and every page with the id leaves the list |
| FormPages.WithoutIdLength | src/hooks/useFormPages.ts:54 | with distinct ids, removal drops at most one page |
| FormPages.RemoveKeepsAPage | src/hooks/useFormPages.ts:46-54 | with distinct ids, a non-empty list stays non-empty |
| FormPages.RemoveMovesToBin | src/hooks/useFormPages.ts:50-54 | with distinct ids, the list and the bin together hold the same pages as before |
| FormPages.RemoveWithSharedIdLosesPage | src/hooks/useFormPages.ts:50-54 | when two pages share an id, both leave the list but only the first reaches the bin |
| FormPages.Restored | src/hooks/useFormPages.ts:57-63 | an id not in the bin changes nothing; otherwise the first binned page with it is appended to the list and every binned page with it leaves the bin |
| FormPages.RestoreUndoesRemove | src/hooks/useFormPages.ts:44-63 | remove then restore gives back the same bin and the same pages, with the restored page moved to the end |
| FormPages.FindIndexAppend | src/hooks/useFormPages.ts:58 | a page appended to a list without its id is found at the end |
| FormPages.FormPageList.constructor | src/hooks/useFormPages.ts:9-11 | the list starts as the given pages and the bin starts empty |
| FormPages.FormPageList.DuplicatePage | src/hooks/useFormPages.ts:13-42 | the splice leaves the list as `Duplicated` says and the bin untouched |
| FormPages.FormPageList.RemovePage | src/hooks/useFormPages.ts:44-55 | the user is warned exactly when at most one page is left; the new state is `Removed` of the old |
| FormPages.FormPageList.RestorePage | src/hooks/useFormPages.ts:57-63 | the new state is `Restored` of the old |
| FormRenderer.PersonNumber | src/app/components/FormRenderer.tsx:14-16 | present exactly when the label contains "Person"; 1 when the label has no digit, otherwise the value of the first digit run |
| FormRenderer.RenderForm | src/app/components/FormRenderer.tsx:18-31 | each page type renders exactly its own form; only the two person forms get a number, falling back to the forms' defaults 1 and 2 |
| FormRenderer.PersonLabelMentionsPerson | src/hooks/useFormPages.ts:24-27 | both numbered labels contain "Person" |
| FormRenderer.PersonLabelRoundTrip | src/app/components/FormRenderer.tsx:14-15 | "Authorized Person N" and "Person N" parse back to N |
| FormRenderer.DuplicatedPersonRendersNextNumber | src/hooks/useFormPages.ts:18-27 | a duplicated person page renders with the new count of pages of its type |
| App.InitialPages | src/app/App.tsx:25-30 | four pages with distinct ids, and the first is the authorized page `auth-1` |
| App.InitialPagesHostOnce | src/app/App.tsx:422 | of the starting pages only the first hosts the extra persons, and it renders as person 1 |
| App.NextPersonNumber | src/app/App.tsx:423-425 | 2 for an empty list; otherwise one past the largest entry, so above every entry |
| App.AddPersonKeepsValid | src/app/App.tsx:459 | appending the next number keeps the list strictly increasing and from 2 on |
| App.RemovePersonKeepsValid | src/app/App.tsx:440 | filtering out a number keeps the list strictly increasing and from 2 on |
| App.PageBlock | src/app/App.tsx:429-451 | a page renders its own form; under the host page only, one person form per extra person follows, in list order |
| App.AppState.constructor | src/app/App.tsx:23-32 | the starting pages, an empty bin, no extra persons, the stored custom positions and an empty input |
| App.AppState.HandleDuplicatePage | src/app/App.tsx:47-76 | the same rule as the hook's `duplicatePage` |
| App.AppState.HandleRemovePage | src/app/App.tsx:78-89 | the same rule and warning as the hook's `removePage` |
| App.AppState.HandleRestorePage | src/app/App.tsx:91-97 | the same rule as the hook's `restorePage` |
| App.AppState.AddPerson | src/app/App.tsx:459 | appends the next person number and keeps a valid list valid |
| App.AppState.RemovePerson | src/app/App.tsx:440 | filters the number out and keeps a valid list valid |
| App.AppState.HandleAddPosition | src/app/App.tsx:34-40 | non-blank trimmed text that the registry does not offer is appended to the custom list under its key, with every other storage key unchanged; the list is re-read and the input cleared; otherwise storage, the list and the input are untouched |
| App.AppState.HandleRemovePosition | src/app/App.tsx:42-45 | the registry drops the position (storage becomes `StoredAfterRemove`, no other key changes) and the custom list is re-read |
| AutocompleteHistory.HistoryKeyInjective | src/data/autocomplete-history.ts:4 | different fields have different storage keys |
| AutocompleteHistory.WriteTouchesOnlyItsField | src/data/autocomplete-history.ts:31 | writing one field's history leaves every other field's read unchanged |
| AutocompleteHistory.Committed | src/data/autocomplete-history.ts:18-35 | a blank value or one whose trimmed form is already present changes nothing; otherwise the trimmed value goes first, followed by a prefix of the old history, at most 50 in all |
| AutocompleteHistory.CommitKeepsNoDups | src/data/autocomplete-history.ts:26-29 | a duplicate-free history stays duplicate-free |
| AutocompleteHistory.CommitBounded | src/data/autocomplete-history.ts:29 | a commit never grows a history past 50, or past its old length if that was already longer |
| AutocompleteHistory.CommitIdempotent | src/data/autocomplete-history.ts:26 | committing the same value twice is committing it once |
| AutocompleteHistory.CommitFresh | src/data/autocomplete-history.ts:29 | a trimmed, new value is put in front and the result is cut to 50 |
| AutocompleteHistory.CommitAllKeepsLatest | src/data/autocomplete-history.ts:18-35 | committing distinct trimmed values one by one from an empty history leaves the latest 50, newest first |
| AutocompleteHistory.AddToAutocompleteHistory | src/data/autocomplete-history.ts:18-35 | blank or known values write nothing; otherwise exactly the field's key is rewritten with `Committed` |
| AutocompleteHistory.NotPredefined | src/data/autocomplete-history.ts:43 | keeps exactly the history entries not among the predefined options |
| AutocompleteHistory.NotPredefinedSingle | src/data/autocomplete-history.ts:43 | a lone entry is kept exactly when it is not predefined |
| AutocompleteHistory.NotPredefinedConcat | src/data/autocomplete-history.ts:43 | the filter works entry by entry, so it distributes over concatenation and keeps the history's order |
| AutocompleteHistory.NotPredefinedNoDups | src/data/autocomplete-history.ts:43 | that filter keeps a duplicate-free history duplicate-free |
| AutocompleteHistory.MergeOptions | src/data/autocomplete-history.ts:39-47 | the predefined options are a suffix; everything before them is exactly the filtered history, in history order; the members are exactly the history's and the options' |
| AutocompleteHistory.MergeOptionsNoDups | src/data/autocomplete-history.ts:39-47 | merging duplicate-free lists gives a duplicate-free list |
| AutocompleteHistory.ClearAutocompleteHistory | src/data/autocomplete-history.ts:50-56 | removes exactly the field's key, so it reads as empty |
| AutocompleteHistory.ClearAllAutocompleteHistory | src/data/autocomplete-history.ts:59-70 | the loop removes exactly the prefixed keys and keeps every other entry as it was, so every field reads as empty |
| Positions.DefaultsDistinct | src/data/positions.ts:2-17 | fourteen default positions, none repeated |
| Positions.AllPositions | src/data/positions.ts:40-43 | the defaults come first, then the custom list |
| Positions.UnreadableCustomIsEmpty | src/data/positions.ts:20-28 | a missing or unparsable custom list reads as empty, leaving only the defaults |
| Positions.WithCustomPosition | src/data/positions.ts:46-52 | a custom or default position changes nothing; any other is appended |
| Positions.PositionToAdd | src/hooks/usePositions.ts:9-10 | the trimmed text is accepted exactly when it is non-empty and not already offered |
| Positions.AcceptedIsAppended | src/app/App.tsx:35-36 | accepted text is non-empty and registering it appends it to the custom list |
| Positions.AddMakesAvailable | src/data/positions.ts:46-52 | after an add the position is offered, and everything offered before still is |
| Positions.AddIdempotent | src/data/positions.ts:46-52 | adding twice is adding once |
| Positions.AddKeepsCustomValid | src/data/positions.ts:48 | the custom list stays duplicate-free and disjoint from the defaults |
| Positions.WithoutCustomPosition | src/data/positions.ts:55-59 | exactly the other custom entries remain |
| Positions.RemoveKeepsCustomValid | src/data/positions.ts:57 | removal keeps the custom list duplicate-free and disjoint from the defaults |
| Positions.RemoveNonCustomUnchanged | src/data/positions.ts:55-59 | removing a default or unknown entry changes neither the custom list nor the offered list |
| Positions.RemoveUndoesAdd | src/data/positions.ts:46-59 | adding a position and then removing it gives the same custom list as removing it alone |
| Positions.RemoveAfterFreshAdd | src/data/positions.ts:46-59 | adding a position that is neither custom nor default and then removing it gives back the custom list unchanged |
| Positions.StoredAfterAdd | src/data/positions.ts:46-52 | after an add the custom key reads as `WithCustomPosition` of what it read before, and every other key keeps its value |
| Positions.StoredAfterRemove | src/data/positions.ts:55-59 | after a removal the custom key holds a parsable list reading as `WithoutCustomPosition` of what it read before, and every other key keeps its value |
| Positions.AddCustomPosition | src/data/positions.ts:46-52 | storage becomes `StoredAfterAdd` of the old storage: the custom list gains the position unless it is custom or default, and no other key changes |
| Positions.RemoveCustomPosition | src/data/positions.ts:55-59 | storage becomes `StoredAfterRemove` of the old storage: the custom key is rewritten without the position, and no other key changes |
| UsePositions.PositionsHook.constructor | src/hooks/usePositions.ts:5-6 | both cached lists start as storage's |
| UsePositions.PositionsHook.UpdatePositions | src/hooks/usePositions.ts:20-23 | both cached lists are re-read, so the cache matches storage |
| UsePositions.PositionsHook.AddPosition | src/hooks/usePositions.ts:8-13 | text whose trim is blank or already cached changes nothing at all; otherwise storage becomes `StoredAfterAdd` with the trimmed text (no other key changes) and the cache is refreshed |
| UsePositions.PositionsHook.RemovePosition | src/hooks/usePositions.ts:15-18 | always removes from the registry (storage becomes `StoredAfterRemove`, no other key changes) and refreshes the cache |
| LynxApiForm.ConfigsHaveViewOnly | src/app/components/LynxAPIForm.tsx:11-25 | both rights tables have a "view only" key |
| LynxApiForm.AllFalse | src/app/components/LynxAPIForm.tsx:235-238 | the `reduce` yields exactly the configured keys, all false |
| LynxApiForm.NewRow | src/app/components/LynxAPIForm.tsx:226-241 | `createNewItem`: the id is the group name, a dash and the clock reading; the text fields are blank; the rights are exactly the group's keys, all false |
| LynxApiForm.NewRowValid | src/app/components/LynxAPIForm.tsx:226-241 | a new row holds its group's keys and respects "view only" exclusivity |
| LynxApiForm.ClearOthers | src/app/components/LynxAPIForm.tsx:206-210 | every configured key except "view only" becomes false; the others are kept |
| LynxApiForm.ToggledEffect | src/app/components/LynxAPIForm.tsx:203-223 | the clicked key ends as `checked`; checking "view only" clears every other key; checking another clears "view only" and leaves the rest; unchecking changes only the clicked key |
| LynxApiForm.ToggledExclusive | src/app/components/LynxAPIForm.tsx:203-223 | every change keeps "view only ⇒ all others false", and every checking change establishes it |
| LynxApiForm.ToggledRowValid | src/app/components/LynxAPIForm.tsx:203-223 | a toggled row still holds exactly its group's keys and stays exclusive |
| LynxApiForm.ReplaceRowValid | src/app/components/LynxAPIForm.tsx:201 | replacing one row by a valid row keeps every group valid |
| LynxApiForm.WithRights | src/app/components/LynxAPIForm.tsx:201 | a write to the path `field.name[index].rights` changes that row's rights alone; other rows and groups are untouched |
| LynxApiForm.WithRightsTwice | src/app/components/LynxAPIForm.tsx:206-211 | two writes to the same row's rights keep only the second |
| LynxApiForm.WithRightsSame | src/app/components/LynxAPIForm.tsx:201 | writing back a row's own rights changes nothing |
| LynxApiForm.LynxApiFormState.constructor | src/app/components/LynxAPIForm.tsx:28-36 | all six groups start empty, and the form is valid |
| LynxApiForm.LynxApiFormState.SetRight | src/app/components/LynxAPIForm.tsx:208 | one `setFieldValue` writes one key of one row's rights |
| LynxApiForm.LynxApiFormState.ClearOtherRights | src/app/components/LynxAPIForm.tsx:206-210 | the `forEach` loop leaves the row's rights as `ClearOthers` says |
| LynxApiForm.LynxApiFormState.HandleCheckboxChange | src/app/components/LynxAPIForm.tsx:196-224 | only the row at the index changes, as `Toggled` says, and the form stays valid |
| LynxApiForm.LynxApiFormState.PushRow | src/app/components/LynxAPIForm.tsx:259 | the new blank row is appended at the end of its group, and the form stays valid |
| LynxApiForm.LynxApiFormState.RemoveRow | src/app/components/LynxAPIForm.tsx:390 | the row at the index is removed, the others keep their order, and the form stays valid |
| MultiSelect.Select | src/app/components/ui/multi-select.tsx:29-43 | a selected item is removed entirely; an absent one is appended unless the cap is non-zero and the selection's length has reached it (so a negative cap blocks every add), in which case nothing changes |
| MultiSelect.Deselect | src/app/components/ui/multi-select.tsx:45-47 | the item is gone and every other item stays |
| MultiSelect.SelectWithinCap | src/app/components/ui/multi-select.tsx:37-42 | with a positive cap, a selection within the cap stays within it |
| MultiSelect.SelectKeepsNoDups | src/app/components/ui/multi-select.tsx:29-43 | a duplicate-free selection stays duplicate-free |
| MultiSelect.SelectTwiceUndoes | src/app/components/ui/multi-select.tsx:29-43 | selecting an absent item twice below the cap gives back the original list |
| MultiSelect.DisabledIffNoEffect | src/app/components/ui/multi-select.tsx:126-127 | an option is disabled exactly when clicking it would change nothing |
| MultiSelect.FilterOptions | src/app/components/ui/multi-select.tsx:49-51 | keeps exactly the options that contain the query, ignoring case |
| MultiSelect.EmptyQueryKeepsAll | src/app/components/ui/multi-select.tsx:49-51 | an empty query keeps every option, in order |
| MultiSelect.FilterOptionsConcat | src/app/components/ui/multi-select.tsx:49-51 | filtering distributes over concatenation, so the kept options stay in order |
| Autocomplete.ShownOptions | src/app/components/ui/autocomplete.tsx:33-42 | every option for an empty value; otherwise exactly the options containing the value, ignoring case |
| Autocomplete.ShownIsFiltered | src/app/components/ui/autocomplete.tsx:33-42 | the shown list is the multi-select's filter applied to the value |
| Autocomplete.ApplyFilter | src/app/components/ui/autocomplete.tsx:67 | the typed text goes through `filterInput` when one is given, and is unchanged otherwise |
| Autocomplete.BlurCommit | src/app/components/ui/autocomplete.tsx:80-82 | a blur commits exactly when there is a handler and the value is non-empty and differs from the remembered one |
| Autocomplete.SecondBlurCommitsNothing | src/app/components/ui/autocomplete.tsx:83 | once the value is remembered, blurring again commits nothing |
| Autocomplete.AutocompleteField.constructor | src/app/components/ui/autocomplete.tsx:28-42 | the remembered value starts as the initial value, closed, with the shown options filtered |
| Autocomplete.AutocompleteField.Refilter | src/app/components/ui/autocomplete.tsx:33-42 | the effect sets the shown options to `ShownOptions` |
| Autocomplete.AutocompleteField.HandleSelect | src/app/components/ui/autocomplete.tsx:57-63 | the value becomes the option and the list closes; the option is committed whether or not it changed; the remembered value is kept |
| Autocomplete.AutocompleteField.HandleInputChange | src/app/components/ui/autocomplete.tsx:65-70 | the value becomes the filtered text and the list opens |
| Autocomplete.AutocompleteField.HandleFocus | src/app/components/ui/autocomplete.tsx:72-74 | focus opens the list |
| Autocomplete.AutocompleteField.HandleBlur | src/app/components/ui/autocomplete.tsx:76-87 | commits as `BlurCommit` says, then remembers the current value |
| Schemas.PersonErrorsEmptyIffValid | src/lib/schemas/PersonSchema.ts:3-22 | a person record is accepted exactly when no field reports an error |
| Schemas.AuthorizedPersonErrorsEmptyIffValid | src/lib/schemas/AuthorizedPersonSchema.ts:3-23 | an authorized-person record is accepted exactly when no field reports an error |
| Schemas.AsPerson | src/lib/schemas/AuthorizedPersonSchema.ts:3-23 | an authorized-person record as a person record keeps its names, nationalities, id and zip |
| Schemas.PersonSchemaIsAuthorizedPlusFormats | src/lib/schemas/PersonSchema.ts:3-22 | the person schema is the authorized schema without the client name, plus the digit, e-mail and phone formats |
| PersonInputs.StripDigitsFilterNoDigits | src/app/components/AuthorizedPersonForm.tsx:350 | the city and country filters leave no digit |
| PersonInputs.RadioClick | src/app/components/AuthorizedPersonForm.tsx:139-177 | clicking the chosen option clears the group; clicking another chooses it |
| PersonInputs.RadioClickStaysInEnum | src/app/components/AuthorizedPersonForm.tsx:139-177 | a click never takes a group outside an enum that includes '' |
| PersonInputs.RadioDoubleClickClears | src/app/components/PersonForm.tsx:100-130 | two clicks on one option from a cleared group clear it again |
| PersonInputs.CountryForCity | src/app/components/AuthorizedPersonForm.tsx:68-75 | a country is written exactly when the city is non-empty and the lookup gives a non-empty country, and it is that country |
| PersonInputs.CommitToHistory | src/app/components/AuthorizedPersonForm.tsx:306 | a committed value goes to that field's history; no commit writes nothing |
| AuthorizedPersonForm.Defaults | src/app/components/AuthorizedPersonForm.tsx:31-49 | every text field is empty and there is no nationality |
| AuthorizedPersonForm.DefaultsRejected | src/app/components/AuthorizedPersonForm.tsx:31-49 | the untouched form fails on exactly the client name, both names, the date of birth and the nationalities |
| AuthorizedPersonForm.AuthorizedPersonFormState.constructor | src/app/components/AuthorizedPersonForm.tsx:21-49 | the form starts with its defaults and its person number |
| AuthorizedPersonForm.AuthorizedPersonFormState.InputFirstName | src/app/components/AuthorizedPersonForm.tsx:193-197 | the first name becomes the typed text without digits |
| AuthorizedPersonForm.AuthorizedPersonFormState.InputLastName | src/app/components/AuthorizedPersonForm.tsx:211-215 | the last name becomes the typed text without digits |
| AuthorizedPersonForm.AuthorizedPersonFormState.InputZipCode | src/app/components/AuthorizedPersonForm.tsx:323-327 | the zip becomes the typed digits only |
| AuthorizedPersonForm.AuthorizedPersonFormState.ClickNationality | src/app/components/AuthorizedPersonForm.tsx:261-274 | a click toggles the country with a cap of three, and at most three stay chosen |
| AuthorizedPersonForm.AuthorizedPersonFormState.RemoveNationality | src/app/components/AuthorizedPersonForm.tsx:261-274 | the country's remove button drops it |
| AuthorizedPersonForm.AuthorizedPersonFormState.ClickAction | src/app/components/AuthorizedPersonForm.tsx:139-177 | the action follows `RadioClick` and stays a valid enum value |
| AuthorizedPersonForm.AuthorizedPersonFormState.ClickSignaturePower | src/app/components/AuthorizedPersonForm.tsx:467-506 | the signature power follows `RadioClick` and stays a valid enum value |
| AuthorizedPersonForm.AuthorizedPersonFormState.ChangeCity | src/app/components/AuthorizedPersonForm.tsx:68-75 | writing the city it already holds changes nothing; a new city is written and the effect then overwrites the country only as `CountryForCity` says |
| AuthorizedPersonForm.AuthorizedPersonFormState.ChangeCountry | src/app/components/AuthorizedPersonForm.tsx:362-377 | the country is written |
| AuthorizedPersonForm.AuthorizedPersonFormState.AutocompleteFor | src/app/components/AuthorizedPersonForm.tsx:296-454 | street, city and country commit to the history and position does not; only city and country strip digits |
| PersonForm.Defaults | src/app/components/PersonForm.tsx:31-48 | every field is present and empty, with no nationality |
| PersonForm.DefaultsRejected | src/app/components/PersonForm.tsx:31-48 | the untouched form fails on exactly both names, the date of birth and the nationalities |
| PersonForm.PersonFormState.constructor | src/app/components/PersonForm.tsx:21-48 | the form starts with its defaults and its person number |
| PersonForm.PersonFormState.InputFirstName | src/app/components/PersonForm.tsx:149-153 | the first name becomes the typed text without digits |
| PersonForm.PersonFormState.InputLastName | src/app/components/PersonForm.tsx:167-171 | the last name becomes the typed text without digits |
| PersonForm.PersonFormState.InputZipCode | src/app/components/PersonForm.tsx:299-303 | the zip becomes the typed digits, so it passes the schema's zip rule |
| PersonForm.PersonFormState.ClickNationality | src/app/components/PersonForm.tsx:217-231 | a click toggles the country with a cap of three, and at most three stay chosen |
| PersonForm.PersonFormState.RemoveNationality | src/app/components/PersonForm.tsx:217-231 | the country's remove button drops it |
| PersonForm.PersonFormState.ClickAction | src/app/components/PersonForm.tsx:100-130 | the action follows `RadioClick` and passes the schema's action rule |
| PersonForm.PersonFormState.ClickSignaturePower | src/app/components/PersonForm.tsx:413-441 | the signature power follows `RadioClick` and passes the schema's rule |
| PersonForm.PersonFormState.ChangeCity | src/app/components/PersonForm.tsx:65-72 | writing the city it already holds changes nothing; a new city is written and the effect then overwrites the country only as `CountryForCity` says |
| PersonForm.PersonFormState.ChangeCountry | src/app/components/PersonForm.tsx:319-329 | the country is written |
| PersonForm.PersonFormState.AutocompleteFor | src/app/components/PersonForm.tsx:252-402 | street, city, country and position all commit to the history; only city and country strip digits |

## Left out

- Printing and PDF export (`App.tsx` print and export handlers, `usePdfExport`): DOM queries, canvas capture and floating-point page layout.
- JSON serialisation: an entry is either a list of strings or unparsable. Write failures (a full or disabled storage) are not modelled.
- `Date.now()`: it is the parameter `now`. Ids built from it are not assumed unique, and `DuplicateFreshIdKeepsDistinct` states what uniqueness needs.
- The location data (`getCountryForCity`, `getCitiesForCountry`, country and street lists) is not part of this model. The city lookup is the parameter `lookup`, and the option lists the forms build from the other data are not modelled.
- The e-mail check of zod is the parameter `isEmail`.
- Form-library plumbing: `register`, `Controller`, `pushValue`/`removeValue` are taken as plain field writes, append and delete-at-index. When validation runs (`onChange` versus `onBlur` modes) is not modelled.
- Fields written only through `register` with no handler (client name, date of birth, id document, street text, e-mail, phones, signature) have no method; they are plain field writes.
- The option lists passed to the autocompletes (`useMemo` over `mergeOptionsWithHistory` and `getAllPositions`): the merge itself is modelled, its memoised wiring is not.
- The autocomplete's 200 ms blur delay and the click-outside listener: a blur is one atomic event, and closing on an outside click is not modelled.
- A radio click (the group's change followed by the option's own click handler) is one atomic event.
- `Text.ToLower`: `toLowerCase` is modelled for ASCII letters only; other characters are left unchanged.
- `FormRenderer.PersonNumber`: `parseInt` is exact here; JavaScript loses precision past 2^53, which no generated label reaches.
- `App.NextPersonNumber`: its bound "at least 2" holds only for lists whose entries are from 2 on, which is what `AddPersonKeepsValid` keeps; the function itself follows `Math.max` for any list.
- The wallet and bank account form, the scope of authority form, the signature canvas, the settings page's rendering, the radio and field wrappers and all animation and styling: rendering only.
- The Lynx & API schema, wallet and scope schemas: type shapes only, with no rules.
