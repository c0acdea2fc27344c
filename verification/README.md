# Contact form controller

This project models the form controller of a React component. The form registers
a person: a title, a first name, a last name and an ordered list of contacts. Each
contact has a type and a value. The type is "Mobile number", "Phone number" or
"Email". The component keeps three state variables:

- the person;
- a draft contact being edited;
- an error record keyed by field name.

Three handlers change that state. `onChange` types into a named input. `onSelect`
chooses a contact type. `onSubmit` is the Add button: it validates the draft and
either appends it to the contact list or records an error message.

The model is functional. Each handler is a pure function from the state snapshot
at the start of the event to the list of setter calls it makes
(`Handlers.ChangeCalls`, `Handlers.SelectCalls`, `Handlers.SubmitCalls`).
`FormState.Commit` then applies those calls in order, as React does after the
handler returns. Each setter replaces its variable wholesale. Every value is
computed from the same snapshot, so for each variable the last call wins.
`FormState.Commit` states this in terms of `FormState.LastWrite`, an independent
search from the end of the call list.

Files:

- `js_string.dfy` (module `JsString`): the JavaScript `length` of a string, counted
  in UTF-16 code units.
- `form_state.dfy` (module `FormState`): the data model, the constants, setter
  calls and `Commit`.
- `handlers.dfy` (module `Handlers`): the validation rules, the three handlers,
  and corrected versions of `onSelect` and `onSubmit`.
- `properties.dfy` (module `Properties`): the state invariant, sessions of events,
  and lemmas over them.

Three behaviours of the code stand out. The model keeps them as written:

- `onSelect` calls `resetError` for both contact fields (src/App.tsx:112-113).
  Both calls spread the same snapshot, so only the second, the contact-type reset,
  reaches the state. A stale contact-value message survives a change of type.
- `onSubmit` has a separate message for each check (src/App.tsx:145-177). Each
  failing check's `setError` spreads the same snapshot, so only the last failing
  check's message reaches the state.
- The header comment marks the contact value mandatory (src/App.tsx:16). The code
  checks the value only for the three listed types, so a draft with any other
  non-empty type is stored even with an empty value. Such a type cannot be chosen
  in the selector, but the handler does not rule it out.

## Model

| member | source | states |
|---|---|---|
| JsString.Length | src/App.tsx:171 | A string's `length` is at least its character count and at most twice that. It is zero exactly for the empty string. |
| JsString.LengthIsCharCount | src/App.tsx:171 | `length` equals the character count exactly when every character lies in the Basic Multilingual Plane. |
| FormState.LastWrite | src/App.tsx:147-177 | Returns the index of the last setter call for a variable, with no later call setting that variable, or -1 if no call sets it. |
| FormState.Commit | src/App.tsx:147-189 | After a handler's setter calls are applied in order, each state variable holds the value of the last call that set it. A variable that no call sets keeps its snapshot value. |
| Handlers.ResetError | src/App.tsx:103-108 | Clears the named field's error and adds the field as a key if it is missing. Every other field's error is kept from the snapshot. |
| Handlers.OnChange | src/App.tsx:65-101 | For title, firstName and lastName, only that person field changes; the contacts and the draft are kept. For contactValue, only the draft value changes and the draft type is kept. For any other name, person and draft are unchanged. In every case the error record is the snapshot with that name cleared. |
| Handlers.OnSelect | src/App.tsx:110-118 | The draft type becomes the chosen type. The draft value and the person are unchanged. The error record is the snapshot with only contactType cleared. |
| Handlers.OnSubmit | src/App.tsx:139-190 | The draft is appended iff the first name is non-empty, the type is non-empty and the value passes its type's check. On success, the old contacts are a prefix of the new list, the draft is the last entry and the draft resets to empty. On failure, person and draft are unchanged. The error record is the snapshot with one key overwritten: the key of the last failing check, in the order firstName, contactType, contactValue. |
| Handlers.OnSelectFixed | src/App.tsx:112-113 | Corrected onSelect: clears both the contactType and contactValue errors and keeps every other error. Person and draft change as in onSelect. |
| Handlers.OnSubmitFixed | src/App.tsx:144-178 | Corrected onSubmit: every failing check's message is recorded, and every passing check leaves its field's error unchanged. Appending and the draft reset behave as in onSubmit. |
| Properties.InitialInvariant | src/App.tsx:50-63 | The mounted form satisfies the invariant: it stores no contact that fails its check, and its error record has the three displayed keys. |
| Properties.StepContacts | src/App.tsx:180-184 | An event changes the contact list only when it is an accepted submit, and then only by appending the draft. |
| Properties.StepPreservesInvariant | src/App.tsx:154-183 | Every handler keeps the invariant. Each stored contact has a non-empty type. A Mobile or Phone value has length 10. An Email value satisfies the email predicate. The error record keeps its three keys. |
| Properties.RunPreservesInvariant | src/App.tsx:142-189 | The invariant holds after any sequence of events that starts in a state satisfying it. This holds for the code as written and for the corrected handlers. |
| Properties.ReachableContactsValid | src/App.tsx:50-63 | Every contact in any state reachable from the mounted form has a type and a value that passes that type's check. |
| Properties.ContactsAppendOnly | src/App.tsx:181-184 | Across any sequence of events, the earlier contact list stays, in order, as a prefix of the later one. |
| Properties.PhoneCheckIgnoresCharacters | src/App.tsx:168-172 | The mobile and phone check looks only at length. Any ten Basic Multilingual Plane characters are stored, digits or not. |
| Properties.EmailCheckOnlyForEmail | src/App.tsx:162-178 | For any type other than Email, the result of Add does not depend on the email predicate. |
| Properties.MissingTypeReported | src/App.tsx:153-160 | With no type selected, Add stores nothing and always records the contact-type message. |
| Properties.EmailSession | src/App.tsx:139-189 | Entering a first name, choosing Email, typing a valid address and pressing Add stores that email as the only contact and clears the draft. |
| Properties.MobileLengthSession | src/App.tsx:168-177 | A nine-digit mobile number is rejected with the phone message. A ten-digit one is stored. |
| Properties.UnlistedTypeStored | src/App.tsx:162-180 | With a first name, a draft whose type is non-empty and not one of the three listed types is stored whatever its value, because neither value check applies to it. |
| Properties.UnlistedTypeSkipsValueCheck | src/App.tsx:162-180 | Example: first name "A" with the draft ("Fax", "") is stored although its value is empty. |
| Properties.SelectKeepsValueError | src/App.tsx:110-118 | As written, choosing a new type leaves a stale contact-value message in place. |
| Properties.StaleEmailErrorOutlivesAdd | src/App.tsx:110-118 | As written, the email message recorded when Add rejects the ten-digit value "9000000000" as an email survives a change of type to Mobile number and the successful Add that follows. |
| Properties.SubmitDropsFirstNameError | src/App.tsx:144-160 | As written, pressing Add on the empty form records the contact-type message but not the first-name message. |
| Properties.FixedSubmitAgrees | src/App.tsx:144-189 | The corrected onSubmit always leaves person and draft as onSubmit does, and when at most one check fails it gives the same state as onSubmit. |
| Properties.FixedSelectAgrees | src/App.tsx:110-118 | The corrected onSelect differs from onSelect only in also clearing the contactValue error. |
| Properties.FixedHandlersReportAll | src/App.tsx:110-160 | The corrected handlers record both messages on the empty form, and choosing a type clears a stale contact-value message. |

## Left out

- validateEmail: the regular expression at src/App.tsx:121 is not modelled. The email check is a parameter `validEmail: string -> bool` of every member that needs it. Every property holds for any email predicate, except that `Properties.EmailSession` assumes the predicate accepts "abc@gmail.com" and `Properties.StaleEmailErrorOutlivesAdd` assumes it rejects "9000000000"; the regular expression gives both answers.
- JsString.Length: strings holding lone UTF-16 surrogates cannot be written as Dafny strings, which are sequences of Unicode scalar values.
- Rendering, `TextInput`, class names and placeholders: presentation only.
- `getContactValueType` and the browser's filtering of `type="number"` and `type="email"` inputs: that behaviour belongs to the browser, not to this code.
- `console.log` and `e.preventDefault()`: they do not affect the state.
- `title` and `lastName` are optional in `PersonType`. The component always sets them to strings, so the model uses strings that start empty.
- React's scheduling of re-renders: each event is handled completely, from the snapshot left by the previous event.
- src/styles.tsx: styling only.

## Findings

| source | as written | input that shows it | evidently intended | confidence | as-written member | corrected member |
|---|---|---|---|---|---|---|
| src/App.tsx:112-113 | Both `resetError` calls spread the same snapshot, so the second call discards the first and only the contact-type error is cleared. | An error record whose contactValue is "Not a valid phone number", then choosing Email. | Choosing a type clears both contact errors. | not executed; proved about the model | Properties.SelectKeepsValueError | Handlers.OnSelectFixed |
| src/App.tsx:147-177 | Each failing check's `setError` spreads the snapshot, so only the last failing check's message is kept. | Pressing Add on the empty form: the first name and the type are both missing, but only the type message is shown. | Every failing check's message is shown. | not executed; proved about the model | Properties.SubmitDropsFirstNameError | Handlers.OnSubmitFixed |

Sessions can use either set of handlers (`Properties.Semantics`). The invariant and append-only lemmas are proved for both.
