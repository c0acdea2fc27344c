/** The event handlers of the contact form.

    Each handler is modelled in two steps, as the component runs it: the list
    of setter calls it makes, every value computed from the pre-event snapshot
    `s`, and then `Commit`, React's in-order application of those calls. The
    email check is the predicate `validEmail`, a parameter: the pattern it tests
    is not part of this model.
 */
module Handlers {
  import opened FormState
  import JsString

  /** The length a mobile or phone number must have, in UTF-16 code units. */
  const PHONE_LENGTH: nat := 10

  /** True when `kind` is one of the two phone-like contact types. */
  predicate IsPhoneKind(kind: string) {
    kind == MOBILE_NUMBER || kind == PHONE_NUMBER
  }

  /** The rule a contact value must obey for its type: an email must satisfy
      `validEmail`, a mobile or phone number must be exactly ten code units
      long whatever its characters, and any other type puts no constraint on
      the value. */
  predicate ValueValid(c: Contact, validEmail: string -> bool) {
    if c.kind == EMAIL then validEmail(c.value)
    else if IsPhoneKind(c.kind) then JsString.Length(c.value) == PHONE_LENGTH
    else true
  }

  /** The conditions under which the Add button stores the draft contact. */
  predicate Accepts(s: Form, validEmail: string -> bool) {
    s.person.firstName != "" && s.draft.kind != "" && ValueValid(s.draft, validEmail)
  }

  /** The message recorded when a value of type `kind` fails its check. */
  function ValueMessage(kind: string): string {
    if kind == EMAIL then INVALID_EMAIL else INVALID_PHONE
  }

  /** `resetError(field)`: a new error record spread from the snapshot, with
      `field` cleared. */
  function ResetError(s: Form, field: string): (c: SetterCall)
    ensures c.SetError?
    ensures c.errors.Keys == s.errors.Keys + {field}
    ensures ErrorOf(c.errors, field) == ""
    ensures forall f :: f != field ==> ErrorOf(c.errors, f) == ErrorOf(s.errors, f)
  {
    SetError(s.errors[field := ""])
  }

  /** The setter calls `onChange` makes for the input named `name`. */
  function ChangeCalls(s: Form, name: string, value: string): seq<SetterCall> {
    [ResetError(s, name)]
    + (if name == "title" then [SetPerson(s.person.(title := value))]
       else if name == FIRST_NAME then [SetPerson(s.person.(firstName := value))]
       else if name == "lastName" then [SetPerson(s.person.(lastName := value))]
       else if name == CONTACT_VALUE then [SetContact(s.draft.(value := value))]
       else [])
  }

  /** `onChange`: typing `value` into the input named `name`. */
  function OnChange(s: Form, name: string, value: string): (r: Form)
    ensures r.errors == s.errors[name := ""]
    ensures name == "title" ==> r.person == s.person.(title := value) && r.draft == s.draft
    ensures name == FIRST_NAME ==> r.person == s.person.(firstName := value) && r.draft == s.draft
    ensures name == "lastName" ==> r.person == s.person.(lastName := value) && r.draft == s.draft
    ensures name == CONTACT_VALUE ==> r.person == s.person && r.draft == Contact(s.draft.kind, value)
    ensures name !in {"title", FIRST_NAME, "lastName", CONTACT_VALUE} ==>
              r.person == s.person && r.draft == s.draft
  {
    Commit(s, ChangeCalls(s, name, value))
  }

  /** The setter calls `onSelect` makes when the type selector changes to `kind`. */
  function SelectCalls(s: Form, kind: string): seq<SetterCall> {
    [ResetError(s, CONTACT_VALUE), ResetError(s, CONTACT_TYPE), SetContact(s.draft.(kind := kind))]
  }

  /** `onSelect`: choosing `kind` in the contact-type selector. Both resets
      spread the same snapshot, so only the second, the contact-type reset,
      reaches the state. */
  function OnSelect(s: Form, kind: string): (r: Form)
    ensures r.person == s.person
    ensures r.draft == Contact(kind, s.draft.value)
    ensures r.errors == s.errors[CONTACT_TYPE := ""]
  {
    Commit(s, SelectCalls(s, kind))
  }

  /** The setter calls `onSubmit` makes, in the order the code makes them:
      one per failing check, then, when none failed, the append and the reset
      of the draft. The two value checks are exclusive alternatives. */
  function SubmitCalls(s: Form, validEmail: string -> bool): seq<SetterCall> {
    var nameCheck :=
      if s.person.firstName == "" then [SetError(s.errors[FIRST_NAME := FIRST_NAME_REQUIRED])] else [];
    var typeCheck :=
      if s.draft.kind == "" then [SetError(s.errors[CONTACT_TYPE := CONTACT_TYPE_REQUIRED])] else [];
    var valueCheck :=
      if s.draft.kind == EMAIL && !validEmail(s.draft.value) then
        [SetError(s.errors[CONTACT_VALUE := INVALID_EMAIL])]
      else if IsPhoneKind(s.draft.kind) && JsString.Length(s.draft.value) != PHONE_LENGTH then
        [SetError(s.errors[CONTACT_VALUE := INVALID_PHONE])]
      else [];
    var hasError := nameCheck != [] || typeCheck != [] || valueCheck != [];
    var add :=
      if !hasError then [SetPerson(s.person.(contacts := s.person.contacts + [s.draft])), SetContact(EMPTY_CONTACT)]
      else [];
    nameCheck + typeCheck + valueCheck + add
  }

  /** `onSubmit`: pressing Add. On success the draft becomes the last contact
      and the draft is cleared; on failure person and draft stay as they were
      and the error record is the snapshot with a single key overwritten, the
      key of the last failing check in the order first name, contact type,
      contact value. */
  function OnSubmit(s: Form, validEmail: string -> bool): (r: Form)
    ensures Accepts(s, validEmail) ==>
              && r.person == s.person.(contacts := s.person.contacts + [s.draft])
              && r.draft == EMPTY_CONTACT
              && r.errors == s.errors
    ensures !Accepts(s, validEmail) ==> r.person == s.person && r.draft == s.draft
    ensures !ValueValid(s.draft, validEmail) ==>
              r.errors == s.errors[CONTACT_VALUE := ValueMessage(s.draft.kind)]
    ensures ValueValid(s.draft, validEmail) && s.draft.kind == "" ==>
              r.errors == s.errors[CONTACT_TYPE := CONTACT_TYPE_REQUIRED]
    ensures ValueValid(s.draft, validEmail) && s.draft.kind != "" && s.person.firstName == "" ==>
              r.errors == s.errors[FIRST_NAME := FIRST_NAME_REQUIRED]
    ensures |r.person.contacts| == |s.person.contacts| + 1 <==> Accepts(s, validEmail)
  {
    Commit(s, SubmitCalls(s, validEmail))
  }

  /** `onSelect` as its two resets evidently intend: one error record with
      both contact errors cleared, set once. */
  function OnSelectFixed(s: Form, kind: string): (r: Form)
    ensures r.person == s.person
    ensures r.draft == Contact(kind, s.draft.value)
    ensures ErrorOf(r.errors, CONTACT_TYPE) == "" && ErrorOf(r.errors, CONTACT_VALUE) == ""
    ensures forall f :: f != CONTACT_TYPE && f != CONTACT_VALUE ==> ErrorOf(r.errors, f) == ErrorOf(s.errors, f)
  {
    Commit(s, [SetError(s.errors[CONTACT_VALUE := ""][CONTACT_TYPE := ""]), SetContact(s.draft.(kind := kind))])
  }

  /** `onSubmit` as its three checks evidently intend: every failing check's
      message is recorded, by threading one error record through the checks
      and setting it once. */
  function OnSubmitFixed(s: Form, validEmail: string -> bool): (r: Form)
    ensures Accepts(s, validEmail) ==>
              && r.person == s.person.(contacts := s.person.contacts + [s.draft])
              && r.draft == EMPTY_CONTACT
              && r.errors == s.errors
    ensures !Accepts(s, validEmail) ==> r.person == s.person && r.draft == s.draft
    ensures ErrorOf(r.errors, FIRST_NAME) ==
              if s.person.firstName == "" then FIRST_NAME_REQUIRED else ErrorOf(s.errors, FIRST_NAME)
    ensures ErrorOf(r.errors, CONTACT_TYPE) ==
              if s.draft.kind == "" then CONTACT_TYPE_REQUIRED else ErrorOf(s.errors, CONTACT_TYPE)
    ensures ErrorOf(r.errors, CONTACT_VALUE) ==
              if ValueValid(s.draft, validEmail) then ErrorOf(s.errors, CONTACT_VALUE)
              else ValueMessage(s.draft.kind)
    ensures forall f :: f !in {FIRST_NAME, CONTACT_TYPE, CONTACT_VALUE} ==>
              ErrorOf(r.errors, f) == ErrorOf(s.errors, f)
  {
    var nameChecked :=
      if s.person.firstName == "" then s.errors[FIRST_NAME := FIRST_NAME_REQUIRED] else s.errors;
    var typeChecked :=
      if s.draft.kind == "" then nameChecked[CONTACT_TYPE := CONTACT_TYPE_REQUIRED] else nameChecked;
    var valueChecked :=
      if s.draft.kind == EMAIL && !validEmail(s.draft.value) then typeChecked[CONTACT_VALUE := INVALID_EMAIL]
      else if IsPhoneKind(s.draft.kind) && JsString.Length(s.draft.value) != PHONE_LENGTH then
        typeChecked[CONTACT_VALUE := INVALID_PHONE]
      else typeChecked;
    var hasError := s.person.firstName == "" || s.draft.kind == "" || !ValueValid(s.draft, validEmail);
    Commit(s,
      if hasError then [SetError(valueChecked)]
      else [SetPerson(s.person.(contacts := s.person.contacts + [s.draft])), SetContact(EMPTY_CONTACT)])
  }
}
