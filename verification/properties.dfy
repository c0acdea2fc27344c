/** Properties of the contact form over single events and whole sessions. */
module Properties {
  import opened FormState
  import opened Handlers
  import JsString

  /** Every stored contact has a type and a value that passed that type's check. */
  predicate ContactsValid(p: Person, validEmail: string -> bool) {
    forall i :: 0 <= i < |p.contacts| ==> p.contacts[i].kind != "" && ValueValid(p.contacts[i], validEmail)
  }

  /** The state invariant every handler keeps. */
  predicate Invariant(s: Form, validEmail: string -> bool) {
    ContactsValid(s.person, validEmail) && HasErrorFields(s.errors)
  }

  /** A user event: typing into a named input, choosing a contact type, pressing Add. */
  datatype Event = Change(name: string, value: string) | Select(kind: string) | Submit

  /** Which handlers run: the code as written, or the corrected `onSelect` and `onSubmit`. */
  datatype Semantics = AsWritten | Fixed

  /** The state after one event. */
  function Step(sem: Semantics, s: Form, e: Event, validEmail: string -> bool): Form {
    match e
    case Change(name, value) => OnChange(s, name, value)
    case Select(kind) => if sem == AsWritten then OnSelect(s, kind) else OnSelectFixed(s, kind)
    case Submit => if sem == AsWritten then OnSubmit(s, validEmail) else OnSubmitFixed(s, validEmail)
  }

  /** The state after a session of events, handled one at a time in order. */
  function Run(sem: Semantics, s: Form, events: seq<Event>, validEmail: string -> bool): Form
    decreases |events|
  {
    if events == [] then s else Run(sem, Step(sem, s, events[0], validEmail), events[1..], validEmail)
  }

  /** A non-empty session is its first event followed by the rest. */
  lemma RunSteps(sem: Semantics, s: Form, events: seq<Event>, validEmail: string -> bool)
    requires events != []
    ensures Run(sem, s, events, validEmail) == Run(sem, Step(sem, s, events[0], validEmail), events[1..], validEmail)
  {
  }

  /** The mounted form satisfies the invariant. */
  lemma InitialInvariant(validEmail: string -> bool)
    ensures Invariant(INITIAL, validEmail)
  {
  }

  /** An event changes the contact list only by a submit that is accepted,
      and then only by appending the draft. */
  lemma StepContacts(sem: Semantics, s: Form, e: Event, validEmail: string -> bool)
    ensures var r := Step(sem, s, e, validEmail);
      if e.Submit? && Accepts(s, validEmail) then r.person.contacts == s.person.contacts + [s.draft]
      else r.person.contacts == s.person.contacts
  {
  }

  /** Every handler keeps the invariant. */
  lemma StepPreservesInvariant(sem: Semantics, s: Form, e: Event, validEmail: string -> bool)
    requires Invariant(s, validEmail)
    ensures Invariant(Step(sem, s, e, validEmail), validEmail)
  {
    var r := Step(sem, s, e, validEmail);
    StepContacts(sem, s, e, validEmail);
    if e.Submit? && Accepts(s, validEmail) {
      assert r.person.contacts[|s.person.contacts|] == s.draft;
    }
  }

  /** The invariant holds after any session that starts in a state satisfying it. */
  lemma {:induction false} RunPreservesInvariant(sem: Semantics, s: Form, events: seq<Event>, validEmail: string -> bool)
    requires Invariant(s, validEmail)
    ensures Invariant(Run(sem, s, events, validEmail), validEmail)
    decreases |events|
  {
    if events != [] {
      StepPreservesInvariant(sem, s, events[0], validEmail);
      RunPreservesInvariant(sem, Step(sem, s, events[0], validEmail), events[1..], validEmail);
    }
  }

  /** Every state reachable from the mounted form stores only valid contacts. */
  lemma ReachableContactsValid(sem: Semantics, events: seq<Event>, validEmail: string -> bool)
    ensures ContactsValid(Run(sem, INITIAL, events, validEmail).person, validEmail)
  {
    InitialInvariant(validEmail);
    RunPreservesInvariant(sem, INITIAL, events, validEmail);
  }

  /** The contact list only grows: earlier contacts stay, in order, as a prefix. */
  lemma {:induction false} ContactsAppendOnly(sem: Semantics, s: Form, events: seq<Event>, validEmail: string -> bool)
    ensures s.person.contacts <= Run(sem, s, events, validEmail).person.contacts
    decreases |events|
  {
    if events != [] {
      var s' := Step(sem, s, events[0], validEmail);
      StepContacts(sem, s, events[0], validEmail);
      ContactsAppendOnly(sem, s', events[1..], validEmail);
    }
  }

  /** A mobile or phone number is checked only for its length: any ten
      Basic Multilingual Plane characters pass, digits or not. */
  lemma PhoneCheckIgnoresCharacters(s: Form, validEmail: string -> bool)
    requires s.person.firstName != ""
    requires IsPhoneKind(s.draft.kind)
    requires |s.draft.value| == 10 && forall i :: 0 <= i < |s.draft.value| ==> JsString.InBmp(s.draft.value[i])
    ensures OnSubmit(s, validEmail).person.contacts == s.person.contacts + [s.draft]
  {
    JsString.LengthIsCharCount(s.draft.value);
  }

  /** The email predicate is consulted only for the Email type: for any other
      type the outcome of Add does not depend on it. */
  lemma EmailCheckOnlyForEmail(s: Form, validEmail: string -> bool, otherEmail: string -> bool)
    requires s.draft.kind != EMAIL
    ensures OnSubmit(s, validEmail) == OnSubmit(s, otherEmail)
  {
  }

  /** Without a selected type Add always records the contact-type message. */
  lemma MissingTypeReported(s: Form, validEmail: string -> bool)
    requires s.draft.kind == ""
    ensures OnSubmit(s, validEmail).person == s.person
    ensures ErrorOf(OnSubmit(s, validEmail).errors, CONTACT_TYPE) == CONTACT_TYPE_REQUIRED
  {
  }

  /** Entering a person and an email, then pressing Add, stores that email as
      the only contact and clears the draft. */
  lemma EmailSession(validEmail: string -> bool)
    requires validEmail("abc@gmail.com")
    ensures var r := Run(AsWritten, INITIAL,
                         [Change(FIRST_NAME, "Ann"), Select(EMAIL), Change(CONTACT_VALUE, "abc@gmail.com"), Submit],
                         validEmail);
      r.person.contacts == [Contact(EMAIL, "abc@gmail.com")] && r.draft == EMPTY_CONTACT
  {
    var events := [Change(FIRST_NAME, "Ann"), Select(EMAIL), Change(CONTACT_VALUE, "abc@gmail.com"), Submit];
    var s1 := OnChange(INITIAL, FIRST_NAME, "Ann");
    assert s1.person.firstName == "Ann" && s1.person.contacts == [];
    var s2 := OnSelect(s1, EMAIL);
    assert s2.person == s1.person && s2.draft.kind == EMAIL;
    var s3 := OnChange(s2, CONTACT_VALUE, "abc@gmail.com");
    assert s3.person == s1.person && s3.draft == Contact(EMAIL, "abc@gmail.com");
    assert Accepts(s3, validEmail);
    RunSteps(AsWritten, INITIAL, events, validEmail);
    RunSteps(AsWritten, s1, events[1..], validEmail);
    RunSteps(AsWritten, s2, events[2..], validEmail);
    RunSteps(AsWritten, s3, events[3..], validEmail);
    assert events[3..][1..] == [];
  }

  /** A nine-digit mobile number is rejected with the phone message; a
      ten-digit one is stored. */
  lemma MobileLengthSession(validEmail: string -> bool)
    ensures var s := INITIAL.(person := INITIAL.person.(firstName := "Ann"), draft := Contact(MOBILE_NUMBER, "900000000"));
      var r := OnSubmit(s, validEmail);
      r.person.contacts == [] && ErrorOf(r.errors, CONTACT_VALUE) == INVALID_PHONE
    ensures var s := INITIAL.(person := INITIAL.person.(firstName := "Ann"), draft := Contact(MOBILE_NUMBER, "9000000000"));
      OnSubmit(s, validEmail).person.contacts == [Contact(MOBILE_NUMBER, "9000000000")]
  {
    JsString.LengthIsCharCount("900000000");
    JsString.LengthIsCharCount("9000000000");
  }

  /** With a first name, a draft of any type outside the three listed ones is
      stored whatever its value: neither value check applies. */
  lemma UnlistedTypeStored(s: Form, validEmail: string -> bool)
    requires s.person.firstName != ""
    requires s.draft.kind !in {"", EMAIL, MOBILE_NUMBER, PHONE_NUMBER}
    ensures OnSubmit(s, validEmail).person.contacts == s.person.contacts + [s.draft]
  {
  }

  /** A type outside the three listed ones skips both value checks, so even
      an empty value is stored. */
  lemma UnlistedTypeSkipsValueCheck(validEmail: string -> bool)
    ensures var s := INITIAL.(person := INITIAL.person.(firstName := "A"), draft := Contact("Fax", ""));
      OnSubmit(s, validEmail).person.contacts == [Contact("Fax", "")]
  {
  }

  /** As written, choosing a new type leaves a stale contact-value message in
      place: only the contact-type error is cleared. */
  lemma SelectKeepsValueError()
    ensures var s := INITIAL.(errors := NO_ERRORS[CONTACT_VALUE := INVALID_PHONE]);
      ErrorOf(OnSelect(s, EMAIL).errors, CONTACT_VALUE) == INVALID_PHONE
  {
  }

  /** As written, a stale message outlives a successful Add. A ten-digit value
      has no `@`, so Add rejects it as an email and records the email message;
      choosing Mobile number does not clear that message, and the next Add
      stores the value with the message still shown. */
  lemma StaleEmailErrorOutlivesAdd(validEmail: string -> bool)
    requires !validEmail("9000000000")
    ensures var s := INITIAL.(person := INITIAL.person.(firstName := "A"), draft := Contact(EMAIL, "9000000000"));
      var r := Run(AsWritten, s, [Submit, Select(MOBILE_NUMBER), Submit], validEmail);
      r.person.contacts == [Contact(MOBILE_NUMBER, "9000000000")] && ErrorOf(r.errors, CONTACT_VALUE) == INVALID_EMAIL
  {
    var events := [Submit, Select(MOBILE_NUMBER), Submit];
    var s := INITIAL.(person := INITIAL.person.(firstName := "A"), draft := Contact(EMAIL, "9000000000"));
    var s1 := OnSubmit(s, validEmail);
    assert s1.person == s.person && s1.draft == s.draft && ErrorOf(s1.errors, CONTACT_VALUE) == INVALID_EMAIL;
    var s2 := OnSelect(s1, MOBILE_NUMBER);
    assert s2.draft == Contact(MOBILE_NUMBER, "9000000000") && ErrorOf(s2.errors, CONTACT_VALUE) == INVALID_EMAIL;
    JsString.LengthIsCharCount("9000000000");
    assert Accepts(s2, validEmail);
    RunSteps(AsWritten, s, events, validEmail);
    RunSteps(AsWritten, s1, events[1..], validEmail);
    RunSteps(AsWritten, s2, events[2..], validEmail);
    assert events[2..][1..] == [];
  }

  /** At most one of the three submit checks fails. */
  predicate AtMostOneCheckFails(s: Form, validEmail: string -> bool) {
    && (s.person.firstName == "" ==> s.draft.kind != "" && ValueValid(s.draft, validEmail))
    && (s.draft.kind == "" ==> s.person.firstName != "")
  }

  /** The corrected onSubmit changes only which messages are recorded: person
      and draft always agree with onSubmit, and with a single failing check
      the whole state agrees. */
  lemma FixedSubmitAgrees(s: Form, validEmail: string -> bool)
    ensures OnSubmitFixed(s, validEmail).person == OnSubmit(s, validEmail).person
    ensures OnSubmitFixed(s, validEmail).draft == OnSubmit(s, validEmail).draft
    ensures AtMostOneCheckFails(s, validEmail) ==> OnSubmitFixed(s, validEmail) == OnSubmit(s, validEmail)
  {
    var r, r' := OnSubmitFixed(s, validEmail), OnSubmit(s, validEmail);
    if AtMostOneCheckFails(s, validEmail) {
      assert r.errors.Keys == r'.errors.Keys;
      assert forall f :: f in r.errors ==> r.errors[f] == r'.errors[f];
    }
  }

  /** The corrected onSelect differs from onSelect only in also clearing the
      contact-value error. */
  lemma FixedSelectAgrees(s: Form, kind: string)
    ensures OnSelectFixed(s, kind).person == OnSelect(s, kind).person
    ensures OnSelectFixed(s, kind).draft == OnSelect(s, kind).draft
    ensures OnSelectFixed(s, kind).errors == OnSelect(s, kind).errors[CONTACT_VALUE := ""]
  {
  }

  /** As written, pressing Add on the empty form records only the
      contact-type message: the first-name message is overwritten although the
      first name is missing. */
  lemma SubmitDropsFirstNameError(validEmail: string -> bool)
    ensures ErrorOf(OnSubmit(INITIAL, validEmail).errors, FIRST_NAME) == ""
    ensures ErrorOf(OnSubmit(INITIAL, validEmail).errors, CONTACT_TYPE) == CONTACT_TYPE_REQUIRED
  {
  }

  /** The corrected handlers report the same situations completely. */
  lemma FixedHandlersReportAll(validEmail: string -> bool)
    ensures ErrorOf(OnSubmitFixed(INITIAL, validEmail).errors, FIRST_NAME) == FIRST_NAME_REQUIRED
    ensures ErrorOf(OnSubmitFixed(INITIAL, validEmail).errors, CONTACT_TYPE) == CONTACT_TYPE_REQUIRED
    ensures var s := INITIAL.(errors := NO_ERRORS[CONTACT_VALUE := INVALID_PHONE]);
      ErrorOf(OnSelectFixed(s, EMAIL).errors, CONTACT_VALUE) == ""
  {
  }
}
