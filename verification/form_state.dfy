/** The state of the contact form and the way React applies state updates.

    The component keeps three independent state variables: the person being
    registered, the draft contact being edited, and the error record. An event
    handler never mutates them; it calls their setters with new values computed
    from the snapshot it was rendered with, and React applies the queued calls
    in order once the handler returns. Each setter replaces its variable
    wholesale, so for each variable the last call made by a handler decides
    its next value.
 */
module FormState {

  /** One contact entry. `kind` is the field `TContact` calls `type`. */
  datatype Contact = Contact(kind: string, value: string)

  /** The person being registered; contacts keep insertion order and may repeat. */
  datatype Person = Person(title: string, firstName: string, lastName: string, contacts: seq<Contact>)

  /** The error record. It starts with the three keys below; resetting the
      error of any other input name adds that name as a key. A missing key
      reads as no error. */
  type Errors = map<string, string>

  /** The component's whole state between events. */
  datatype Form = Form(person: Person, draft: Contact, errors: Errors)

  // The option values of the contact-type selector.
  const MOBILE_NUMBER: string := "Mobile number"
  const PHONE_NUMBER: string := "Phone number"
  const EMAIL: string := "Email"

  // The keys of the error record.
  const FIRST_NAME: string := "firstName"
  const CONTACT_TYPE: string := "contactType"
  const CONTACT_VALUE: string := "contactValue"

  // The messages the submit handler records.
  const FIRST_NAME_REQUIRED: string := "First name is required"
  const CONTACT_TYPE_REQUIRED: string := "Contact Type is required"
  const INVALID_EMAIL: string := "Not a valid email address"
  const INVALID_PHONE: string := "Not a valid phone number"

  const EMPTY_CONTACT: Contact := Contact("", "")

  const NO_ERRORS: Errors := map[FIRST_NAME := "", CONTACT_TYPE := "", CONTACT_VALUE := ""]

  /** The state the component mounts with. */
  const INITIAL: Form := Form(Person("", "", "", []), EMPTY_CONTACT, NO_ERRORS)

  /** The message shown for `field`, or "" when the record has no such key. */
  function ErrorOf(e: Errors, field: string): string {
    if field in e then e[field] else ""
  }

  /** The error record still holds the three keys the form displays. */
  predicate HasErrorFields(e: Errors) {
    FIRST_NAME in e && CONTACT_TYPE in e && CONTACT_VALUE in e
  }

  /** The three state variables of the component. */
  datatype Variable = PersonVar | ContactVar | ErrorVar

  /** One call of a state setter, carrying the complete new value. */
  datatype SetterCall = SetPerson(person: Person) | SetContact(contact: Contact) | SetError(errors: Errors)

  /** True when `c` is a call of the setter of `v`. */
  predicate Writes(c: SetterCall, v: Variable) {
    match c
    case SetPerson(_) => v == PersonVar
    case SetContact(_) => v == ContactVar
    case SetError(_) => v == ErrorVar
  }

  /** Applies one setter call: the variable it sets is replaced, the others are kept. */
  function Apply(s: Form, c: SetterCall): Form {
    match c
    case SetPerson(p) => s.(person := p)
    case SetContact(d) => s.(draft := d)
    case SetError(e) => s.(errors := e)
  }

  /** The index of the last call in `calls` that sets `v`, or -1 when none does. */
  function LastWrite(calls: seq<SetterCall>, v: Variable): (i: int)
    ensures -1 <= i < |calls|
    ensures 0 <= i ==> Writes(calls[i], v)
    ensures forall j :: i < j < |calls| ==> !Writes(calls[j], v)
  {
    if calls == [] then -1
    else if Writes(calls[|calls| - 1], v) then |calls| - 1
    else LastWrite(calls[..|calls| - 1], v)
  }

  /** The state after React applies the setter calls of one handler, in the
      order the handler made them. */
  function Commit(s: Form, calls: seq<SetterCall>): (r: Form)
    ensures var i := LastWrite(calls, PersonVar);
      r.person == if i < 0 then s.person else calls[i].person
    ensures var i := LastWrite(calls, ContactVar);
      r.draft == if i < 0 then s.draft else calls[i].contact
    ensures var i := LastWrite(calls, ErrorVar);
      r.errors == if i < 0 then s.errors else calls[i].errors
  {
    if calls == [] then s
    else Apply(Commit(s, calls[..|calls| - 1]), calls[|calls| - 1])
  }
}
