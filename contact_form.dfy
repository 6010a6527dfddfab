/** The contact form of `src/components/molecules/ContactForm.jsx`: the e-mail
    check, the per-field error map, and the input and submit handlers over the
    component's state. */
module ContactForm {
  import opened Wrappers
  import opened JsText
  import opened JsArray

  datatype FormData = FormData(name: string, email: string, message: string)

  datatype FormField = Name | Email | Message

  const EmptyForm := FormData("", "", "")

  function FieldValue(d: FormData, f: FormField): string {
    match f
    case Name => d.name
    case Email => d.email
    case Message => d.message
  }

  /** `{ ...prev, [field]: value }`. */
  function WithField(d: FormData, f: FormField, value: string): (r: FormData)
    ensures FieldValue(r, f) == value
    ensures forall g :: g != f ==> FieldValue(r, g) == FieldValue(d, g)
  {
    match f
    case Name => d.(name := value)
    case Email => d.(email := value)
    case Message => d.(message := value)
  }

  /** The characters `s[lo..hi]` all match `[^\s@]`. */
  predicate Plain(s: string, lo: int, hi: int)
    requires 0 <= lo <= hi <= |s|
  {
    forall k :: lo <= k < hi ==> !IsWhitespace(s[k]) && s[k] != '@'
  }

  /** What `/^[^\s@]+@[^\s@]+\.[^\s@]+$/` accepts: a non-empty part, `@`, a
      non-empty part, `.`, and a non-empty part, none of the parts holding
      white space or `@`. */
  ghost predicate EmailPattern(s: string) {
    exists i, j :: 0 < i && i + 1 < j && j + 1 < |s| && s[i] == '@' && s[j] == '.'
                   && Plain(s, 0, i) && Plain(s, i + 1, j) && Plain(s, j + 1, |s|)
  }

  /** `validateEmail`: find the `@`, then check both sides. */
  function ValidateEmail(email: string): bool {
    match At(email)
    case None => false
    case Some(at) =>
      && 0 < at
      && Plain(email, 0, at)
      && Plain(email, at + 1, |email|)
      && exists k :: at + 1 < k < |email| - 1 && email[k] == '.'
  }

  /** The `@` that `validateEmail` finds. */
  function At(email: string): Option<nat> {
    FindFirst(email, (c: char) => c == '@')
  }

  lemma AcceptedMatchesPattern(email: string)
    requires ValidateEmail(email)
    ensures EmailPattern(email)
  {
    var at := At(email).value;
    var k :| at + 1 < k < |email| - 1 && email[k] == '.';
    assert Plain(email, at + 1, k) && Plain(email, k + 1, |email|);
  }

  lemma PatternIsAccepted(email: string)
    requires EmailPattern(email)
    ensures ValidateEmail(email)
  {
    var i, j :| 0 < i && i + 1 < j && j + 1 < |email| && email[i] == '@' && email[j] == '.'
                && Plain(email, 0, i) && Plain(email, i + 1, j) && Plain(email, j + 1, |email|);
    assert forall k :: 0 <= k < i ==> email[k] != '@';
    assert At(email) == Some(i);
    assert Plain(email, i + 1, |email|);
    assert i + 1 < j < |email| - 1 && email[j] == '.';
  }

  /** `validateEmail` accepts exactly the strings the regular expression matches. */
  lemma ValidateEmailIsPattern(email: string)
    ensures ValidateEmail(email) <==> EmailPattern(email)
  {
    if ValidateEmail(email) {
      AcceptedMatchesPattern(email);
    }
    if EmailPattern(email) {
      PatternIsAccepted(email);
    }
  }

  /** An accepted e-mail has no white space, so trimming leaves it non-empty. */
  lemma ValidEmailHasNoBorderSpace(email: string)
    ensures ValidateEmail(email) ==>
      && email != ""
      && !IsWhitespace(email[0]) && !IsWhitespace(email[|email| - 1])
      && Trim(email) == email
  {
    if ValidateEmail(email) {
      var at := At(email).value;
      assert !IsWhitespace(email[0]);
      assert !IsWhitespace(email[|email| - 1]);
      TrimNoBorderSpace(email);
    }
  }

  /** The name check: required, then a trimmed `length` of at least two (UTF-16 units). */
  function NameError(name: string): Option<string> {
    var t := Trim(name);
    if t == "" then Some("Name is required")
    else if Utf16Length(t) < 2 then Some("Name must be at least 2 characters")
    else None
  }

  /** The e-mail check: required once trimmed, then the pattern on the untrimmed text. */
  function EmailError(email: string): Option<string> {
    if Trim(email) == "" then Some("Email is required")
    else if !ValidateEmail(email) then Some("Please enter a valid email address")
    else None
  }

  /** The message check: required, then a trimmed `length` of at least ten (UTF-16 units). */
  function MessageError(message: string): Option<string> {
    var t := Trim(message);
    if t == "" then Some("Message is required")
    else if Utf16Length(t) < 10 then Some("Message must be at least 10 characters")
    else None
  }

  /** `newErrors.f = e` when a check produced a message. */
  function Record(errors: map<FormField, string>, f: FormField, e: Option<string>): map<FormField, string> {
    if e.Some? then errors[f := e.value] else errors
  }

  /** `validateForm`'s `newErrors`: the three checks in turn. */
  function ValidateForm(d: FormData): map<FormField, string> {
    var errors := Record(map[], Name, NameError(d.name));
    var errors := Record(errors, Email, EmailError(d.email));
    Record(errors, Message, MessageError(d.message))
  }

  /** `Object.keys(newErrors).length === 0`. */
  predicate IsValid(d: FormData) {
    |ValidateForm(d)| == 0
  }

  /** Three records in a row hold exactly the fields that got a message, each with its message. */
  lemma RecordThree(a: Option<string>, b: Option<string>, c: Option<string>)
    ensures var m := Record(Record(Record(map[], Name, a), Email, b), Message, c);
      && (Name in m <==> a.Some?) && (Name in m ==> m[Name] == a.value)
      && (Email in m <==> b.Some?) && (Email in m ==> m[Email] == b.value)
      && (Message in m <==> c.Some?) && (Message in m ==> m[Message] == c.value)
      && (|m| == 0 <==> a.None? && b.None? && c.None?)
  {
    var m := Record(Record(Record(map[], Name, a), Email, b), Message, c);
    if a.Some? || b.Some? || c.Some? {
      assert Name in m || Email in m || Message in m;
    }
  }

  /** Which fields get which message, in terms of the trimmed lengths (in UTF-16
      units, as `length` counts them) and the pattern. */
  lemma ValidateFormSpec(d: FormData)
    ensures Name in ValidateForm(d) <==> Utf16Length(Trim(d.name)) < 2
    ensures Name in ValidateForm(d) ==>
      ValidateForm(d)[Name] == if Trim(d.name) == "" then "Name is required" else "Name must be at least 2 characters"
    ensures Email in ValidateForm(d) <==> !EmailPattern(d.email)
    ensures Email in ValidateForm(d) ==>
      ValidateForm(d)[Email] == if Trim(d.email) == "" then "Email is required" else "Please enter a valid email address"
    ensures Message in ValidateForm(d) <==> Utf16Length(Trim(d.message)) < 10
    ensures Message in ValidateForm(d) ==>
      ValidateForm(d)[Message] == if Trim(d.message) == "" then "Message is required" else "Message must be at least 10 characters"
  {
    RecordThree(NameError(d.name), EmailError(d.email), MessageError(d.message));
    ValidateEmailIsPattern(d.email);
    ValidEmailHasNoBorderSpace(d.email);
  }

  /** The form is valid exactly when the trimmed name has a `length` of two, the
      e-mail matches the pattern and the trimmed message has a `length` of ten. */
  lemma IsValidIff(d: FormData)
    ensures IsValid(d) <==> Utf16Length(Trim(d.name)) >= 2 && EmailPattern(d.email) && Utf16Length(Trim(d.message)) >= 10
  {
    ValidateFormSpec(d);
    RecordThree(NameError(d.name), EmailError(d.email), MessageError(d.message));
  }

  /** A name of one character outside the Basic Multilingual Plane has a
      `length` of two, so it passes the length check. */
  lemma AstralNameIsLongEnough()
    ensures NameError("\U{1F600}") == None
  {
    var name := "\U{1F600}";
    TrimNoBorderSpace(name);
    assert Utf16Length(name) == 2 + Utf16Length(name[1..]);
  }

  /** The pattern is tested on the untrimmed e-mail: white space at either end is an error. */
  lemma PaddedEmailRejected(d: FormData)
    requires d.email != ""
    requires IsWhitespace(d.email[0]) || IsWhitespace(d.email[|d.email| - 1])
    ensures Email in ValidateForm(d)
  {
    ValidEmailHasNoBorderSpace(d.email);
  }

  /** The form's state: `formData`, `errors` and `isSubmitting`. */
  class ContactFormState {
    var formData: FormData
    var errors: map<FormField, string>
    var isSubmitting: bool

    constructor ()
      ensures formData == EmptyForm && errors == map[] && !isSubmitting
    {
      formData := EmptyForm;
      errors := map[];
      isSubmitting := false;
    }

    /** `handleInputChange(field, value)`: set the field, and blank its error
        when it has a non-empty one. */
    method HandleInputChange(field: FormField, value: string)
      modifies this
      ensures formData == WithField(old(formData), field, value)
      ensures errors == if field in old(errors) && old(errors)[field] != ""
                        then old(errors)[field := ""] else old(errors)
      ensures isSubmitting == old(isSubmitting)
    {
      formData := WithField(formData, field, value);
      if field in errors && errors[field] != "" {
        errors := errors[field := ""];
      }
    }

    /** `handleSubmit`: record the errors; an invalid form stops there, a valid one
        is sent (`sent` stands for the call to `onClose`) and reset. */
    method HandleSubmit() returns (sent: bool)
      modifies this
      ensures errors == ValidateForm(old(formData))
      ensures sent <==> IsValid(old(formData))
      ensures sent ==> formData == EmptyForm
      ensures !sent ==> formData == old(formData) && isSubmitting == old(isSubmitting)
      ensures sent ==> !isSubmitting
    {
      errors := ValidateForm(formData);
      sent := |errors| == 0;
      if !sent {
        return;
      }
      isSubmitting := true;
      formData := EmptyForm;
      isSubmitting := false;
    }
  }
}
