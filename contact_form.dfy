/** The contact step (src/components/Introduction/ContactForm.tsx): five text fields, a
    validator that records one message per failing field, and the submit-or-skip decision. */
module ContactForm {
  import opened Wrappers
  import opened Text

  datatype Field = FirstName | LastName | Email | Company | JobTitle

  datatype FormData = FormData(firstName: string, lastName: string, email: string, company: string, jobTitle: string)

  const EmptyForm := FormData("", "", "", "", "")

  function Get(form: FormData, field: Field): string {
    match field
    case FirstName => form.firstName
    case LastName => form.lastName
    case Email => form.email
    case Company => form.company
    case JobTitle => form.jobTitle
  }

  /** `{...prev, [name]: value}`. */
  function Set(form: FormData, field: Field, value: string): (r: FormData)
    ensures Get(r, field) == value
    ensures forall other :: other != field ==> Get(r, other) == Get(form, other)
  {
    match field
    case FirstName => form.(firstName := value)
    case LastName => form.(lastName := value)
    case Email => form.(email := value)
    case Company => form.(company := value)
    case JobTitle => form.(jobTitle := value)
  }

  /** No white space strictly between positions `lo` and `hi`. */
  predicate NoWhitespaceBetween(s: string, lo: nat, hi: nat)
    requires hi <= |s|
  {
    forall k :: lo < k < hi ==> !IsWhitespace(s[k])
  }

  /** `/\S+@\S+\.\S+/.test(s)`: the pattern is not anchored, so it holds when some substring
      is non-white-space characters, '@', non-white-space characters, '.', and a
      non-white-space character. `at` is the '@' and `dot` the '.'. */
  predicate EmailPattern(s: string) {
    exists at, dot | 0 <= at < |s| && 0 <= dot < |s| :: MatchAt(s, at, dot)
  }

  /** The pattern matches with its '@' at `at` and its '.' at `dot`. */
  predicate MatchAt(s: string, at: int, dot: int) {
    && 0 < at && at + 1 < dot && dot + 1 < |s|
    && s[at] == '@' && s[dot] == '.'
    && !IsWhitespace(s[at - 1])
    && NoWhitespaceBetween(s, at, dot)
    && !IsWhitespace(s[dot + 1])
  }

  /** Whether a field passes validation. */
  predicate FieldValid(form: FormData, field: Field) {
    !IsBlank(Get(form, field)) && (field == Email ==> EmailPattern(form.email))
  }

  predicate FormValid(form: FormData) {
    FieldValid(form, FirstName) && FieldValid(form, LastName) && FieldValid(form, Email)
    && FieldValid(form, Company) && FieldValid(form, JobTitle)
  }

  /** The message recorded for a failing field. The email message says "required" when the
      trimmed email is empty and "invalid" otherwise. */
  function ErrorMessage(form: FormData, field: Field): string {
    match field
    case FirstName => "First name is required"
    case LastName => "Last name is required"
    case Email => if IsBlank(form.email) then "Email is required" else "Email is invalid"
    case Company => "Company name is required"
    case JobTitle => "Job title is required"
  }

  /** `!s.trim()`. */
  method TrimsToEmpty(s: string) returns (empty: bool)
    ensures empty <==> IsBlank(s)
  {
    empty := Trim(s) == [];
    TrimEmptyIffBlank(s);
  }

  /** `validate`'s `newErrors`, built field by field: exactly the failing fields, each with
      its own message. */
  method CollectErrors(form: FormData) returns (errors: map<Field, string>)
    ensures forall field :: field in errors <==> !FieldValid(form, field)
    ensures forall field :: field in errors ==> errors[field] == ErrorMessage(form, field)
    ensures |errors| == 0 <==> FormValid(form)
  {
    errors := map[];
    var blank := TrimsToEmpty(form.firstName);
    if blank {
      errors := errors[FirstName := "First name is required"];
    }
    blank := TrimsToEmpty(form.lastName);
    if blank {
      errors := errors[LastName := "Last name is required"];
    }
    blank := TrimsToEmpty(form.email);
    if blank {
      errors := errors[Email := "Email is required"];
    } else if !EmailPattern(form.email) {
      errors := errors[Email := "Email is invalid"];
    }
    blank := TrimsToEmpty(form.company);
    if blank {
      errors := errors[Company := "Company name is required"];
    }
    blank := TrimsToEmpty(form.jobTitle);
    if blank {
      errors := errors[JobTitle := "Job title is required"];
    }
    forall field
      ensures (field in errors <==> !FieldValid(form, field))
      ensures field in errors ==> errors[field] == ErrorMessage(form, field)
    {
      match field {
        case FirstName =>
        case LastName =>
        case Email =>
        case Company =>
        case JobTitle =>
      }
    }
    if !FormValid(form) {
      var field: Field :| !FieldValid(form, field);
      assert field in errors;
    }
  }

  /** A string that matches the pattern is never blank, so the "required" test only decides
      which message a failing email gets. */
  lemma MatchingEmailNotBlank(s: string)
    requires EmailPattern(s)
    ensures !IsBlank(s)
  {
    var at, dot :| MatchAt(s, at, dot);
    assert MatchAt(s, at, dot);
  }

  /** The pattern is unanchored: text around a match does not stop it matching. */
  lemma EmailPatternUnanchored(s: string, before: string, after: string)
    requires EmailPattern(s)
    ensures EmailPattern(before + s + after)
  {
    var t := before + s + after;
    var at, dot :| MatchAt(s, at, dot);
    assert MatchAt(s, at, dot);
    var n := |before|;
    assert forall k :: 0 <= k < |s| ==> t[n + k] == s[k];
    assert NoWhitespaceBetween(t, n + at, n + dot) by {
      forall k | n + at < k < n + dot ensures !IsWhitespace(t[k]) {
        assert t[k] == s[k - n];
      }
    }
    assert MatchAt(t, n + at, n + dot);
  }

  /** A plain address matches. */
  lemma PlainEmailMatches()
    ensures EmailPattern("jane@example.com")
  {
    assert MatchAt("jane@example.com", 4, 12);
  }

  /** So does an address with text around it. */
  lemma SurroundedEmailMatches()
    ensures EmailPattern("mail: jane@example.com please")
  {
    assert MatchAt("mail: jane@example.com please", 10, 18);
  }

  /** Without a '.' there is no match. */
  lemma NoDotNoMatch(s: string)
    requires '.' !in s
    ensures !EmailPattern(s)
  {
  }

  /** When every '@' follows white space there is no match. */
  lemma NoTextBeforeAtNoMatch(s: string)
    requires forall i :: 0 < i < |s| && s[i] == '@' ==> IsWhitespace(s[i - 1])
    ensures !EmailPattern(s)
  {
  }

  /** An address without a dot after the '@', and one with a space before the '@', are
      rejected. */
  lemma EmailCounterexamples()
    ensures !EmailPattern("jane@example")
    ensures !EmailPattern("jane @example.com")
  {
    NoDotNoMatch("jane@example");
    var s := "jane @example.com";
    forall i | 0 < i < |s| && s[i] == '@' ensures IsWhitespace(s[i - 1]) {
      assert i == 5;
    }
    NoTextBeforeAtNoMatch(s);
  }

  /** What happens after a submit or skip: continue with the data to store, or stay. */
  datatype Outcome = Continue(stored: Option<FormData>) | Stay

  class ContactFormState {
    var formData: FormData
    var errors: map<Field, string>

    constructor ()
      ensures formData == EmptyForm && errors == map[]
    {
      formData := EmptyForm;
      errors := map[];
    }

    /** `handleChange`: updates the named field only. */
    method HandleChange(field: Field, value: string)
      modifies this
      ensures formData == Set(old(formData), field, value)
      ensures errors == old(errors)
    {
      formData := Set(formData, field, value);
    }

    /** `validate`: replaces the error map and reports whether the form is valid. */
    method Validate() returns (valid: bool)
      modifies this
      ensures formData == old(formData)
      ensures forall field :: field in errors <==> !FieldValid(formData, field)
      ensures forall field :: field in errors ==> errors[field] == ErrorMessage(formData, field)
      ensures valid <==> FormValid(formData)
    {
      errors := CollectErrors(formData);
      valid := |errors| == 0;
    }

    /** `handleSubmit`: a valid form is stored as typed, untrimmed, and the wizard continues;
        otherwise nothing is stored and the step stays. */
    method HandleSubmit() returns (outcome: Outcome)
      modifies this
      ensures formData == old(formData)
      ensures forall field :: field in errors <==> !FieldValid(formData, field)
      ensures outcome == if FormValid(formData) then Continue(Some(formData)) else Stay
    {
      var valid := Validate();
      if valid {
        outcome := Continue(Some(formData));
      } else {
        outcome := Stay;
      }
    }

    /** `handleSkip`: stores nothing and continues. */
    method HandleSkip() returns (outcome: Outcome)
      ensures outcome == Continue(None)
    {
      outcome := Continue(None);
    }
  }

  // The store call as written. The form takes `setContactInfo` from the assessment context,
  // but the context (src/context/AssessmentContext.tsx:13-18, 35-40) provides only these
  // members, so the call reads an undefined member and throws before `onContinue`.

  /** The members the assessment context provides. */
  const ContextMembers: set<string> := {"answers", "addAnswer", "recommendedModules", "setRecommendedModules"}

  const NotAFunction := "setContactInfo is not a function"

  /** A handler either completes with an outcome or throws. */
  datatype Run = Completed(outcome: Outcome) | Threw(error: string)

  /** `handleSubmit` as written, against a context providing `provided`: the store call throws
      unless the context has a `setContactInfo`. */
  function SubmitAsWritten(form: FormData, provided: set<string>): (r: Run)
    ensures !FormValid(form) ==> r == Completed(Stay)
    ensures FormValid(form) && "setContactInfo" in provided ==> r == Completed(Continue(Some(form)))
    ensures FormValid(form) && "setContactInfo" !in provided ==> r == Threw(NotAFunction)
  {
    if !FormValid(form) then Completed(Stay)
    else if "setContactInfo" in provided then Completed(Continue(Some(form)))
    else Threw(NotAFunction)
  }

  /** `handleSkip` as written. */
  function SkipAsWritten(provided: set<string>): (r: Run)
    ensures r.Completed? <==> "setContactInfo" in provided
  {
    if "setContactInfo" in provided then Completed(Continue(None)) else Threw(NotAFunction)
  }

  /** A completely filled-in form passes validation, yet submitting it throws, and so does
      skipping: against the context as written, the contact step never continues. */
  lemma ContactStepThrows()
    ensures var form := FormData("Jane", "Doe", "jane@example.com", "Acme", "CIO");
      FormValid(form) && SubmitAsWritten(form, ContextMembers) == Threw(NotAFunction)
    ensures SkipAsWritten(ContextMembers) == Threw(NotAFunction)
    ensures forall form :: SubmitAsWritten(form, ContextMembers) != Completed(Continue(Some(form)))
  {
    var form := FormData("Jane", "Doe", "jane@example.com", "Acme", "CIO");
    assert !IsWhitespace(form.firstName[0]) && !IsWhitespace(form.lastName[0]);
    assert !IsWhitespace(form.email[0]) && !IsWhitespace(form.company[0]) && !IsWhitespace(form.jobTitle[0]);
    PlainEmailMatches();
    assert FieldValid(form, Email);
  }
}
