/**
 * The registration form, `src/SignUpForm.tsx` and its older version
 * `src/SignUpForm.jsx` (the same handler): the checks made before
 * `signUp` is called, in their order, and what is sent.
 */
module SignUp {
  import opened Js

  const Mismatch := "Passordene matcher ikke"
  const TooShort := "Passordet må være minst 6 tegn"
  const NamesRequired := "Fornavn og etternavn er påkrevd"
  const MinPasswordLength := 6

  /** The two password checks every password form makes: equal first, then long enough. None passes. */
  function PasswordProblem(password: string, confirmPassword: string): (r: Option<string>)
    ensures r.None? <==> password == confirmPassword && |password| >= MinPasswordLength
    ensures r == Some(Mismatch) <==> password != confirmPassword
    ensures r == Some(TooShort) <==> password == confirmPassword && |password| < MinPasswordLength
  {
    if password != confirmPassword then Some(Mismatch)
    else if |password| < 6 then Some(TooShort)
    else None
  }

  datatype SignUpForm = SignUpForm(email: string, password: string, confirmPassword: string,
                                   firstName: string, lastName: string)

  /** The checks of `handleSubmit`, in order; None lets the form through. */
  function Validate(f: SignUpForm): (r: Option<string>)
    ensures r.None? <==> PasswordProblem(f.password, f.confirmPassword).None? && Trim(f.firstName) != "" && Trim(f.lastName) != ""
    ensures PasswordProblem(f.password, f.confirmPassword).Some? ==> r == PasswordProblem(f.password, f.confirmPassword)
    ensures PasswordProblem(f.password, f.confirmPassword).None? && r.Some? ==> r == Some(NamesRequired)
  {
    var p := PasswordProblem(f.password, f.confirmPassword);
    if p.Some? then p
    else if Trim(f.firstName) == "" || Trim(f.lastName) == "" then Some(NamesRequired)
    else None
  }

  /**
   * A name is refused exactly when it is empty or white space only, and
   * only once both passwords have passed.
   */
  lemma BlankNameRefused(f: SignUpForm)
    requires f.password == f.confirmPassword && |f.password| >= MinPasswordLength
    ensures Validate(f) == Some(NamesRequired) <==>
      (forall k :: 0 <= k < |f.firstName| ==> IsSpace(f.firstName[k]))
      || (forall k :: 0 <= k < |f.lastName| ==> IsSpace(f.lastName[k]))
  {
    TrimEmptyIffBlank(f.firstName);
    TrimEmptyIffBlank(f.lastName);
  }

  /** What `supabase.auth.signUp` receives: the names go into the user's metadata. */
  datatype SignUpRequest = SignUpRequest(email: string, password: string, firstName: string, lastName: string)

  const Registered := "Registrering vellykket! Sjekk e-posten din for bekreftelseslenke."
  const FailedPrefix := "Feil ved registrering: "

  class SignUpPage {
    var form: SignUpForm
    var loading: bool
    var message: string
    /** The calls made to `signUp`. */
    var requests: seq<SignUpRequest>
    /** Whether `onSignUpSuccess` has been scheduled. */
    var leaving: bool

    constructor()
      ensures form == SignUpForm("", "", "", "", "") && !loading && message == "" && requests == [] && !leaving
    {
      form := SignUpForm("", "", "", "", "");
      loading := false;
      message := "";
      requests := [];
      leaving := false;
    }

    /**
     * `handleSubmit`: a refused form only sets the message; otherwise one
     * `signUp` call with the names trimmed, then the outcome's message; an
     * error turns `loading` off again.
     */
    method Submit(error: Option<string>)
      modifies this`loading, this`message, this`requests, this`leaving
      ensures Validate(form).Some? ==>
        message == Validate(form).value && loading == old(loading) && requests == old(requests) && leaving == old(leaving)
      ensures Validate(form).None? ==>
        requests == old(requests) + [SignUpRequest(form.email, form.password, Trim(form.firstName), Trim(form.lastName))]
      ensures Validate(form).None? && error.Some? ==>
        message == FailedPrefix + error.value && !loading && leaving == old(leaving)
      ensures Validate(form).None? && error.None? ==> message == Registered && loading && leaving
    {
      message := "";
      if form.password != form.confirmPassword {
        message := Mismatch;
        return;
      }
      if |form.password| < 6 {
        message := TooShort;
        return;
      }
      if Trim(form.firstName) == "" || Trim(form.lastName) == "" {
        message := NamesRequired;
        return;
      }
      loading := true;
      requests := requests + [SignUpRequest(form.email, form.password, Trim(form.firstName), Trim(form.lastName))];
      if error.Some? {
        message := FailedPrefix + error.value;
        loading := false;
        return;
      }
      message := Registered;
      leaving := true;
    }
  }
}
