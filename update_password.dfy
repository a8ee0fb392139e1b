/**
 * The password-update page: the language fallback for its messages, the
 * two-field form rule, and the submit handler that calls the auth service
 * with a loading flag around it.
 */
module UpdatePassword {
  import opened Wrappers

  /** The `auth` messages of a translation bundle used by this page, by key. */
  datatype Message = PasswordLength | PasswordMismatch | PasswordUpdated

  const DefaultLanguage := "en"

  /**
   * `validLanguage`: the stored language when it is non-empty and has a
   * translation bundle, otherwise "en". `translated` is the set of
   * languages that have a bundle.
   */
  function ValidLanguage(language: string, translated: set<string>): (chosen: string)
    ensures chosen == language || chosen == DefaultLanguage
    ensures chosen in translated || chosen == DefaultLanguage
    ensures chosen == language <==> (language != "" && language in translated) || language == DefaultLanguage
  {
    if language != "" && language in translated then language else DefaultLanguage
  }

  /** Whenever an "en" bundle exists, the page always finds a bundle for its messages. */
  lemma ValidLanguageHasBundle(language: string, translated: set<string>)
    requires DefaultLanguage in translated
    ensures ValidLanguage(language, translated) in translated
  {
  }

  // ---------------------------------------------------------------------
  // The form rule
  // ---------------------------------------------------------------------

  /** `z.string().min(6, …)` on the password field. */
  const MinPasswordLength := 6

  /** The message shown under each field, if any (react-hook-form's `errors`). */
  datatype FormErrors = FormErrors(password: Option<Message>, confirmPassword: Option<Message>)

  const NoErrors := FormErrors(None, None)

  /**
   * The form's `schema`. Both values are strings, so the object parse never
   * aborts and the equality refinement runs even when the length check has
   * already failed: both messages can be shown at once.
   */
  function Validate(password: string, confirmPassword: string): (errors: FormErrors)
    ensures errors.password.Some? ==> errors.password.value == PasswordLength
    ensures errors.confirmPassword.Some? ==> errors.confirmPassword.value == PasswordMismatch
  {
    FormErrors(
      if |password| < MinPasswordLength then Some(PasswordLength) else None,
      if password != confirmPassword then Some(PasswordMismatch) else None)
  }

  predicate Accepted(errors: FormErrors) {
    errors == NoErrors
  }

  /**
   * A short password is reported on the password field, a mismatch on the
   * confirmation field, and the form is accepted exactly when the password
   * has at least six characters and equals its confirmation.
   */
  lemma ValidateRule(password: string, confirmPassword: string)
    ensures Validate(password, confirmPassword).password == Some(PasswordLength) <==> |password| < MinPasswordLength
    ensures Validate(password, confirmPassword).confirmPassword == Some(PasswordMismatch) <==> password != confirmPassword
    ensures Accepted(Validate(password, confirmPassword)) <==>
      |password| >= MinPasswordLength && password == confirmPassword
  {
  }

  // ---------------------------------------------------------------------
  // Submitting
  // ---------------------------------------------------------------------

  /** The route of the sign-in page. */
  const AuthRoute := "/auth"

  /** What the page does to the outside world, in order. */
  datatype Effect =
    | UpdateUser(newPassword: string)
    | SuccessToast(message: Message)
    | ErrorToast(text: string)
    | SignOut
    | Navigate(path: string)

  /** How the awaited `updateUser` call ends: success, or an error with its message. */
  datatype AuthOutcome = Updated | AuthError(message: string)

  /**
   * What `onSubmit` does once `updateUser` has settled. On success it
   * confirms, signs out and then goes to the sign-in page; on failure it
   * shows the error's message and stays.
   */
  function SettleEffects(outcome: AuthOutcome): (effects: seq<Effect>)
    ensures Navigate(AuthRoute) in effects <==> outcome.Updated?
    ensures forall i :: 0 <= i < |effects| && effects[i].Navigate? ==> 0 < i && effects[i - 1] == SignOut
    ensures forall text :: ErrorToast(text) in effects <==> outcome == AuthError(text)
    ensures outcome.AuthError? ==> |effects| == 1
  {
    match outcome
    case Updated => [SuccessToast(PasswordUpdated), SignOut, Navigate(AuthRoute)]
    case AuthError(message) => [ErrorToast(message)]
  }

  class PasswordForm {
    var isLoading: bool
    var errors: FormErrors
    var effects: seq<Effect>

    constructor ()
      ensures !isLoading && errors == NoErrors && effects == []
    {
      isLoading := false;
      errors := NoErrors;
      effects := [];
    }

    /** The submit button's `disabled` attribute: set exactly while a submit is in flight. */
    predicate SubmitDisabled()
      reads this
      ensures SubmitDisabled() <==> isLoading
    {
      isLoading
    }

    /**
     * A press of the submit button: ignored while it is disabled; otherwise
     * `handleSubmit` validates, shows the messages, and only for an accepted
     * form enters `onSubmit`, which sets `isLoading` and calls `updateUser`
     * with the new password.
     */
    method Submit(password: string, confirmPassword: string) returns (started: bool)
      modifies this
      ensures old(SubmitDisabled()) ==>
        !started && isLoading == old(isLoading) && errors == old(errors) && effects == old(effects)
      ensures !old(SubmitDisabled()) ==>
        errors == Validate(password, confirmPassword) && started == Accepted(errors)
      ensures started ==> isLoading && effects == old(effects) + [UpdateUser(password)]
      ensures !started ==> isLoading == old(isLoading) && effects == old(effects)
    {
      if isLoading {
        return false;
      }
      errors := Validate(password, confirmPassword);
      started := Accepted(errors);
      if started {
        isLoading := true;
        effects := effects + [UpdateUser(password)];
      }
    }

    /**
     * The rest of `onSubmit` once `updateUser` has settled: the success or
     * error branch, then the `finally` block that clears `isLoading`.
     */
    method Settle(outcome: AuthOutcome)
      requires isLoading
      modifies this
      ensures !isLoading
      ensures effects == old(effects) + SettleEffects(outcome)
      ensures errors == old(errors)
    {
      match outcome {
        case Updated =>
          effects := effects + [SuccessToast(PasswordUpdated)];
          effects := effects + [SignOut];
          effects := effects + [Navigate(AuthRoute)];
        case AuthError(message) =>
          effects := effects + [ErrorToast(message)];
      }
      isLoading := false;
    }
  }

  /**
   * One visit to the page with one press of the button: the user reaches
   * the sign-in page exactly when the form is accepted and the update
   * succeeds, the shown messages are those of the form rule, and the page
   * is never left loading.
   */
  method SubmitOnce(password: string, confirmPassword: string, outcome: AuthOutcome)
    returns (navigated: bool, loadingAfter: bool, shownErrors: FormErrors)
    ensures navigated <==>
      |password| >= MinPasswordLength && password == confirmPassword && outcome.Updated?
    ensures !loadingAfter
    ensures shownErrors == Validate(password, confirmPassword)
  {
    var form := new PasswordForm();
    var started := form.Submit(password, confirmPassword);
    if started {
      form.Settle(outcome);
      assert form.effects == [UpdateUser(password)] + SettleEffects(outcome);
    }
    ValidateRule(password, confirmPassword);
    navigated := Navigate(AuthRoute) in form.effects;
    loadingAfter := form.isLoading;
    shownErrors := form.errors;
  }
}
