/**
 * The state of the login form on the home page, with each change handler,
 * the blur handlers, the submit handler and the e-mail composition effect
 * as one atomic transition.
 */
module HomePage {
  import opened LoginValidation

  const DefaultDomain := "naver.com"

  /** The value of the "직접입력" (type it yourself) option of the domain select. */
  const DirectChoice := "direct"

  class LoginForm {
    var email: string
    var emailUser: string
    var emailDomain: string
    var isDirectInput: bool
    var password: string
    var emailError: string
    var passwordError: string

    /**
     * What every transition keeps: both typed fields are free of the
     * sanitised characters, the password is at most 16 characters, and each
     * error field holds one of its validator's answers.
     */
    ghost predicate Valid()
      reads this
    {
      && IsClean(emailUser) && IsClean(password) && |password| <= MaxPasswordLength
      && emailError in {"", EmailRequired, EmailFormat}
      && passwordError in {"", PasswordRequired, PasswordFormat}
    }

    /** The initial `useState` values. */
    constructor ()
      ensures Valid()
      ensures email == "" && emailUser == "" && emailDomain == DefaultDomain && !isDirectInput
      ensures password == "" && emailError == "" && passwordError == ""
    {
      email, emailUser, emailDomain, isDirectInput := "", "", DefaultDomain, false;
      password, emailError, passwordError := "", "", "";
    }

    /** The effect on `[emailUser, emailDomain, isDirectInput]`: composes the address and re-validates it. */
    method SyncEmail()
      requires Valid()
      modifies this`email, this`emailError
      ensures Valid()
      ensures email == ComposeEmail(emailUser, emailDomain, isDirectInput)
      ensures emailError == ComposedEmailError(emailUser, emailDomain, isDirectInput)
    {
      var fullEmail := ComposeEmail(emailUser, emailDomain, isDirectInput);
      email := fullEmail;
      if emailUser != "" || emailDomain != "" {
        emailError := ValidateEmail(fullEmail);
      } else {
        emailError := "";
      }
    }

    /** `handleEmailUserChange` */
    method ChangeEmailUser(value: string)
      requires Valid()
      modifies this`emailUser
      ensures Valid()
      ensures emailUser == Sanitize(value)
    {
      emailUser := Sanitize(value);
    }

    /** `handleDomainChange`, the text field shown in direct-input mode. */
    method ChangeDomain(value: string)
      requires Valid()
      modifies this`emailDomain
      ensures Valid()
      ensures emailDomain == Sanitize(value)
    {
      emailDomain := Sanitize(value);
    }

    /** `handleDomainSelect`: "direct" switches to an empty typed domain, any other choice is the domain. */
    method SelectDomain(value: string)
      requires Valid()
      modifies this`isDirectInput, this`emailDomain
      ensures Valid()
      ensures value == DirectChoice ==> isDirectInput && emailDomain == ""
      ensures value != DirectChoice ==> !isDirectInput && emailDomain == value
    {
      if value == DirectChoice {
        isDirectInput := true;
        emailDomain := "";
      } else {
        isDirectInput := false;
        emailDomain := value;
      }
    }

    /** `handleEmailBlur`: validates `user@domain` as typed, with no direct-input special case. */
    method EmailBlur()
      requires Valid()
      modifies this`emailError
      ensures Valid()
      ensures emailError == ValidateEmail(emailUser + "@" + emailDomain)
      ensures emailError == "" <==> IsLocalPart(emailUser) && DomainPattern(emailDomain)
    {
      ComposedEmailValid(emailUser, emailDomain);
      emailError := ValidateEmail(emailUser + "@" + emailDomain);
    }

    /** `handlePasswordBlur` */
    method PasswordBlur()
      requires Valid()
      modifies this`passwordError
      ensures Valid()
      ensures passwordError == ValidatePassword(password)
    {
      passwordError := ValidatePassword(password);
    }

    /** `handlePasswordChange`: sanitise, cut to 16 characters, store and validate. */
    method ChangePassword(value: string)
      requires Valid()
      modifies this`password, this`passwordError
      ensures Valid()
      ensures password == StoredPassword(value)
      ensures |password| <= MaxPasswordLength && password == Sanitize(value)[..|password|]
      ensures passwordError == ValidatePassword(password)
    {
      var p := Sanitize(value);
      if |p| > MaxPasswordLength {
        p := p[..MaxPasswordLength];
      }
      StoredPasswordClean(value);
      password := p;
      passwordError := ValidatePassword(p);
    }

    /** `isFormInvalid`, which disables the submit button: some field fails its validator. */
    function IsFormInvalid(): (invalid: bool)
      reads this
      ensures !invalid <==> email != "" && EmailPattern(email) && PasswordRule(password)
    {
      ValidateEmail(email) != "" || ValidatePassword(password) != ""
    }

    /**
     * `handleFormSubmit`: overwrites both errors with fresh results and
     * calls `handleLogin` (reported as `loginCalled`) exactly when both are
     * empty, which is exactly when the button was enabled.
     */
    method Submit() returns (loginCalled: bool)
      requires Valid()
      modifies this`emailError, this`passwordError
      ensures Valid()
      ensures emailError == ValidateEmail(email) && passwordError == ValidatePassword(password)
      ensures loginCalled <==> emailError == "" && passwordError == ""
      ensures loginCalled <==> !old(IsFormInvalid())
    {
      var currentEmailError := ValidateEmail(email);
      var currentPasswordError := ValidatePassword(password);
      emailError := currentEmailError;
      passwordError := currentPasswordError;
      loginCalled := currentEmailError == "" && currentPasswordError == "";
    }
  }
}
