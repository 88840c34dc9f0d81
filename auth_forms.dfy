/**
 * The client-side validation of the Lector AI registration form
 * (src/pages/auth/register.tsx) and login form (src/pages/auth/login.tsx).
 * Each `validateForm` fills a dictionary of error messages field by field;
 * the form is valid exactly when the dictionary stays empty. Lengths are
 * counted in characters.
 */
module AuthForms {
  import opened Wrappers
  import opened JsText

  /**
   * `/\S+@\S+\.\S+/.test(email)`: somewhere in the text, a non-space
   * character, '@', a run of non-space characters, '.', and a non-space
   * character follow each other. The text around the match may hold
   * anything, spaces included.
   */
  predicate EmailPattern(s: string)
  {
    exists i, j | 0 <= i < |s| && 0 <= j < |s| :: EmailMatchAt(s, i, j)
  }

  /** The match with '@' at `i` and the '.' at `j`. */
  predicate EmailMatchAt(s: string, i: int, j: int)
  {
    && 1 <= i && i + 2 <= j && j + 1 < |s|
    && s[i] == '@' && s[j] == '.'
    && !IsJsSpace(s[i - 1]) && !IsJsSpace(s[j + 1])
    && forall k :: i < k < j ==> !IsJsSpace(s[k])
  }

  /**
   * The pattern accepts a plain address, accepts an address inside longer
   * text, and refuses a text without a dot after the '@'.
   */
  lemma EmailPatternExamples()
    ensures EmailPattern("jan@firma.cz")
    ensures EmailPattern("pro jan@firma.cz")
    ensures !EmailPattern("a@b")
  {
    assert EmailMatchAt("jan@firma.cz", 3, 9);
    assert EmailMatchAt("pro jan@firma.cz", 7, 13);
  }

  /**
   * The keys of an error dictionary: the form field names `name`, `email`,
   * `password`, `confirmPassword` and `acceptTerms`.
   */
  datatype Field = Name | Email | Password | ConfirmPassword | AcceptTerms

  /** The error messages the two forms show; `MessageText` gives their wording. */
  datatype Message =
    | NameRequired | EmailRequired | EmailInvalid | PasswordRequired | PasswordTooShort
    | ConfirmRequired | PasswordsDiffer | TermsRequired | LoginPasswordTooShort

  function MessageText(m: Message): string
  {
    match m
    case NameRequired => "Jméno je povinné"
    case EmailRequired => "Email je povinný"
    case EmailInvalid => "Neplatný formát emailu"
    case PasswordRequired => "Heslo je povinné"
    case PasswordTooShort => "Heslo musí mít alespoň 8 znaků"
    case ConfirmRequired => "Potvrzení hesla je povinné"
    case PasswordsDiffer => "Hesla se neshodují"
    case TermsRequired => "Musíte souhlasit s podmínkami"
    case LoginPasswordTooShort => "Heslo musí mít alespoň 6 znaků"
  }

  /** The message recorded under `field`, if any. */
  function Lookup(errors: map<Field, Message>, field: Field): Option<Message>
  {
    if field in errors then Some(errors[field]) else None
  }

  // ------------------------------------------------------------ registration

  datatype RegisterData = RegisterData(
    name: string,
    email: string,
    password: string,
    confirmPassword: string,
    organizationName: string,
    acceptTerms: bool)

  /** The rule of each field of the registration form; `organizationName` has none. */
  function RegisterError(form: RegisterData, field: Field): Option<Message>
  {
    match field
    case Name => if Blank(form.name) then Some(NameRequired) else None
    case Email =>
      if form.email == "" then Some(EmailRequired)
      else if !EmailPattern(form.email) then Some(EmailInvalid)
      else None
    case Password =>
      if form.password == "" then Some(PasswordRequired)
      else if |form.password| < 8 then Some(PasswordTooShort)
      else None
    case ConfirmPassword =>
      if form.confirmPassword == "" then Some(ConfirmRequired)
      else if form.password != form.confirmPassword then Some(PasswordsDiffer)
      else None
    case AcceptTerms => if !form.acceptTerms then Some(TermsRequired) else None
  }

  /**
   * `validateForm` of the registration page: each field holds exactly the
   * message its rule gives, and the form is valid when none was recorded.
   */
  method ValidateRegister(form: RegisterData) returns (errors: map<Field, Message>, valid: bool)
    ensures forall f :: Lookup(errors, f) == RegisterError(form, f)
    ensures valid <==> errors == map[]
  {
    var newErrors: map<Field, Message> := map[];
    if Blank(form.name) {
      newErrors := newErrors[Name := NameRequired];
    }
    if form.email == "" {
      newErrors := newErrors[Email := EmailRequired];
    } else if !EmailPattern(form.email) {
      newErrors := newErrors[Email := EmailInvalid];
    }
    if form.password == "" {
      newErrors := newErrors[Password := PasswordRequired];
    } else if |form.password| < 8 {
      newErrors := newErrors[Password := PasswordTooShort];
    }
    if form.confirmPassword == "" {
      newErrors := newErrors[ConfirmPassword := ConfirmRequired];
    } else if form.password != form.confirmPassword {
      newErrors := newErrors[ConfirmPassword := PasswordsDiffer];
    }
    if !form.acceptTerms {
      newErrors := newErrors[AcceptTerms := TermsRequired];
    }
    errors := newErrors;
    valid := |errors| == 0;
    forall f
      ensures Lookup(errors, f) == RegisterError(form, f)
    {
      match f
      case Name =>
      case Email =>
      case Password =>
      case ConfirmPassword =>
      case AcceptTerms =>
    }
  }

  /**
   * A registration passes every rule exactly when the name is not blank, the
   * email matches the pattern, the password has at least 8 characters, the
   * confirmation repeats it and the terms are accepted.
   */
  lemma RegisterRulesPass(form: RegisterData)
    ensures (forall f :: RegisterError(form, f).None?) <==>
              && !Blank(form.name) && EmailPattern(form.email) && |form.password| >= 8
              && form.confirmPassword == form.password && form.acceptTerms
  {
    if forall f :: RegisterError(form, f).None? {
      assert RegisterError(form, Name).None? && RegisterError(form, Email).None?;
      assert RegisterError(form, Password).None? && RegisterError(form, ConfirmPassword).None?;
      assert RegisterError(form, AcceptTerms).None?;
    } else if EmailPattern(form.email) {
      assert form.email != "";
    }
  }

  /**
   * The dictionary the registration validator fills is empty exactly when
   * every rule passes.
   */
  lemma {:induction false} RegisterValidExactly(form: RegisterData, errors: map<Field, Message>)
    requires forall f :: Lookup(errors, f) == RegisterError(form, f)
    ensures errors == map[] <==>
              && Trim(form.name) != "" && EmailPattern(form.email) && |form.password| >= 8
              && form.confirmPassword == form.password && form.acceptTerms
  {
    RegisterRulesPass(form);
    BlankIsTrimmedEmpty(form.name);
    if errors != map[] {
      var f :| f in errors;
      assert Lookup(errors, f).Some?;
    }
  }

  // ------------------------------------------------------------ login

  datatype LoginData = LoginData(email: string, password: string, remember: bool)

  /** `validateForm` of the login page; `remember` is never checked. */
  method ValidateLogin(form: LoginData) returns (errors: map<Field, Message>, valid: bool)
    ensures errors.Keys <= {Email, Password}
    ensures form.email == "" ==> Lookup(errors, Email) == Some(EmailRequired)
    ensures form.email != "" && !EmailPattern(form.email) ==> Lookup(errors, Email) == Some(EmailInvalid)
    ensures EmailPattern(form.email) ==> Email !in errors
    ensures form.password == "" ==> Lookup(errors, Password) == Some(PasswordRequired)
    ensures 0 < |form.password| < 6 ==> Lookup(errors, Password) == Some(LoginPasswordTooShort)
    ensures |form.password| >= 6 ==> Password !in errors
    ensures valid <==> errors == map[]
    ensures valid <==> EmailPattern(form.email) && |form.password| >= 6
  {
    var newErrors: map<Field, Message> := map[];
    if form.email == "" {
      newErrors := newErrors[Email := EmailRequired];
    } else if !EmailPattern(form.email) {
      newErrors := newErrors[Email := EmailInvalid];
    }
    if form.password == "" {
      newErrors := newErrors[Password := PasswordRequired];
    } else if |form.password| < 6 {
      newErrors := newErrors[Password := LoginPasswordTooShort];
    }
    errors := newErrors;
    valid := |errors| == 0;
  }
}
