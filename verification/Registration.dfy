/**
 * The registration form's validator: five independent checks, each able to
 * put one message under its field, and the form is sent to the server only
 * when no field has a message. The page's own checks are compared with the
 * server's registration rules.
 */
module Registration {
  import opened Wrappers
  import opened JsString

  datatype Field = FullName | Email | Password | ConfirmPassword | Terms

  /** The inputs of the form; the text fields start empty and are never missing. */
  datatype Form = Form(fullName: string, email: string, password: string, confirmPassword: string, terms: bool)

  /** The messages the validator can show; `Text` is what the page prints. */
  datatype Message =
    | NameRequired | NameTooShort | EmailRequired | EmailInvalid | PasswordRequired
    | PasswordTooShort | ConfirmRequired | PasswordsDiffer | TermsRequired

  function Text(m: Message): string {
    match m
    case NameRequired => "Full name is required"
    case NameTooShort => "Name must be at least 2 characters"
    case EmailRequired => "Email is required"
    case EmailInvalid => "Email is invalid"
    case PasswordRequired => "Password is required"
    case PasswordTooShort => "Password must be at least 6 characters"
    case ConfirmRequired => "Please confirm your password"
    case PasswordsDiffer => "Passwords do not match"
    case TermsRequired => "You must agree to the terms and conditions"
  }

  /** Every check of the validator passes. */
  predicate FormValid(f: Form) {
    Trim(f.fullName) != "" && |f.fullName| >= 2
    && f.email != "" && HasEmailShape(f.email)
    && f.password != "" && |f.password| >= 6
    && f.confirmPassword != "" && f.password == f.confirmPassword
    && f.terms
  }

  /**
   * `validateForm`: the name must be non-blank and at least two characters
   * long as typed, the address must have the `\S+@\S+\.\S+` shape somewhere
   * in it, the password must have six characters, the confirmation must be
   * given and equal the password, and the terms must be accepted. A field
   * gets its first failing check's message and no other.
   */
  method ValidateForm(f: Form) returns (errors: map<Field, Message>)
    ensures FullName in errors <==> Trim(f.fullName) == "" || |f.fullName| < 2
    ensures Trim(f.fullName) == "" ==> errors[FullName] == NameRequired
    ensures Trim(f.fullName) != "" && |f.fullName| < 2 ==> errors[FullName] == NameTooShort
    ensures Email in errors <==> !HasEmailShape(f.email)
    ensures f.email == "" ==> errors[Email] == EmailRequired
    ensures f.email != "" && !HasEmailShape(f.email) ==> errors[Email] == EmailInvalid
    ensures Password in errors <==> |f.password| < 6
    ensures f.password == "" ==> errors[Password] == PasswordRequired
    ensures f.password != "" && |f.password| < 6 ==> errors[Password] == PasswordTooShort
    ensures ConfirmPassword in errors <==> f.confirmPassword == "" || f.password != f.confirmPassword
    ensures f.confirmPassword == "" ==> errors[ConfirmPassword] == ConfirmRequired
    ensures f.confirmPassword != "" && f.password != f.confirmPassword ==> errors[ConfirmPassword] == PasswordsDiffer
    ensures Terms in errors <==> !f.terms
    ensures !f.terms ==> errors[Terms] == TermsRequired
    ensures errors.Keys == {} <==> FormValid(f)
  {
    var blankName := Trim(f.fullName) == "";
    var shapedEmail := HasEmailShape(f.email);
    errors := map[];
    if blankName {
      errors := errors[FullName := NameRequired];
    } else if |f.fullName| < 2 {
      errors := errors[FullName := NameTooShort];
    }
    if f.email == "" {
      errors := errors[Email := EmailRequired];
    } else if !shapedEmail {
      errors := errors[Email := EmailInvalid];
    }
    if f.password == "" {
      errors := errors[Password := PasswordRequired];
    } else if |f.password| < 6 {
      errors := errors[Password := PasswordTooShort];
    }
    if f.confirmPassword == "" {
      errors := errors[ConfirmPassword := ConfirmRequired];
    } else if f.password != f.confirmPassword {
      errors := errors[ConfirmPassword := PasswordsDiffer];
    }
    if !f.terms {
      errors := errors[Terms := TermsRequired];
    }
    var passes := !blankName && |f.fullName| >= 2 && f.email != "" && shapedEmail && |f.password| >= 6
      && f.confirmPassword != "" && f.password == f.confirmPassword && f.terms;
    assert FormValid(f) == passes;
    assert errors.Keys == {} <==>
      FullName !in errors && Email !in errors && Password !in errors && ConfirmPassword !in errors && Terms !in errors;
  }

  /**
   * A form the page lets through passes every check the server makes
   * before it looks at the stored accounts: all four fields are given, the
   * passwords agree and are six characters long, and the name is not blank.
   */
  lemma ValidFormPassesServerChecks(f: Form)
    requires FormValid(f)
    ensures Truthy(Some(f.fullName)) && Truthy(Some(f.email))
    ensures Truthy(Some(f.password)) && Truthy(Some(f.confirmPassword))
    ensures f.password == f.confirmPassword && |f.password| >= 6
    ensures Trim(f.fullName) != ""
  {
  }

  /**
   * The page's address check is looser than the server's: an address with
   * a blank in it gets no message on the form and is refused by the
   * server, which then answers with its generic error.
   */
  lemma FormAcceptsAddressServerRefuses()
    ensures HasEmailShape("a b@c.d")
    ensures !IsEmailShape(ToLower("a b@c.d"))
  {
    var s := "a b@c.d";
    assert s[1] == ' ';
    BlankSurvivesLowering(s, 1);
    BlankInsideEmail();
  }

  /** Lower-casing keeps a blank where it is, so the anchored pattern still refuses the text. */
  lemma BlankSurvivesLowering(s: string, k: nat)
    requires k < |s| && s[k] == ' '
    ensures !IsEmailShape(ToLower(s))
  {
    assert ToLower(s)[k] == ' ';
  }

  /** The name's length is counted before trimming: a blank-padded single letter passes. */
  lemma PaddedShortNamePasses()
    ensures Trim(" a") != "" && |" a"| >= 2
    ensures Trim(" a") == "a"
  {
    var s := " a";
    assert s[1] == 'a' && !IsWhitespace(s[1]);
    assert TrimStart(s) == "a";
  }
}
