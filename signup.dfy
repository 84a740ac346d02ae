/** app/signup/page.tsx: the sign-up form and its submit handler. */
module Signup {

  import opened Wrappers
  import opened PasswordRules

  datatype Field = Email | Password | ConfirmPassword | CompanyName | ContactName | Phone

  /** The form's inputs are named after the state's fields. */
  function ParseField(name: string): (field: Option<Field>)
    ensures field.Some? ==> FieldName(field.value) == name
  {
    if name == "email" then Some(Email)
    else if name == "password" then Some(Password)
    else if name == "confirmPassword" then Some(ConfirmPassword)
    else if name == "companyName" then Some(CompanyName)
    else if name == "contactName" then Some(ContactName)
    else if name == "phone" then Some(Phone)
    else None
  }

  function FieldName(field: Field): (name: string) {
    match field
    case Email => "email"
    case Password => "password"
    case ConfirmPassword => "confirmPassword"
    case CompanyName => "companyName"
    case ContactName => "contactName"
    case Phone => "phone"
  }

  /** Every field is found again under its own name. */
  lemma ParseFieldName(field: Field)
    ensures ParseField(FieldName(field)) == Some(field)
  {
  }

  datatype SignupForm = SignupForm(
    email: string,
    password: string,
    confirmPassword: string,
    companyName: string,
    contactName: string,
    phone: string)
  {
    function Get(field: Field): (value: string) {
      match field
      case Email => email
      case Password => password
      case ConfirmPassword => confirmPassword
      case CompanyName => companyName
      case ContactName => contactName
      case Phone => phone
    }

    /** `{ ...formData, [field]: value }`: that field changes, no other. */
    function With(field: Field, value: string): (f: SignupForm)
      ensures f.Get(field) == value
      ensures forall other :: other != field ==> f.Get(other) == Get(other)
    {
      match field
      case Email => this.(email := value)
      case Password => this.(password := value)
      case ConfirmPassword => this.(confirmPassword := value)
      case CompanyName => this.(companyName := value)
      case ContactName => this.(contactName := value)
      case Phone => this.(phone := value)
    }
  }

  const EmptyForm := SignupForm("", "", "", "", "", "")

  const VerifyEmailPath := "/verify-email"

  class SignupPage {
    var form: SignupForm
    var loading: bool
    var error: string
    /** The last navigation requested with `router.push`. */
    var navigation: Option<string>

    constructor ()
      ensures form == EmptyForm && !loading && error == "" && navigation == None
    {
      form, loading, error, navigation := EmptyForm, false, "", None;
    }

    /**
     * `handleChange`: the input's name picks the field. A name that is not one
     * of the six fields leaves them all as they were.
     */
    method HandleChange(name: string, value: string)
      modifies this
      ensures var field := ParseField(name);
        form == if field.Some? then old(form).With(field.value, value) else old(form)
      ensures loading == old(loading) && error == old(error) && navigation == old(navigation)
    {
      var field := ParseField(name);
      if field.Some? {
        form := form.With(field.value, value);
      }
    }

    /**
     * `handleSignup` with the sign-up call's error, if any: `requested` tells
     * whether the call was made. The error is cleared first; a failed check
     * stops before the call; a failed call shows its message; success moves
     * to the e-mail verification page.
     */
    method HandleSignup(signUpError: Option<string>) returns (requested: bool)
      modifies this
      ensures form == old(form)
      ensures var check := ValidatePassword(form.password, form.confirmPassword);
        && (requested <==> check.None?)
        && (check.Some? ==> error == check.value && !loading && navigation == old(navigation))
        && (check.None? && signUpError.Some? ==>
              error == signUpError.value && !loading && navigation == old(navigation))
        && (check.None? && signUpError.None? ==>
              error == "" && loading && navigation == Some(VerifyEmailPath))
    {
      loading := true;
      error := "";
      var check := ValidatePassword(form.password, form.confirmPassword);
      if check.Some? {
        error := check.value;
        loading := false;
        return false;
      }
      requested := true;
      if signUpError.Some? {
        error := signUpError.value;
        loading := false;
      } else {
        navigation := Some(VerifyEmailPath);
      }
    }
  }
}
