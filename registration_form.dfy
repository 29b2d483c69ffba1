/**
 * The legacy registration form (frontend-old/src/components/UserRegistrationForm.tsx): its
 * field state, its validation messages, the payload it submits and its error clearing.
 * String lengths are counted in characters.
 */
module RegistrationForm {
  import opened Wrappers
  import opened Domain
  import Text
  import EmailFormat

  /** The text fields of the form. */
  datatype Field = Username | Email | DisplayName | Bio

  /** The spice sliders. */
  datatype Axis = Spiciness | Stimulation | Aroma

  const UsernameRequired := "ユーザー名は必須です"
  const UsernameTooShort := "ユーザー名は3文字以上で" + "入力してください"
  const EmailRequired := "メールアドレスは必須です"
  const EmailInvalid := "有効なメールアドレスを" + "入力してください"
  const DisplayNameRequired := "表示名は必須です"

  /** The slider position every axis starts at. */
  const DefaultSpice := 50

  /** Empty after String.prototype.trim. */
  predicate Blank(s: string) {
    Text.JsTrim(s) == ""
  }

  /** The username check: required, then at least three characters before trimming. */
  function UsernameError(username: string): (r: Option<string>)
    ensures r.None? <==> !Blank(username) && |username| >= 3
    ensures r == Some(UsernameRequired) <==> Blank(username)
    ensures r.Some? ==> r.value in {UsernameRequired, UsernameTooShort}
  {
    if Blank(username) then Some(UsernameRequired)
    else if |username| < 3 then Some(UsernameTooShort)
    else None
  }

  /** The email check: required, then the untrimmed value must be local part '@' domain.tld without whitespace. */
  function EmailError(email: string): (r: Option<string>)
    ensures r.None? <==> !Blank(email) && EmailFormat.WellFormed(EmailFormat.JsSpace, email)
    ensures r == Some(EmailRequired) <==> Blank(email)
    ensures r.Some? ==> r.value in {EmailRequired, EmailInvalid}
  {
    EmailFormat.PatternIff(EmailFormat.JsSpace, email);
    if Blank(email) then Some(EmailRequired)
    else if !EmailFormat.MatchesPattern(EmailFormat.JsSpace, email) then Some(EmailInvalid)
    else None
  }

  function DisplayNameError(displayName: string): (r: Option<string>)
    ensures r.None? <==> !Blank(displayName)
    ensures r.Some? ==> r.value == DisplayNameRequired
  {
    if Blank(displayName) then Some(DisplayNameRequired) else None
  }

  /** The UserRegistration object handed to onRegister. */
  datatype Registration = Registration(
    username: string,
    email: string,
    displayName: string,
    bio: string,
    preferences: Preferences)

  class Form {
    var username: string
    var email: string
    var displayName: string
    var bio: string
    var spicePreferences: SpiceVector
    /** The errors record: a field is a key once validation has flagged it. */
    var errors: map<Field, string>

    /** Empty fields, every slider at 50, no errors. */
    constructor ()
      ensures username == "" && email == "" && displayName == "" && bio == ""
      ensures spicePreferences == SpiceVector(DefaultSpice, DefaultSpice, DefaultSpice)
      ensures errors == map[]
    {
      username := "";
      email := "";
      displayName := "";
      bio := "";
      spicePreferences := SpiceVector(DefaultSpice, DefaultSpice, DefaultSpice);
      errors := map[];
    }

    /**
     * validateForm: rebuilds the errors record with at most one message per field and
     * reports whether it came out empty.
     */
    method ValidateForm() returns (ok: bool)
      modifies this
      ensures ErrorsReflectFields()
      ensures ok <==> errors == map[]
      ensures ok <==> UsernameError(username).None? && EmailError(email).None? && DisplayNameError(displayName).None?
      ensures username == old(username) && email == old(email) && displayName == old(displayName)
      ensures bio == old(bio) && spicePreferences == old(spicePreferences)
    {
      var newErrors: map<Field, string> := map[];
      if Blank(username) {
        newErrors := newErrors[Username := UsernameRequired];
      } else if |username| < 3 {
        newErrors := newErrors[Username := UsernameTooShort];
      }
      EmailFormat.PatternIff(EmailFormat.JsSpace, email);
      if Blank(email) {
        newErrors := newErrors[Email := EmailRequired];
      } else if !EmailFormat.MatchesPattern(EmailFormat.JsSpace, email) {
        newErrors := newErrors[Email := EmailInvalid];
      }
      if Blank(displayName) {
        newErrors := newErrors[DisplayName := DisplayNameRequired];
      }
      errors := newErrors;
      ok := |newErrors| == 0;
      assert ok ==> Username !in errors && Email !in errors && DisplayName !in errors;
    }

    /** The errors record holds, for each validated field, exactly its message, and nothing for the bio. */
    predicate ErrorsReflectFields()
      reads this
    {
      && (Username in errors <==> UsernameError(username).Some?)
      && (Username in errors ==> errors[Username] == UsernameError(username).value)
      && (Email in errors <==> EmailError(email).Some?)
      && (Email in errors ==> errors[Email] == EmailError(email).value)
      && (DisplayName in errors <==> DisplayNameError(displayName).Some?)
      && (DisplayName in errors ==> errors[DisplayName] == DisplayNameError(displayName).value)
      && Bio !in errors
    }

    /** The payload handleSubmit builds from the current fields. */
    function Payload(): (r: Registration)
      reads this
      ensures r.username == Text.JsTrim(username) && r.email == Text.JsTrim(email)
      ensures r.displayName == Text.JsTrim(displayName) && r.bio == Text.JsTrim(bio)
      ensures r.preferences == Preferences(spicePreferences, [], [])
    {
      Registration(Text.JsTrim(username), Text.JsTrim(email), Text.JsTrim(displayName), Text.JsTrim(bio),
                   Preferences(spicePreferences, [], []))
    }

    /** handleSubmit: validates, and passes the trimmed payload to onRegister only when the form is valid. */
    method HandleSubmit() returns (submitted: Option<Registration>)
      modifies this
      ensures submitted.Some? <==> UsernameError(username).None? && EmailError(email).None? && DisplayNameError(displayName).None?
      ensures submitted.Some? ==> submitted.value == Payload() && errors == map[]
      ensures ErrorsReflectFields()
      ensures username == old(username) && email == old(email) && displayName == old(displayName)
      ensures bio == old(bio) && spicePreferences == old(spicePreferences)
    {
      var ok := ValidateForm();
      if !ok {
        return None;
      }
      submitted := Some(Payload());
    }

    /** handleInputChange: sets the field, and blanks that field's error if it had a message. */
    method HandleInputChange(field: Field, value: string)
      modifies this
      ensures field == Username ==> username == value
      ensures field != Username ==> username == old(username)
      ensures field == Email ==> email == value
      ensures field != Email ==> email == old(email)
      ensures field == DisplayName ==> displayName == value
      ensures field != DisplayName ==> displayName == old(displayName)
      ensures field == Bio ==> bio == value
      ensures field != Bio ==> bio == old(bio)
      ensures spicePreferences == old(spicePreferences)
      ensures errors == if field in old(errors) && old(errors)[field] != "" then old(errors)[field := ""] else old(errors)
    {
      match field {
        case Username => username := value;
        case Email => email := value;
        case DisplayName => displayName := value;
        case Bio => bio := value;
      }
      if field in errors && errors[field] != "" {
        errors := errors[field := ""];
      }
    }

    /** handleSpiceChange: moves one slider. */
    method HandleSpiceChange(axis: Axis, value: int)
      modifies this
      ensures spicePreferences == match axis
        case Spiciness => old(spicePreferences).(spiciness := value)
        case Stimulation => old(spicePreferences).(stimulation := value)
        case Aroma => old(spicePreferences).(aroma := value)
      ensures username == old(username) && email == old(email) && displayName == old(displayName)
      ensures bio == old(bio) && errors == old(errors)
    {
      match axis
      case Spiciness => spicePreferences := spicePreferences.(spiciness := value);
      case Stimulation => spicePreferences := spicePreferences.(stimulation := value);
      case Aroma => spicePreferences := spicePreferences.(aroma := value);
    }
  }

  /** Editing a field never touches another field's error. */
  lemma InputChangeLocal(errors: map<Field, string>, field: Field, other: Field)
    requires other != field
    ensures var after := if field in errors && errors[field] != "" then errors[field := ""] else errors;
      (other in after <==> other in errors) && (other in errors ==> after[other] == errors[other])
  {
  }

  /**
   * The length rule reads the untrimmed username: "ab " passes it, and the submitted username
   * is the two-character "ab".
   */
  lemma UntrimmedLength()
    ensures UsernameError("ab ") == None
    ensures |Text.JsTrim("ab ")| == 2
  {
  }
}
