/** The field validators of the C++ API (cpp-api/src/validation/user_validator.hpp). */
module UserValidator {
  import opened Wrappers
  import EmailFormat

  /** `std::expected<void, std::string>`. */
  type Check = Result<(), string>

  const UsernameTooShort := "Username must be at least 3 characters"
  const UsernameTooLong := "Username must not exceed 100 characters"
  const UsernameInvalid := "Username contains invalid characters"
  const EmailRequired := "Email is required"
  const EmailTooLong := "Email must not exceed 255 characters"
  const EmailInvalid := "Invalid email format"
  const DisplayNameRequired := "Display name is required"
  const DisplayNameTooLong := "Display name must not exceed 255 characters"
  const BioTooLong := "Bio must not exceed 10,000 characters"

  /** `[a-zA-Z0-9_]` */
  predicate IsWordChar(c: char) {
    ('a' <= c <= 'z') || ('A' <= c <= 'Z') || ('0' <= c <= '9') || c == '_'
  }

  predicate AllWordChars(s: string) {
    forall k :: 0 <= k < |s| ==> IsWordChar(s[k])
  }

  /** Lengths first, then the character set. */
  function ValidateUsername(username: string): (r: Check)
    ensures r.Success? <==> 3 <= |username| <= 100 && AllWordChars(username)
    ensures |username| < 3 ==> r == Failure(UsernameTooShort)
    ensures |username| > 100 ==> r == Failure(UsernameTooLong)
    ensures 3 <= |username| <= 100 && !AllWordChars(username) ==> r == Failure(UsernameInvalid)
  {
    if |username| == 0 || |username| < 3 then Failure(UsernameTooShort)
    else if |username| > 100 then Failure(UsernameTooLong)
    else if !AllWordChars(username) then Failure(UsernameInvalid)
    else Success(())
  }

  /** An email is accepted exactly when it is 1..255 characters and well formed. */
  function ValidateEmail(email: string): (r: Check)
    ensures r.Success? <==> 0 < |email| <= 255 && EmailFormat.WellFormed(EmailFormat.CSpace, email)
    ensures email == "" ==> r == Failure(EmailRequired)
    ensures |email| > 255 ==> r == Failure(EmailTooLong)
    ensures 0 < |email| <= 255 && !EmailFormat.WellFormed(EmailFormat.CSpace, email) ==> r == Failure(EmailInvalid)
    ensures r.Failure? ==> r.error in {EmailRequired, EmailTooLong, EmailInvalid}
  {
    EmailFormat.PatternIff(EmailFormat.CSpace, email);
    if email == "" then Failure(EmailRequired)
    else if |email| > 255 then Failure(EmailTooLong)
    else if !EmailFormat.MatchesPattern(EmailFormat.CSpace, email) then Failure(EmailInvalid)
    else Success(())
  }

  function ValidatePreference(value: int, field: string): (r: Check)
    ensures r.Success? <==> 0 <= value <= 100
    ensures r.Failure? ==> r.error == field + " must be between 0 and 100"
  {
    if value < 0 || value > 100 then Failure(field + " must be between 0 and 100") else Success(())
  }

  function ValidateDisplayName(name: string): (r: Check)
    ensures r.Success? <==> 1 <= |name| <= 255
    ensures name == "" ==> r == Failure(DisplayNameRequired)
    ensures |name| > 255 ==> r == Failure(DisplayNameTooLong)
  {
    if name == "" then Failure(DisplayNameRequired)
    else if |name| > 255 then Failure(DisplayNameTooLong)
    else Success(())
  }

  /** An empty bio is allowed. */
  function ValidateBio(bio: string): (r: Check)
    ensures r.Success? <==> |bio| <= 10000
    ensures r.Failure? ==> r.error == BioTooLong
  {
    if |bio| > 10000 then Failure(BioTooLong) else Success(())
  }

  /** Sample inputs: the boundaries of each rule. */
  lemma Boundaries()
    ensures ValidateUsername("abc").Success? && ValidateUsername("ab") == Failure(UsernameTooShort)
    ensures ValidateUsername("ab-c") == Failure(UsernameInvalid)
    ensures ValidatePreference(0, "Aroma").Success? && ValidatePreference(100, "Aroma").Success?
    ensures ValidatePreference(101, "Aroma") == Failure("Aroma must be between 0 and 100")
    ensures ValidateBio("").Success? && ValidateDisplayName("") == Failure(DisplayNameRequired)
  {
    assert !IsWordChar("ab-c"[2]);
    assert "Aroma" + " must be between 0 and 100" == "Aroma must be between 0 and 100";
  }
}
