/**
 * The C++ user service (cpp-api/src/service/user_service.cpp): reading a registration body,
 * validating it, creating the user through the Postgres repository, the lookups and the
 * hand-built JSON output.
 */
module UserService {
  import opened Wrappers
  import Seqs
  import Text
  import Template
  import opened CppDomain
  import UserValidator
  import JsonRepository

  /** A JSON value as the nlohmann library holds it once the text is parsed. */
  datatype Json =
    | JNull
    | JBool(b: bool)
    | JInt(i: int)
    | JReal(r: real)
    | JString(s: string)
    | JArray(items: seq<Json>)
    | JObject(fields: map<string, Json>)

  /** `j.contains(key) && j[key].is_string()`; contains is false on anything but an object. */
  predicate HasString(j: Json, key: string) {
    j.JObject? && key in j.fields && j.fields[key].JString?
  }

  predicate HasObject(j: Json, key: string) {
    j.JObject? && key in j.fields && j.fields[key].JObject?
  }

  predicate HasInteger(j: Json, key: string) {
    j.JObject? && key in j.fields && j.fields[key].JInt?
  }

  /** `get<int>()`: the stored integer converted to a 32-bit int, modulo 2^32. */
  function ToInt32(i: int): (r: int)
    ensures Text.IntMin <= r <= Text.IntMax
    ensures Text.IntMin <= i <= Text.IntMax ==> r == i
    ensures (r - i) % 0x1_0000_0000 == 0
  {
    (i - Text.IntMin) % 0x1_0000_0000 + Text.IntMin
  }

  /** An axis is overwritten only by an integer member; otherwise the default stays. */
  function Axis(spice: Json, key: string, default: int): int {
    if HasInteger(spice, key) then ToInt32(spice.fields[key].i) else default
  }

  function ParsePreferences(j: Json): SpiceParameters {
    if HasObject(j, "preferences") && HasObject(j.fields["preferences"], "spiceParameters") then
      var spice := j.fields["preferences"].fields["spiceParameters"];
      SpiceParameters(
        Axis(spice, "spiciness", DefaultSpice.spiciness),
        Axis(spice, "stimulation", DefaultSpice.stimulation),
        Axis(spice, "aroma", DefaultSpice.aroma))
    else DefaultSpice
  }

  const MissingUsername := "Missing or invalid 'username' field"
  const MissingEmail := "Missing or invalid 'email' field"

  /**
   * parse_user_json over the outcome of json::parse: a parse error is reported with its
   * message, username and email must be strings, displayName and bio are taken only when
   * they are strings, each axis only when it is an integer, and the user is public.
   */
  function ParseUserJson(parsed: Result<Json, string>): (r: Result<CppUser, string>)
    ensures parsed.Failure? ==> r == Failure("JSON parse error: " + parsed.error)
    ensures parsed.Success? && !HasString(parsed.value, "username") ==> r == Failure(MissingUsername)
    ensures parsed.Success? && HasString(parsed.value, "username") && !HasString(parsed.value, "email") ==>
      r == Failure(MissingEmail)
    ensures r.Success? <==> parsed.Success? && HasString(parsed.value, "username") && HasString(parsed.value, "email")
    ensures r.Success? ==>
      var j := parsed.value;
      var u := r.value;
      && u.isPublic
      && u.id == ""
      && u.username == j.fields["username"].s
      && u.email == j.fields["email"].s
      && (u.displayName.Some? <==> HasString(j, "displayName"))
      && (u.displayName.Some? ==> u.displayName.value == j.fields["displayName"].s)
      && (u.bio.Some? <==> HasString(j, "bio"))
      && (u.bio.Some? ==> u.bio.value == j.fields["bio"].s)
      && u.preferences == ParsePreferences(j)
  {
    match parsed
    case Failure(what) => Failure("JSON parse error: " + what)
    case Success(j) =>
      if !HasString(j, "username") then Failure(MissingUsername)
      else if !HasString(j, "email") then Failure(MissingEmail)
      else
        Success(DefaultUser.(
          username := j.fields["username"].s,
          email := j.fields["email"].s,
          displayName := if HasString(j, "displayName") then Some(j.fields["displayName"].s) else None,
          bio := if HasString(j, "bio") then Some(j.fields["bio"].s) else None,
          preferences := ParsePreferences(j),
          isPublic := true))
  }

  /**
   * Without a `preferences` object holding a `spiceParameters` object every axis is 50.
   * Inside one, an integer member sets its axis to its 32-bit conversion (the value itself
   * when it fits an int); any other member, or none, leaves the axis at 50.
   */
  lemma ParsePreferencesSpec(j: Json)
    ensures !HasObject(j, "preferences") ==> ParsePreferences(j) == DefaultSpice
    ensures HasObject(j, "preferences") && !HasObject(j.fields["preferences"], "spiceParameters") ==>
      ParsePreferences(j) == DefaultSpice
    ensures DefaultSpice == SpiceParameters(50, 50, 50)
    ensures HasObject(j, "preferences") && HasObject(j.fields["preferences"], "spiceParameters") ==>
      var spice := j.fields["preferences"].fields["spiceParameters"];
      var p := ParsePreferences(j);
      && (HasInteger(spice, "spiciness") ==> p.spiciness == ToInt32(spice.fields["spiciness"].i))
      && (HasInteger(spice, "stimulation") ==> p.stimulation == ToInt32(spice.fields["stimulation"].i))
      && (HasInteger(spice, "aroma") ==> p.aroma == ToInt32(spice.fields["aroma"].i))
      && (HasInteger(spice, "spiciness") && Text.IntMin <= spice.fields["spiciness"].i <= Text.IntMax
          ==> p.spiciness == spice.fields["spiciness"].i)
      && (HasInteger(spice, "stimulation") && Text.IntMin <= spice.fields["stimulation"].i <= Text.IntMax
          ==> p.stimulation == spice.fields["stimulation"].i)
      && (HasInteger(spice, "aroma") && Text.IntMin <= spice.fields["aroma"].i <= Text.IntMax
          ==> p.aroma == spice.fields["aroma"].i)
      && (!HasInteger(spice, "spiciness") ==> p.spiciness == 50)
      && (!HasInteger(spice, "stimulation") ==> p.stimulation == 50)
      && (!HasInteger(spice, "aroma") ==> p.aroma == 50)
  {
  }

  /** validate_user: the validators in order, display name and bio only when present. */
  function ValidateUser(user: CppUser): UserValidator.Check {
    var username := UserValidator.ValidateUsername(user.username);
    if username.Failure? then username
    else
      var email := UserValidator.ValidateEmail(user.email);
      if email.Failure? then email
      else if user.displayName.Some? && UserValidator.ValidateDisplayName(user.displayName.value).Failure? then
        UserValidator.ValidateDisplayName(user.displayName.value)
      else if user.bio.Some? && UserValidator.ValidateBio(user.bio.value).Failure? then
        UserValidator.ValidateBio(user.bio.value)
      else
        var spiciness := UserValidator.ValidatePreference(user.preferences.spiciness, "Spiciness");
        if spiciness.Failure? then spiciness
        else
          var stimulation := UserValidator.ValidatePreference(user.preferences.stimulation, "Stimulation");
          if stimulation.Failure? then stimulation
          else UserValidator.ValidatePreference(user.preferences.aroma, "Aroma")
  }

  /** The checks validate_user makes, in the order it makes them. */
  function Checks(user: CppUser): seq<UserValidator.Check> {
    [UserValidator.ValidateUsername(user.username), UserValidator.ValidateEmail(user.email)]
    + (if user.displayName.Some? then [UserValidator.ValidateDisplayName(user.displayName.value)] else [])
    + (if user.bio.Some? then [UserValidator.ValidateBio(user.bio.value)] else [])
    + [UserValidator.ValidatePreference(user.preferences.spiciness, "Spiciness"),
       UserValidator.ValidatePreference(user.preferences.stimulation, "Stimulation"),
       UserValidator.ValidatePreference(user.preferences.aroma, "Aroma")]
  }

  /** The first failing check, or success when none fails. */
  function FirstFailure(checks: seq<UserValidator.Check>): (r: UserValidator.Check)
    ensures r.Success? <==> forall k :: 0 <= k < |checks| ==> checks[k].Success?
    ensures r.Failure? ==>
      exists k :: 0 <= k < |checks| && checks[k] == r && forall j :: 0 <= j < k ==> checks[j].Success?
  {
    if checks == [] then Success(())
    else if checks[0].Failure? then checks[0]
    else
      FirstFailure(checks[1..])
  }

  lemma FirstFailureAppend(a: seq<UserValidator.Check>, b: seq<UserValidator.Check>)
    ensures FirstFailure(a + b) == if FirstFailure(a).Failure? then FirstFailure(a) else FirstFailure(b)
  {
    if a != [] {
      assert (a + b)[0] == a[0];
      assert (a + b)[1..] == a[1..] + b;
      FirstFailureAppend(a[1..], b);
    } else {
      assert a + b == b;
    }
  }

  /**
   * validate_user succeeds exactly when every applicable check does, and otherwise
   * reports the first failing check in the order username, email, display name, bio,
   * spiciness, stimulation, aroma.
   */
  lemma ValidateUserSpec(user: CppUser)
    ensures ValidateUser(user) == FirstFailure(Checks(user))
    ensures ValidateUser(user).Success? <==>
      && UserValidator.ValidateUsername(user.username).Success?
      && UserValidator.ValidateEmail(user.email).Success?
      && (user.displayName.Some? ==> UserValidator.ValidateDisplayName(user.displayName.value).Success?)
      && (user.bio.Some? ==> UserValidator.ValidateBio(user.bio.value).Success?)
      && 0 <= user.preferences.spiciness <= 100
      && 0 <= user.preferences.stimulation <= 100
      && 0 <= user.preferences.aroma <= 100
  {
    var head := [UserValidator.ValidateUsername(user.username), UserValidator.ValidateEmail(user.email)];
    var dn := if user.displayName.Some? then [UserValidator.ValidateDisplayName(user.displayName.value)] else [];
    var bio := if user.bio.Some? then [UserValidator.ValidateBio(user.bio.value)] else [];
    var axes := [UserValidator.ValidatePreference(user.preferences.spiciness, "Spiciness"),
       UserValidator.ValidatePreference(user.preferences.stimulation, "Stimulation"),
       UserValidator.ValidatePreference(user.preferences.aroma, "Aroma")];
    assert Checks(user) == head + dn + bio + axes;
    FirstFailureAppend(head + dn + bio, axes);
    FirstFailureAppend(head + dn, bio);
    FirstFailureAppend(head, dn);
    assert head == [head[0]] + [head[1]];
    FirstFailureAppend([head[0]], [head[1]]);
    assert axes == [axes[0]] + ([axes[1]] + [axes[2]]);
    FirstFailureAppend([axes[0]], [axes[1]] + [axes[2]]);
    FirstFailureAppend([axes[1]], [axes[2]]);
  }

  const NoPostgres := "PostgreSQL repository not available"

  /**
   * create_user_from_json: `hasPostgres` says whether the service holds a Postgres
   * repository, `parsed` is what json::parse made of the body and `add` is that
   * repository's insert.
   */
  function CreateUserFromJson(hasPostgres: bool, parsed: Result<Json, string>, add: CppUser -> Result<CppUser, string>): Result<string, string> {
    if !hasPostgres then Failure(NoPostgres)
    else match ParseUserJson(parsed)
      case Failure(e) => Failure("Invalid JSON: " + e)
      case Success(user) =>
        match ValidateUser(user)
        case Failure(e) => Failure("Validation failed: " + e)
        case Success(_) =>
          match add(user)
          case Failure(e) => Failure(e)
          case Success(inserted) => Success(UserToJson(inserted))
  }

  /**
   * Without Postgres nothing is parsed; parse and validation errors carry their prefixes;
   * the insert is consulted only for a valid user, and its outcome decides the reply.
   */
  lemma CreateUserFromJsonSpec(hasPostgres: bool, parsed: Result<Json, string>,
                               add: CppUser -> Result<CppUser, string>, other: CppUser -> Result<CppUser, string>)
    ensures !hasPostgres ==> CreateUserFromJson(hasPostgres, parsed, add) == Failure(NoPostgres)
    ensures hasPostgres && ParseUserJson(parsed).Failure? ==>
      CreateUserFromJson(hasPostgres, parsed, add) == Failure("Invalid JSON: " + ParseUserJson(parsed).error)
    ensures hasPostgres && ParseUserJson(parsed).Success? && ValidateUser(ParseUserJson(parsed).value).Failure? ==>
      CreateUserFromJson(hasPostgres, parsed, add) == Failure("Validation failed: " + ValidateUser(ParseUserJson(parsed).value).error)
    ensures (ParseUserJson(parsed).Failure? || ValidateUser(ParseUserJson(parsed).value).Failure?) ==>
      CreateUserFromJson(hasPostgres, parsed, add) == CreateUserFromJson(hasPostgres, parsed, other)
    ensures hasPostgres && ParseUserJson(parsed).Success? && ValidateUser(ParseUserJson(parsed).value).Success? ==>
      var inserted := add(ParseUserJson(parsed).value);
      CreateUserFromJson(hasPostgres, parsed, add) ==
        if inserted.Failure? then Failure(inserted.error) else Success(UserToJson(inserted.value))
  {
  }

  // ---- JSON output --------------------------------------------------------

  /** The format string of user_to_json. */
  const UserLayout := Template.Layout("{\"id\":\"", [
    "\",\"username\":\"",
    "\",\"email\":\"",
    "\",\"spiciness\":",
    ",\"stimulation\":",
    ",\"aroma\":",
    "}"])

  /** The arguments of user_to_json, in order. */
  function UserFields(user: CppUser): seq<string> {
    [user.id, user.username, user.email,
     Text.IntToString(user.preferences.spiciness),
     Text.IntToString(user.preferences.stimulation),
     Text.IntToString(user.preferences.aroma)]
  }

  function UserToJson(user: CppUser): string {
    Template.Render(UserLayout, UserFields(user))
  }

  /**
   * The output escapes nothing, yet when id, username and email hold no '"' it can be read
   * back along the same layout: it gives id, username, email and the three axes, in that
   * order, and stoi recovers each axis.
   */
  lemma UserToJsonReadBack(user: CppUser)
    requires '"' !in user.id && '"' !in user.username && '"' !in user.email
    requires Text.IntMin <= user.preferences.spiciness <= Text.IntMax
    requires Text.IntMin <= user.preferences.stimulation <= Text.IntMax
    requires Text.IntMin <= user.preferences.aroma <= Text.IntMax
    ensures Template.Read(UserLayout, UserToJson(user)) == Some(UserFields(user))
    ensures Text.Stoi(UserFields(user)[3]) == Some(user.preferences.spiciness)
    ensures Text.Stoi(UserFields(user)[4]) == Some(user.preferences.stimulation)
    ensures Text.Stoi(UserFields(user)[5]) == Some(user.preferences.aroma)
  {
    var f := UserFields(user);
    Text.IntToStringChars(user.preferences.spiciness);
    Text.IntToStringChars(user.preferences.stimulation);
    Text.IntToStringChars(user.preferences.aroma);
    Template.ReadRender(UserLayout, f);
    Text.StoiIntToString(user.preferences.spiciness, "");
    Text.StoiIntToString(user.preferences.stimulation, "");
    Text.StoiIntToString(user.preferences.aroma, "");
    assert f[3] + "" == f[3] && f[4] + "" == f[4] && f[5] + "" == f[5];
  }

  /** What users_to_json builds: '[', the users' JSON joined by ',', then ']'. */
  function UsersJson(users: seq<CppUser>): string {
    "[" + Text.Join(Seqs.Map(users, UserToJson), ",") + "]"
  }

  /** No users give "[]" and one user gives its object in brackets. */
  lemma UsersJsonSmall(user: CppUser)
    ensures UsersJson([]) == "[]"
    ensures UsersJson([user]) == "[" + UserToJson(user) + "]"
  {
    assert Seqs.Map([user], UserToJson) == [UserToJson(user)];
  }

  /** users_to_json */
  method UsersToJson(users: seq<CppUser>) returns (json: string)
    ensures json == UsersJson(users)
  {
    json := Text.AppendJoined("[", users, UserToJson, ",");
    json := json + "]";
  }

  // ---- lookups ------------------------------------------------------------

  const UserNotFound := "User not found"
  const NoRepository := "No repository available"

  /**
   * The body shared by the three lookups. Each argument is the answer of that repository
   * to the query, or None when the service holds no such repository.
   */
  function LookupJson(postgres: Option<Result<Option<CppUser>, string>>,
                      json: Option<Result<Option<CppUser>, string>>): Result<string, string> {
    var answer := if postgres.Some? then postgres else json;
    match answer
    case None => Failure(NoRepository)
    case Some(Failure(e)) => Failure(e)
    case Some(Success(None)) => Failure(UserNotFound)
    case Some(Success(Some(user))) => Success(UserToJson(user))
  }

  /**
   * Postgres is asked when present and the JSON repository only otherwise; errors pass
   * through unchanged, an absent user gives "User not found" and no repository gives
   * "No repository available".
   */
  lemma LookupJsonSpec(postgres: Option<Result<Option<CppUser>, string>>,
                       json: Option<Result<Option<CppUser>, string>>,
                       otherJson: Option<Result<Option<CppUser>, string>>)
    ensures postgres.Some? ==> LookupJson(postgres, json) == LookupJson(postgres, otherJson)
    ensures postgres.None? && json.None? ==> LookupJson(postgres, json) == Failure(NoRepository)
    ensures var answer := if postgres.Some? then postgres else json;
      && (answer.Some? && answer.value.Failure? ==> LookupJson(postgres, json) == Failure(answer.value.error))
      && (answer == Some(Success(None)) ==> LookupJson(postgres, json) == Failure(UserNotFound))
      && (answer.Some? && answer.value.Success? && answer.value.value.Some? ==>
            LookupJson(postgres, json) == Success(UserToJson(answer.value.value.value)))
  {
  }

  /** get_user_by_id_json; `postgres` is the Postgres repository's find_by_id answer, if it exists. */
  function GetUserByIdJson(postgres: Option<Result<Option<CppUser>, string>>,
                           json: Option<JsonRepository.JsonUserRepository>, id: string): Result<string, string> {
    LookupJson(postgres, if json.Some? then Some(json.value.FindById(id)) else None)
  }

  function GetUserByUsernameJson(postgres: Option<Result<Option<CppUser>, string>>,
                                 json: Option<JsonRepository.JsonUserRepository>, username: string): Result<string, string> {
    LookupJson(postgres, if json.Some? then Some(json.value.FindByUsername(username)) else None)
  }

  function GetUserByEmailJson(postgres: Option<Result<Option<CppUser>, string>>,
                              json: Option<JsonRepository.JsonUserRepository>, email: string): Result<string, string> {
    LookupJson(postgres, if json.Some? then Some(json.value.FindByEmail(email)) else None)
  }

  /** A service built on the JSON repository finds no user, since that repository's parser is a stub. */
  lemma JsonServiceFindsNoUser(repo: JsonRepository.JsonUserRepository, key: string)
    ensures GetUserByIdJson(None, Some(repo), key) == Failure(UserNotFound)
    ensures GetUserByUsernameJson(None, Some(repo), key) == Failure(UserNotFound)
    ensures GetUserByEmailJson(None, Some(repo), key) == Failure(UserNotFound)
  {
    JsonRepository.LookupsFindNothing(JsonRepository.JsonShopRepository(""), repo, key);
  }

  function GetAllUsersJson(): Result<string, string> {
    Failure("Not implemented yet")
  }

  function CreateUserJson(username: string, email: string, preferredSpiceLevel: string): Result<string, string> {
    Failure("Create user not supported in JSON repository")
  }

  /** Listing all users and the JSON-backed create are not implemented: they always fail. */
  lemma UnimplementedAlwaysFail(username: string, email: string, level: string)
    ensures GetAllUsersJson() == Failure("Not implemented yet")
    ensures CreateUserJson(username, email, level).Failure?
  {
  }
}
