# Spice Road Nara — a Dafny model of its core logic

Spice Road Nara finds curry shops in Nara Prefecture and ranks them by how well their
spice profile (spiciness, stimulation, aroma, each 0–100) matches a user's taste. The
repository has four parts:

- an Express API over JSON files: shop search, match scores, rankings, recommendations,
  public user profiles and registration;
- a C++ API: an HTTP router, shop and user services that render JSON, a read-only JSON
  repository and a user validator;
- a React frontend: the filter bar, coordinate checks and a geolocation hook;
- a legacy frontend, with a registration form and an older geolocation hook.

A one-off script also fills in missing shop regions.

The model describes each piece in terms of its own inputs:

- the loaded shop and user lists;
- the JSON value a parser produced;
- the positions and error codes the browser reports;
- the clock reading, the fresh id and the timestamp.

It then proves what each piece promises.

| file | models |
|---|---|
| `wrappers.dfy` | `Option` and `Result` |
| `seqs.dfy` | filter, map, find, `indexOf`/`find`, `includes`, sub-sequences |
| `text.dfy` | ASCII lowering, `trim`, decimal rendering, `std::stoi`, join, split |
| `template.dfy` | `std::format` with string holes, and reading the holes back |
| `stable_sort.dfy` | the stable `Array.prototype.sort` by a numeric key |
| `domain.dfy`, `cpp_domain.dfy` | the record shapes of the two APIs |
| `matching.dfy` | `calculateMatchScore` |
| `express_api.dfy` | the Express route handlers |
| `filter_bar.dfy` | the FilterBar component |
| `email_format.dfy` | the email pattern shared by the C++ validator and the form |
| `user_validator.dfy` | `UserValidator` |
| `user_service.dfy` | `UserService` |
| `shop_service.dfy` | `ShopService` |
| `json_repository.dfy` | `JsonShopRepository` and `JsonUserRepository` |
| `router.dfy` | `Router` |
| `coordinates.dfy` | the coordinate utilities |
| `geolocation.dfy` | both `useGeolocation` hooks, told apart by a `Version` |
| `registration_form.dfy` | `UserRegistrationForm` |
| `regions.dfy` | `add_regions.js` |

Decisions that apply across the model:

- Numbers:
  - JavaScript numbers are exact integers or reals. `Coordinates.Num` adds NaN and the
    two infinities, which the coordinate checks test for.
  - The match score is computed in exact integer arithmetic. `S = 35·d₁' + 35·d₂' + 30·d₃'`,
    where `dᵢ' = 100 − |difference on axis i|`, and `Math.round(S/100) = (S + 50) div 100`.
  - C++ `int` values coming from the JSON parser wrap to 32 bits (`UserService.ToInt32`).
    `std::stoi` fails on a value outside the range of `int`.
- Strings:
  - Strings are sequences of characters. `length` counts characters, not UTF-16 code
    units or bytes.
  - `toLowerCase` lowers ASCII letters only.
  - `trim` and the regex class `\s` use the ECMAScript whitespace set in JavaScript code,
    and the six C-locale `isspace` characters in C++ code.
- Regular expressions become predicates. `^[^\s@]+@[^\s@]+\.[^\s@]+$` is
  `EmailFormat.MatchesPattern`, proved equivalent to the plain reading
  `EmailFormat.WellFormed` ("local part, one '@', a domain with an inner '.'").
- Formatting and parsing:
  - `std::format` with string holes is a `Template.Layout`. The number holes of
    `shop_to_json` take a formatting function `fmt` as a parameter.
  - The JSON text parser is abstracted away: `parse_user_json` receives the parse
    outcome, a `Result<Json, string>`.
- Outside inputs: the clock, the fresh UUID, the success of file writes, and the browser's
  geolocation answers and its distance function are all parameters.

## Model

| member | source | states |
|---|---|---|
| Matching.MatchScore | api/dist/app.js:70-80 | for spice vectors with every axis in 0..100, the score lies in 0..100 |
| Matching.ScoreBounds | api/dist/app.js:70-80 | the score of two in-range vectors lies in 0..100 |
| Matching.RoundIsNearest | api/dist/app.js:79 | the integer rounding used for the score is round-to-nearest with halves going up, as `Math.round` does |
| Matching.IdenticalScoresHundred | api/dist/app.js:70-79 | a vector compared with itself scores exactly 100 |
| Matching.OppositeCornersScoreZero | api/dist/app.js:70-79 | {0,0,0} against {100,100,100} scores 0 |
| Matching.WorkedExample | api/dist/app.js:76-79 | {50,50,50} against {60,40,70} scores round(31.5+31.5+24) = 87 |
| Matching.Symmetric | api/dist/app.js:71-73 | swapping the user and the shop does not change the score |
| Matching.MonotoneInDiffs | api/dist/app.js:76-79 | making any axis difference larger, and none smaller, never raises the score |
| Matching.FartherShopScoresNoHigher | api/dist/app.js:71-79 | a shop at least as far from the user on every axis as another shop scores no higher |
| StableSort.SortCorrect | api/dist/app.js:102 | the sort is non-increasing in the key, is a permutation, and keeps equal-key elements in input order |
| ExpressApi.SearchSpec | api/dist/app.js:86-93 | without a non-empty string `search`, all shops come back in stored order; with one, exactly the shops whose lowercased name, address or description contains the lowercased term, in stored order |
| ExpressApi.FindUser | api/dist/app.js:97 | the result is a stored user with the id, and is absent exactly when no stored user has the id |
| ExpressApi.ListShopsSpec | api/dist/app.js:82-105 | for a known `userId` the searched list comes back as a permutation of itself, each shop with its own score, scores non-increasing, ties in stored order; otherwise the searched list comes back unchanged and unscored |
| ExpressApi.RecommendationsSpec | api/dist/app.js:230-248 | an unknown user gets 404; otherwise at most ten shops, none disliked, each with its own score, non-increasing: a prefix of the full dislike-filtered ranking, and exactly ten when at least ten are available |
| ExpressApi.GetShopSpec | api/dist/app.js:112-119 | 404 exactly when no stored shop has the id; otherwise the first stored shop with that id |
| ExpressApi.PublicUsersSpec | api/dist/app.js:127-140 | exactly the projections {id, displayName, bio, preferences, createdAt} of public users, as a sub-sequence of the projected list in stored order |
| ExpressApi.GetUserProfileSpec | api/dist/app.js:147-165 | 404 exactly for an unknown id; for a stored user with the id, 403 "User profile is private" when it is private and 200 with its public projection when it is public |
| ExpressApi.RegistrationSpec | api/dist/app.js:172-208 | a missing field gives 400 before the duplicate check; a case-insensitive duplicate gives 409 before the spice check; a complete, clash-free body with a missing or out-of-range spice vector gives 400 with the spice message, and with an in-range one is accepted as the new user; every failure is 400 or 409; an accepted user is public, carries the fresh id and timestamp, has in-range axes, a '' bio and empty lists by default, and clashes with no stored user |
| ExpressApi.RegistrationKeepsUnique | api/dist/app.js:180-209 | appending an accepted user keeps usernames and emails unique ignoring case |
| ExpressApi.UserStore.Register | api/dist/app.js:172-223 | a rejected request leaves the list unchanged and replies with its status; an accepted one appends exactly the new user and replies 201 with its projection, or 500 when saving fails; case-insensitive uniqueness is preserved |
| FilterBar.ApplyFiltersSpec | frontend/src/components/FilterBar.tsx:69-99 | the result is a sub-sequence of the shops (empty when `shops` is not an array); a shop is kept exactly when it matches the trimmed, lowercased query (if one is given) in name, address, description or region, and its region is among the selected ones (if any are selected) |
| FilterBar.SimilarUsersIgnored | frontend/src/components/FilterBar.tsx:90-96 | the similar-users selection never changes the filtered list |
| FilterBar.ToggleSpec | frontend/src/components/FilterBar.tsx:107-123 | a present item is removed, along with every copy of it, and the rest keep their order; an absent item is appended |
| FilterBar.ToggleTwice | frontend/src/components/FilterBar.tsx:107-114 | on a duplicate-free list, toggling twice gives a duplicate-free list with the same items, and the very same list when the item was absent |
| FilterBar.ActiveFiltersSpec | frontend/src/components/FilterBar.tsx:125-133 | there are active filters exactly when the count is positive; after clearing, there are none |
| FilterBar.Dedup | frontend/src/components/FilterBar.tsx:62 | the `Set` step gives a duplicate-free list with the same elements |
| FilterBar.SortStringsSpec | frontend/src/components/FilterBar.tsx:63 | sorting a duplicate-free list gives a strictly increasing list with the same elements |
| FilterBar.AvailableRegionsSpec | frontend/src/components/FilterBar.tsx:61-63 | the regions are strictly sorted, duplicate-free, never '', and are exactly the non-empty regions of the shops |
| EmailFormat.PatternIff | cpp-api/src/validation/user_validator.hpp:40-43 | the pattern accepts exactly a non-empty local part, one '@' and a domain with an inner '.', with no whitespace; such an address has exactly one '@' |
| UserValidator.ValidateUsername | cpp-api/src/validation/user_validator.hpp:12-27 | accepted exactly for 3..100 word characters; too short, too long and invalid characters each give their own message |
| UserValidator.ValidateEmail | cpp-api/src/validation/user_validator.hpp:31-46 | accepted exactly for a well-formed address of 1..255 characters; an empty address gives "Email is required", one over 255 characters the length message, and a malformed one of 1..255 characters "Invalid email format" |
| UserValidator.ValidatePreference | cpp-api/src/validation/user_validator.hpp:50-55 | accepted exactly in 0..100; the message names the field |
| UserValidator.ValidateDisplayName | cpp-api/src/validation/user_validator.hpp:59-67 | accepted exactly for 1..255 characters |
| UserValidator.ValidateBio | cpp-api/src/validation/user_validator.hpp:71-76 | accepted exactly for at most 10000 characters |
| UserValidator.Boundaries | cpp-api/src/validation/user_validator.hpp:12-76 | the boundary cases "abc", "ab", "ab-c", 0, 100, 101, an empty bio and an empty display name |
| UserService.ToInt32 | cpp-api/src/service/user_service.cpp:177 | `get<int>` keeps a value in the `int` range and otherwise wraps it modulo 2³² into that range |
| UserService.ParseUserJson | cpp-api/src/service/user_service.cpp:143-200 | a parse error, a missing or non-string username, and a missing or non-string email each give their own error; otherwise a public user with the given username and email, an optional display name and bio exactly when given as strings, and the spice preferences read from the object as ParsePreferencesSpec describes |
| UserService.ParsePreferencesSpec | cpp-api/src/service/user_service.cpp:169-186 | without a `preferences` object, or with one that holds no `spiceParameters` object, every axis is 50; inside `spiceParameters` each of the three axes is the 32-bit conversion of an integer member (the member itself when it fits an `int`), and 50 when the member is missing or not an integer |
| UserService.FirstFailure | cpp-api/src/service/user_service.cpp:202-254 | the chain succeeds exactly when every check succeeds, and otherwise fails with the first failing check |
| UserService.FirstFailureAppend | cpp-api/src/service/user_service.cpp:202-254 | a chain of checks followed by more checks fails with the first chain's failure when it has one |
| UserService.ValidateUserSpec | cpp-api/src/service/user_service.cpp:202-254 | `validate_user` is the chain of username, email, the display name and bio when present, and the three axes; it succeeds exactly when each of them is valid |
| UserService.CreateUserFromJsonSpec | cpp-api/src/service/user_service.cpp:114-141 | without PostgreSQL, an error before anything else; parse and validation errors get their prefixes and never reach the insert; otherwise the insert's error, or the JSON of the inserted user |
| UserService.UserToJsonReadBack | cpp-api/src/service/user_service.cpp:106-112 | when the strings contain no '"', the rendered object's fields read back as id, username, email, and axes that parse back to the user's values |
| UserService.UsersJsonSmall | cpp-api/src/service/user_service.cpp:96-104 | no users render as "[]", one user as "[" + its object + "]" |
| UserService.UsersToJson | cpp-api/src/service/user_service.cpp:96-104 | the loop produces "[" + the users' objects joined by "," + "]" |
| UserService.LookupJsonSpec | cpp-api/src/service/user_service.cpp:20-87 | PostgreSQL takes precedence over the JSON repository; without either there is an error; the chosen repository's error is passed on, a missing user gives "User not found", and a found one gives its JSON |
| UserService.JsonServiceFindsNoUser | cpp-api/src/service/user_service.cpp:30-39 | over the JSON repository every lookup answers "User not found" |
| UserService.UnimplementedAlwaysFail | cpp-api/src/service/user_service.cpp:16-18 | listing users fails with "Not implemented yet", and `create_user_json` always fails |
| Text.Stoi | cpp-api/src/service/shop_service.cpp:53 | a parsed level always lies in the range of `int` |
| ShopService.SpiceLevelParsing | cpp-api/src/service/shop_service.cpp:51-56 | "70" and "70abc" parse to 70 and "-5" to −5; "abc" and "" are rejected |
| ShopService.ShopToJsonReadBack | cpp-api/src/service/shop_service.cpp:102-113 | when the string fields have no '"' and the formatted numbers have no ',', the thirteen fields read back from the rendered object in order |
| ShopService.ShopsJsonSmall | cpp-api/src/service/shop_service.cpp:92-100 | no shops render as "[]", one shop as "[" + its object + "]" |
| ShopService.ShopsToJson | cpp-api/src/service/shop_service.cpp:92-100 | the loop produces "[" + the shops' objects joined by "," + "]" |
| Text.AppendJoined | cpp-api/src/service/shop_service.cpp:93-98 | appending each rendering with "," before all but the first gives the prefix followed by the renderings joined by "," |
| ShopService.GetAllShopsJson | cpp-api/src/service/shop_service.cpp:11-17 | the repository's error is passed on; otherwise the JSON array of all shops |
| ShopService.GetShopByIdJson | cpp-api/src/service/shop_service.cpp:19-30 | the repository's error is passed on, no shop gives "Shop not found", and a found shop gives its object |
| ShopService.SearchShopsByNameJson | cpp-api/src/service/shop_service.cpp:32-47 | the repository's error is passed on; otherwise the JSON array of the shops whose name contains the term, in stored order |
| CppDomain.NameMatchesSpec | cpp-api/src/service/shop_service.cpp:39-44 | the name matches are a sub-sequence of the shops, holding exactly those whose name contains the term, and all of them for an empty term |
| ShopService.SpiceMatchesSpec | cpp-api/src/service/shop_service.cpp:63-68 | the spice matches are a sub-sequence, holding exactly the shops with spiciness at least the level |
| ShopService.SearchShopsBySpiceLevelJson | cpp-api/src/service/shop_service.cpp:49-71 | an unparsable level gives "Invalid spice level" before the repository is read, a repository error is passed on, and otherwise the JSON array of the shops at or above the parsed level |
| JsonRepository.FirstWhere | cpp-api/src/repository/json_repository.cpp:22-37 | errors are passed on; the result is the first element satisfying the predicate, and is absent exactly when none does |
| JsonRepository.SearchByNameIn | cpp-api/src/repository/json_repository.cpp:54-70 | the loop returns the shops whose name contains the term, in stored order, or passes on the error |
| JsonRepository.JsonShopRepository.SearchByName | cpp-api/src/repository/json_repository.cpp:54-70 | the repository's name search filters what `find_all` gives, which is always empty |
| JsonRepository.ReadOnly | cpp-api/src/repository/json_repository.cpp:39-52 | add, update and remove always fail with their "not supported" messages, for shops and users alike |
| JsonRepository.LookupsFindNothing | cpp-api/src/repository/json_repository.cpp:79-84 | since the parse stubs recognise nothing, every listing is empty, every lookup finds nothing, and the spice-level search is `find_all` |
| Router.ExtractMethod | cpp-api/src/router/router.cpp:185-191 | "GET" when the request has no space; otherwise the space-free text before the first space |
| Router.ExtractPath | cpp-api/src/router/router.cpp:173-183 | "/" when the request has no space; the path never contains a space |
| Router.OneSpacePath | cpp-api/src/router/router.cpp:179-180 | a request line with only one space, between a space-free verb and target, has path "/" |
| Router.RequestLineRoundTrip | cpp-api/src/router/router.cpp:173-191 | for "METHOD TARGET rest" with space-free method and target, the method and the target are recovered |
| Router.ExtractBody | cpp-api/src/router/router.cpp:193-204 | the body is a suffix of the request, or empty; it is empty when the request holds neither "\r\n\r\n" nor "\n\n" |
| Router.LfBlankLine | cpp-api/src/router/router.cpp:197-201 | without any "\r\n\r\n", a header with no carriage return and no earlier blank line, then "\n\n", then the body, gives back exactly the body |
| Router.ExtractionFallbacks | cpp-api/src/router/router.cpp:173-204 | "GET /x" has path "/", and "POST /a\n\nxy" has body "xy" |
| Router.ResponseRoundTrip | cpp-api/src/router/router.cpp:140-157 | from a response built for any body, `extract_body` recovers the body exactly; the Content-Length digits read back as the body's length; the response starts with its status line |
| Router.ExtractQueryParams | cpp-api/src/router/router.cpp:206-229 | the loop's map is the fold of the '&'-separated segments after the first '?' |
| Router.ParamsOfKeys | cpp-api/src/router/router.cpp:219-226 | a key is in the map exactly when some segment has a '=' and that key before it |
| Router.ParamsOfLast | cpp-api/src/router/router.cpp:219-226 | a key's value comes from the last segment that names the key |
| Router.NoQueryNoParams | cpp-api/src/router/router.cpp:209-212 | a path without '?' has no parameters |
| Router.ExtractPathParam | cpp-api/src/router/router.cpp:231-248 | the parameter follows the prefix, is non-empty, and runs to the end of the path or to the first '?'; it is absent exactly when the prefix does not match or nothing comes before the end or the '?' |
| Router.PathParamRoundTrip | cpp-api/src/router/router.cpp:231-248 | prefix + id + an optional "?query" gives back the id |
| Router.StatusText | cpp-api/src/router/router.cpp:129-138 | the reason is "Unknown" exactly for codes other than 200, 201, 400, 404 and 500 |
| Router.StatusLines | cpp-api/src/router/router.cpp:129-156 | the status lines for 200, 201 and 404 are "HTTP/1.1 200 OK", "HTTP/1.1 201 Created" and "HTTP/1.1 404 Not Found" |
| Router.ErrorCodeReadBack | cpp-api/src/router/router.cpp:163-171 | with an error code, the error body reads back as the message and the code |
| Router.ErrorOnlyReadBack | cpp-api/src/router/router.cpp:163-171 | without an error code, the error body reads back as the message |
| Router.NoCodeMember | cpp-api/src/router/router.cpp:165-166 | without an error code, the body has no "code" member |
| Router.PathOnly | cpp-api/src/router/router.cpp:22-23 | the routed path is the prefix of the target before any '?' |
| Router.RouteRequestLine | cpp-api/src/router/router.cpp:17-24 | a request line's route is dispatched on its method and its path without the query, and receives the query's parameters |
| Router.DispatchSpec | cpp-api/src/router/router.cpp:26-64 | /health and /api/health, and /metrics and /api/metrics, are the same endpoint; only GET, and POST to /api/users, reach an endpoint; empty ids are never found |
| Router.DispatchById | cpp-api/src/router/router.cpp:42-61 | GET /api/shops/ID and GET /api/users/ID reach the by-id handlers with ID |
| Router.HandleGetShopByIdSpec | cpp-api/src/router/router.cpp:85-93 | when the shops JSON contains `"id":"ID"`, a 200 response whose body is the whole shops JSON; otherwise a 404 "Shop not found" |
| Router.HandleGetUserByIdSpec | cpp-api/src/router/router.cpp:108-114 | when the users JSON contains `"id":"ID"`, a 200 response whose body is the whole users JSON; otherwise a 404 "User not found" |
| Router.RouteShopById | cpp-api/src/router/router.cpp:17-47 | a GET of /api/shops/ID with or without a query is answered by the by-id handler |
| Router.RouteNotFound | cpp-api/src/router/router.cpp:63-64 | a request that reaches no endpoint gets a 404 "Endpoint not found" |
| Coordinates.ValidateLatitude | frontend/src/utils/coordinates.ts:8-10 | true exactly for a finite number in -90..90 |
| Coordinates.ValidateLongitude | frontend/src/utils/coordinates.ts:15-17 | true exactly for a finite number in -180..180 |
| Coordinates.ValidateCoordinates | frontend/src/utils/coordinates.ts:22-24 | true exactly when both numbers are finite, the latitude is in -90..90 and the longitude in -180..180 |
| Coordinates.IsValidJapanCoordinate | frontend/src/utils/coordinates.ts:30-35 | true exactly for finite coordinates in latitude 24..46 and longitude 123..146, which are then valid coordinates |
| Coordinates.NormalizeCoordinates | frontend/src/utils/coordinates.ts:66-89 | the lat/lng keys win over latitude/longitude; an object with neither pair throws "Invalid coordinate object"; an invalid pair throws naming both values; a result is always valid |
| Coordinates.RangeBoundaries | frontend/src/utils/coordinates.test.ts:12-40 | ±90 and ±180 are accepted; 91, -91, 181, -181, NaN and Infinity are rejected |
| Coordinates.NaraExamples | frontend/src/utils/coordinates.test.ts:43-72 | Nara is valid and its swapped pair is not; Nara, Tokyo and Sapporo are in Japan; Null Island and New York are not |
| Coordinates.NormalizeKeyForms | frontend/src/utils/coordinates.test.ts:88-97 | both key forms give [lat, lng] |
| Coordinates.NormalizeRejects | frontend/src/utils/coordinates.test.ts:99-102 | latitude 91 and longitude 181 throw, and so does an object without a complete key pair |
| Geolocation.ShouldUpdate | frontend/src/hooks/useGeolocation.ts:65-99 | an accepted position is a first fix or at least 5000 ms after the last update; after a first fix it is also at most the version's accuracy limit and at least the threshold away |
| Geolocation.CurrentGate | frontend/src/hooks/useGeolocation.ts:65-99 | the current hook accepts exactly a first fix (whatever its accuracy and time), or a position at least 5000 ms later, with accuracy at most 1000 and at least the threshold away |
| Geolocation.LegacyGate | frontend-old/src/hooks/useGeolocation.ts:65-94 | the legacy hook accepts exactly a position at least 5000 ms after the last update, with accuracy at most 100, and, after a first fix, at least the threshold away |
| Geolocation.FirstFixDiffers | frontend-old/src/hooks/useGeolocation.ts:65-94 | well past the 5000 ms interval, a 500 m-accurate first fix is accepted by the current hook and rejected by the legacy one for its accuracy alone; a 50 m-accurate first fix is accepted by the legacy one |
| Geolocation.AcceptedThenQuiet | frontend/src/hooks/useGeolocation.ts:75-78 | for 5000 ms after an accepted update, no position is accepted |
| Geolocation.ErrorMessage | frontend/src/hooks/useGeolocation.ts:132-155 | codes 1, 2 and 3 get the permission, unavailable and timeout messages, with the versions' own wording, and any other code gets the generic message |
| Geolocation.ErrorMessagesDistinct | frontend/src/hooks/useGeolocation.ts:132-155 | within a version, two different codes get different messages unless both fall to the generic message |
| Geolocation.GeolocationHook.constructor | frontend/src/hooks/useGeolocation.ts:37-46 | no location, error, accuracy or timestamp; loading; empty refs with time 0 |
| Geolocation.GeolocationHook.HandleLocationUpdate | frontend/src/hooks/useGeolocation.ts:102-129 | the position is accepted exactly when the gate says so; a rejected one changes nothing; an accepted one sets location, accuracy and timestamp, clears the error, stops loading and updates both refs; a legacy hook (`frontend-old/src/hooks/useGeolocation.ts`, lines 97-116) does the same with its own gate |
| Geolocation.GeolocationHook.HandleLocationError | frontend/src/hooks/useGeolocation.ts:132-159 | the error becomes the code's message and loading stops; the location state and refs are unchanged |
| Geolocation.GeolocationHook.StartLocationTracking | frontend/src/hooks/useGeolocation.ts:162-171 | without geolocation support, the "not supported" error and no loading; otherwise loading with no error |
| Geolocation.GeolocationHook.RefreshLocation | frontend/src/hooks/useGeolocation.ts:199-227 | without support nothing changes; a fresh position is taken without the gate; a failure goes through the error handler; the legacy hook's version (lines 177-205 of its file) behaves the same |
| Geolocation.GeolocationHook.CenterOnLocation | frontend/src/hooks/useGeolocation.ts:230-236 | with a location nothing happens; without one the location is refreshed, which changes nothing without support, takes a fresh position as the whole new state, or records the error message and stops loading |
| RegistrationForm.UsernameError | frontend-old/src/components/UserRegistrationForm.tsx:33-37 | no error exactly when the username is not blank and has at least three characters before trimming; "required" exactly when it is blank |
| RegistrationForm.EmailError | frontend-old/src/components/UserRegistrationForm.tsx:39-43 | no error exactly when the email is not blank and the untrimmed value is a well-formed address; "required" exactly when it is blank |
| RegistrationForm.DisplayNameError | frontend-old/src/components/UserRegistrationForm.tsx:45-47 | "required" exactly when the display name is blank |
| RegistrationForm.Form.constructor | frontend-old/src/components/UserRegistrationForm.tsx:15-28 | empty fields, every spice axis at 50, no errors |
| RegistrationForm.Form.ValidateForm | frontend-old/src/components/UserRegistrationForm.tsx:30-51 | the errors record holds, for each field, exactly its one message when it has one, and nothing for the bio; the result is true exactly when the record is empty, which is when no field has an error; the fields are unchanged |
| RegistrationForm.Form.Payload | frontend-old/src/components/UserRegistrationForm.tsx:60-70 | trimmed username, email, display name and bio, the current spice preferences, and empty favourite and dislike lists |
| RegistrationForm.Form.HandleSubmit | frontend-old/src/components/UserRegistrationForm.tsx:53-73 | the errors record is rebuilt as validation sets it, holding each field's message; a payload is submitted exactly when no field has an error, and it is the trimmed payload; the fields are unchanged |
| RegistrationForm.Form.HandleInputChange | frontend-old/src/components/UserRegistrationForm.tsx:75-80 | only the edited field changes, and only its error is blanked, and only when it had a message |
| RegistrationForm.InputChangeLocal | frontend-old/src/components/UserRegistrationForm.tsx:75-80 | editing a field never changes another field's error |
| RegistrationForm.Form.HandleSpiceChange | frontend-old/src/components/UserRegistrationForm.tsx:82-84 | only the chosen axis changes |
| RegistrationForm.UntrimmedLength | frontend-old/src/components/UserRegistrationForm.tsx:33-37 | "ab " passes the length rule, although the submitted username "ab" has two characters |
| Regions.ExtractRegionIsFirstMatch | database/add_regions.js:7-22 | the chain of tests is the first-match search over the eleven names in listed order, falling back to 'その他' |
| Regions.ExtractRegionSpec | database/add_regions.js:7-22 | the result is a listed name or 'その他'; a listed name only when the address contains it and no earlier name; 'その他' exactly when the address contains no name; never '' |
| Regions.NaraFirst | database/add_regions.js:8 | an address containing '奈良市' is classified as '奈良市', whatever else it contains |
| Regions.FillRegion | database/add_regions.js:26-28 | a truthy region is kept unchanged; a missing or empty one becomes the address's region; the shop always ends up with a truthy region and nothing else changes |
| Regions.FillMissingSpec | database/add_regions.js:25-30 | the pass keeps length and order, changes nothing but regions, keeps truthy regions, fills the others from the address, and applying it twice equals applying it once |
| Regions.AddRegions | database/add_regions.js:25-30 | the in-place loop leaves the array equal to the pass applied to its old contents |

## Left out

- File and network I/O are not modelled. This covers loading and saving `shops.json` and `users.json` and their path fallbacks, `app.listen` and the `/health` handler, the file read and write of `add_regions.js`, and the socket server in `main.cpp`. The loaded lists are parameters, and so are the outcome of `saveUsersData`, `crypto.randomUUID()` and `new Date().toISOString()`.
- The PostgreSQL repositories and the connection pool are not part of this model. A repository's answer is a parameter of the service that uses it.
- Haversine distances are left out: `calculateDistance` in the coordinate utilities, the hooks' distance function and `find_nearby_shops_json`/`calculate_distance` in the shop service. The hooks take the distance as an uninterpreted parameter.
- Floating point is replaced by exact arithmetic.
  - The match score uses exact integers, not IEEE doubles.
  - Coordinates are exact reals.
  - How `std::format` renders a `double` is the parameter `fmt`.
- The nlohmann JSON text parser is abstracted: `parse_user_json` receives the parse outcome. The "JSON type error" branch cannot be reached when every access is guarded, so it is not modelled.
- Unicode case mapping is not modelled: `Text.Lower` maps ASCII letters only.
- FilterBar.SortStringsSpec: `StrLt` orders strings by Unicode code point, while `Array.prototype.sort` compares UTF-16 code units. The two orders differ when a character above U+FFFF meets one in U+E000–U+FFFF: JavaScript puts "𠮷" (surrogates D842 DFB7) before "ｱ" (U+FF71), and `SortStrings` puts "ｱ" first.
- String lengths count characters, so the username length rule of the form and the C++ length limits are in characters, not UTF-16 code units or bytes.
- `extract_query_params` reads the query with `std::getline`. The model splits it on '&' instead. The two give the same map, because the extra empty segment this can produce has no '=' and is skipped; this equivalence is not proved.
- `handle_health`, `handle_metrics`, `handle_openapi_spec` and `handle_post_user` return fixed texts and are modelled as constants. `handle_get_shops` ignores its query parameters, as the source does.
- The C++ `User` record follows its use in `user_service.cpp`: display name, bio, public flag and spice preferences. `cpp-api/src/domain/user.hpp` declares none of these; it has a preferred spice level and shop-id lists instead. The default preference of 50 per axis comes from `SpiceParameters` in `shop.hpp`.
- JSON key order in the Express API's responses is not modelled.
- Geolocation.GeolocationHook.StartLocationTracking: the calls to `getCurrentPosition` and `watchPosition` are left out; the browser's later callbacks are the methods HandleLocationUpdate and HandleLocationError.
- The mount effect and the periodic refresh timer of both hooks are not modelled. They depend on `setInterval`, `clearWatch` and React's effect scheduling.
- Geolocation.GeolocationHook.HandleLocationUpdate: one clock value `now` stands for both `Date.now()` readings and for `new Date()`.
- Geolocation.GeolocationHook.CenterOnLocation: `onLocationCenterRef` is never assigned in either hook, so its handler branch cannot run and is not modelled.
- The error text `Invalid coordinates: lat=…, lng=…` keeps the two values, not their JavaScript number formatting.
- The handlers' `console` logging and the UI rendering of every component are not modelled.
- `add_regions.js` mutates shared shop objects; the model updates records held in an array, so aliasing between the objects is not modelled.
- The Express handlers' catch-all reply `500 {"error":"Internal server error"}` (`api/dist/app.js` lines 107-109, 121-123, 142-144, 167-169, 225-227 and 250-252) is not modelled. The Express records are typed, so the model assumes well-typed data: every name, email and description is a string, and every shop and user carries its spice parameters and preference lists. Only ill-typed stored data or request bodies reach that branch, such as a non-string username whose `.toLowerCase()` throws.
- ExpressApi.RegistrationSpec: spice axes are integers, so a missing or non-numeric axis is not modelled, although the source's comparisons let one through.
- The service worker, the map and chart components, and the theme and configuration files are not part of this model.
