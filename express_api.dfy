/**
 * The request handlers of the Express API (api/dist/app.js) over the loaded
 * shops.json and users.json contents. File loading and saving are not modelled:
 * the record lists are parameters, the random UUID and the ISO timestamp are inputs,
 * and whether saving succeeded is an input.
 */
module ExpressApi {
  import opened Wrappers
  import opened Domain
  import Seqs
  import Text
  import Matching
  import StableSort

  /** A value of req.query: absent, a single string, or another JSON-ish value (array, object). */
  datatype QueryValue = Absent | Str(s: string) | NonString

  /** `x && typeof x === 'string'`: a non-empty string parameter. */
  predicate IsGiven(q: QueryValue) {
    q.Str? && q.s != ""
  }

  /** An element of a shop list response; matchScore is present only when ranking. */
  datatype ShopView = ShopView(shop: Shop, matchScore: Option<int>)

  /** A response: a status with the JSON body, or a status with `{ error: message }`. */
  datatype Reply<T> = Ok(status: int, body: T) | Error(status: int, message: string)

  // ---- search -------------------------------------------------------------

  /** The search predicate of GET /api/shops; term is already lowercased. */
  predicate MatchesSearch(shop: Shop, term: string) {
    Seqs.Contains(Text.Lower(shop.name), term)
    || Seqs.Contains(Text.Lower(shop.address), term)
    || (shop.description.Some? && Seqs.Contains(Text.Lower(shop.description.value), term))
  }

  function SearchShops(shops: seq<Shop>, search: QueryValue): seq<Shop> {
    if IsGiven(search) then
      var term := Text.Lower(search.s);
      Seqs.Filter(shops, (shop: Shop) => MatchesSearch(shop, term))
    else
      shops
  }

  /** Without a search term all shops come back in stored order; with one, exactly the matching shops in stored order. */
  lemma SearchSpec(shops: seq<Shop>, search: QueryValue)
    ensures !IsGiven(search) ==> SearchShops(shops, search) == shops
    ensures IsGiven(search) ==>
      var r := SearchShops(shops, search);
      && (forall x :: x in r <==> x in shops && MatchesSearch(x, Text.Lower(search.s)))
      && Seqs.IsSubseq(r, shops)
  {
    if IsGiven(search) {
      var term := Text.Lower(search.s);
      Seqs.FilterIsSubseq(shops, (shop: Shop) => MatchesSearch(shop, term));
    }
  }

  // ---- ranking ------------------------------------------------------------

  /** users.find(u => u.id === id). */
  function FindUser(users: seq<User>, id: string): (r: Option<User>)
    ensures r.Some? ==> r.value in users && r.value.id == id
    ensures r.None? <==> forall u :: u in users ==> u.id != id
  {
    Seqs.Find(users, (u: User) => u.id == id)
  }

  function Score(user: User, shop: Shop): int {
    Matching.MatchScore(user.preferences.spiceParameters, shop.spiceParameters)
  }

  /** The comparator key `a.matchScore || 0`. */
  function ScoreKey(v: ShopView): int {
    v.matchScore.GetOr(0)
  }

  /** `{ ...shop, matchScore: calculateMatchScore(...) }` for every shop. */
  function Annotate(user: User, shops: seq<Shop>): (r: seq<ShopView>)
    ensures |r| == |shops|
    ensures forall i :: 0 <= i < |r| ==> r[i] == ShopView(shops[i], Some(Score(user, shops[i])))
  {
    Seqs.Map(shops, (shop: Shop) => ShopView(shop, Some(Score(user, shop))))
  }

  function Plain(shops: seq<Shop>): (r: seq<ShopView>)
    ensures |r| == |shops|
    ensures forall i :: 0 <= i < |r| ==> r[i] == ShopView(shops[i], None)
  {
    Seqs.Map(shops, (shop: Shop) => ShopView(shop, None))
  }

  /** Every element carries the score of its own shop for user. */
  predicate ScoredFor(user: User, r: seq<ShopView>) {
    forall i :: 0 <= i < |r| ==> r[i].matchScore == Some(Score(user, r[i].shop))
  }

  /** GET /api/shops?search=&userId= */
  function ListShops(shops: seq<Shop>, users: seq<User>, search: QueryValue, userId: QueryValue): seq<ShopView> {
    var filtered := SearchShops(shops, search);
    if IsGiven(userId) && FindUser(users, userId.s).Some? then
      StableSort.Sort(Annotate(FindUser(users, userId.s).value, filtered), ScoreKey)
    else
      Plain(filtered)
  }

  /**
   * For a known user the search result comes back as a permutation of itself, every
   * shop annotated with its score, scores non-increasing and ties in stored order;
   * otherwise the search result comes back unchanged and unscored.
   */
  lemma {:induction false} ListShopsSpec(shops: seq<Shop>, users: seq<User>, search: QueryValue, userId: QueryValue)
    ensures var filtered := SearchShops(shops, search);
            var r := ListShops(shops, users, search, userId);
            if IsGiven(userId) && FindUser(users, userId.s).Some? then
              var annotated := Annotate(FindUser(users, userId.s).value, filtered);
              && multiset(r) == multiset(annotated)
              && ScoredFor(FindUser(users, userId.s).value, r)
              && StableSort.SortedDesc(r, ScoreKey)
              && (forall k :: StableSort.WithKey(r, ScoreKey, k) == StableSort.WithKey(annotated, ScoreKey, k))
            else
              r == Plain(filtered)
  {
    var filtered := SearchShops(shops, search);
    if IsGiven(userId) && FindUser(users, userId.s).Some? {
      var u := FindUser(users, userId.s).value;
      var annotated := Annotate(u, filtered);
      var r := StableSort.Sort(annotated, ScoreKey);
      StableSort.SortCorrect(annotated, ScoreKey);
      forall i | 0 <= i < |r| ensures r[i].matchScore == Some(Score(u, r[i].shop)) {
        assert r[i] in multiset(annotated);
      }
    }
  }

  // ---- recommendations ----------------------------------------------------

  const RecommendationLimit := 10

  function NotDisliked(user: User, v: ShopView): bool {
    v.shop.id !in user.preferences.dislikes
  }

  /** All shops scored for user, disliked ones dropped, sorted by descending score. */
  function RankedForUser(user: User, shops: seq<Shop>): seq<ShopView> {
    StableSort.Sort(Seqs.Filter(Annotate(user, shops), (v: ShopView) => NotDisliked(user, v)), ScoreKey)
  }

  /** GET /api/recommendations/:userId */
  function Recommendations(shops: seq<Shop>, users: seq<User>, userId: string): Reply<seq<ShopView>> {
    match FindUser(users, userId)
    case None => Error(404, "User not found")
    case Some(user) => Ok(200, Seqs.Take(RankedForUser(user, shops), RecommendationLimit))
  }

  /**
   * An unknown user gets 404. Otherwise at most ten shops, none of them disliked,
   * each with its own score, scores non-increasing: the first entries of the full ranking.
   */
  lemma {:induction false} RecommendationsSpec(shops: seq<Shop>, users: seq<User>, userId: string)
    ensures FindUser(users, userId).None? <==> Recommendations(shops, users, userId) == Error(404, "User not found")
    ensures FindUser(users, userId).Some? ==>
      var user := FindUser(users, userId).value;
      var reply := Recommendations(shops, users, userId);
      && reply.Ok? && reply.status == 200
      && |reply.body| <= RecommendationLimit
      && reply.body <= RankedForUser(user, shops)
      && (|RankedForUser(user, shops)| >= RecommendationLimit ==> |reply.body| == RecommendationLimit)
      && (forall v :: v in reply.body ==> v.shop in shops && v.shop.id !in user.preferences.dislikes)
      && ScoredFor(user, reply.body)
      && StableSort.SortedDesc(reply.body, ScoreKey)
  {
    if FindUser(users, userId).Some? {
      var user := FindUser(users, userId).value;
      var annotated := Annotate(user, shops);
      var kept := Seqs.Filter(annotated, (v: ShopView) => NotDisliked(user, v));
      var ranked := StableSort.Sort(kept, ScoreKey);
      StableSort.SortCorrect(kept, ScoreKey);
      var body := Seqs.Take(ranked, RecommendationLimit);
      StableSort.SortedPrefix(ranked, |body|, ScoreKey);
      assert body == ranked[..|body|];
      forall v | v in body ensures v.shop in shops && v.shop.id !in user.preferences.dislikes
        && v.matchScore == Some(Score(user, v.shop)) {
        assert v in multiset(kept);
        assert v in kept;
        assert v in annotated;
        var i :| 0 <= i < |annotated| && annotated[i] == v;
      }
      forall i | 0 <= i < |body| ensures body[i].matchScore == Some(Score(user, body[i].shop)) {
        assert body[i] in body;
      }
    }
  }

  // ---- single shop --------------------------------------------------------

  /** GET /api/shops/:id */
  function GetShop(shops: seq<Shop>, id: string): Reply<Shop> {
    match Seqs.Find(shops, (s: Shop) => s.id == id)
    case None => Error(404, "Shop not found")
    case Some(shop) => Ok(200, shop)
  }

  /** The first stored shop with the id, 404 when there is none. */
  lemma GetShopSpec(shops: seq<Shop>, id: string)
    ensures (forall s :: s in shops ==> s.id != id) <==> GetShop(shops, id) == Error(404, "Shop not found")
    ensures forall k :: 0 <= k < |shops| && shops[k].id == id && (forall j :: 0 <= j < k ==> shops[j].id != id)
              ==> GetShop(shops, id) == Ok(200, shops[k])
  {
    var p := (s: Shop) => s.id == id;
    var f := Seqs.FindIndex(shops, p);
    forall k | 0 <= k < |shops| && shops[k].id == id && (forall j :: 0 <= j < k ==> shops[j].id != id)
      ensures GetShop(shops, id) == Ok(200, shops[k]) {
      assert f.Some?;
      assert f.value == k;
    }
  }

  // ---- users --------------------------------------------------------------

  /** The public projection: id, displayName, bio, preferences, createdAt. */
  function Project(u: User): PublicUser {
    PublicUser(u.id, u.displayName, u.bio, u.preferences, u.createdAt)
  }

  predicate IsPublic(u: User) {
    u.isPublic
  }

  /** GET /api/users */
  function PublicUsers(users: seq<User>): seq<PublicUser> {
    Seqs.Map(Seqs.Filter(users, IsPublic), Project)
  }

  /** Exactly the public users' projections, in stored order. */
  lemma PublicUsersSpec(users: seq<User>)
    ensures forall p :: p in PublicUsers(users) <==> exists u :: u in users && u.isPublic && Project(u) == p
    ensures Seqs.IsSubseq(PublicUsers(users), Seqs.Map(users, Project))
    ensures |PublicUsers(users)| <= |users|
  {
    Seqs.MapFilterIsSubseq(users, IsPublic, Project);
    var pub := Seqs.Filter(users, IsPublic);
    forall p | p in PublicUsers(users) ensures exists u :: u in users && u.isPublic && Project(u) == p {
      var i :| 0 <= i < |pub| && PublicUsers(users)[i] == p;
      assert pub[i] in pub;
    }
    forall u | u in users && u.isPublic ensures Project(u) in PublicUsers(users) {
      assert u in pub;
      var i :| 0 <= i < |pub| && pub[i] == u;
      assert PublicUsers(users)[i] == Project(u);
    }
  }

  /** GET /api/users/:id */
  function GetUserProfile(users: seq<User>, id: string): Reply<PublicUser> {
    match FindUser(users, id)
    case None => Error(404, "User not found")
    case Some(u) => if !u.isPublic then Error(403, "User profile is private") else Ok(200, Project(u))
  }

  /** 404 for an unknown id, 403 for a private profile, otherwise the public projection. */
  lemma GetUserProfileSpec(users: seq<User>, id: string)
    ensures (forall u :: u in users ==> u.id != id) ==> GetUserProfile(users, id) == Error(404, "User not found")
    ensures GetUserProfile(users, id).Ok? ==>
              exists u :: u in users && u.id == id && u.isPublic && GetUserProfile(users, id).body == Project(u)
    ensures GetUserProfile(users, id).Error? && GetUserProfile(users, id).status == 403 ==>
              exists u :: u in users && u.id == id && !u.isPublic
    ensures FindUser(users, id).Some? && !FindUser(users, id).value.isPublic ==>
              GetUserProfile(users, id) == Error(403, "User profile is private")
    ensures FindUser(users, id).Some? && FindUser(users, id).value.isPublic ==>
              GetUserProfile(users, id) == Ok(200, Project(FindUser(users, id).value))
  {
  }

  // ---- registration -------------------------------------------------------

  datatype PreferencesBody = PreferencesBody(
    spiceParameters: Option<SpiceVector>,
    favoriteShops: Option<seq<string>>,
    dislikes: Option<seq<string>>)

  /** The JSON body of POST /api/users/register. */
  datatype RegistrationBody = RegistrationBody(
    username: Option<string>,
    email: Option<string>,
    displayName: Option<string>,
    preferences: Option<PreferencesBody>,
    bio: Option<string>)

  predicate MissingField(body: RegistrationBody) {
    !Truthy(body.username) || !Truthy(body.email) || !Truthy(body.displayName) || body.preferences.None?
  }

  /** An existing user whose username or email equals the new one ignoring case. */
  predicate Clashes(u: User, username: string, email: string) {
    Text.Lower(u.username) == Text.Lower(username) || Text.Lower(u.email) == Text.Lower(email)
  }

  const MissingFieldsError := "Missing required fields"
  const DuplicateError := "Username or email already exists"
  const SpiceRangeError := "Invalid spice parameters. Must be between 0-100."
  const SaveError := "Failed to save user data"

  /** The record the handler builds once every check has passed. */
  function NewUser(body: RegistrationBody, newId: string, now: string): User
    requires !MissingField(body) && body.preferences.value.spiceParameters.Some?
  {
    var prefs := body.preferences.value;
    User(newId, body.username.value, body.email.value, body.displayName.value,
         Preferences(prefs.spiceParameters.value, prefs.favoriteShops.GetOr([]), prefs.dislikes.GetOr([])),
         Some(body.bio.GetOr("")), now, true)
  }

  /** The checks of the register handler, in order, and the user it would append. */
  function CheckRegistration(users: seq<User>, body: RegistrationBody, newId: string, now: string): Result<User, (int, string)> {
    if MissingField(body) then Failure((400, MissingFieldsError))
    else if Seqs.Find(users, (u: User) => Clashes(u, body.username.value, body.email.value)).Some? then
      Failure((409, DuplicateError))
    else if body.preferences.value.spiceParameters.None?
         || !Matching.InRange(body.preferences.value.spiceParameters.value) then
      Failure((400, SpiceRangeError))
    else Success(NewUser(body, newId, now))
  }

  /**
   * A missing field wins over a duplicate, a duplicate wins over bad spice values;
   * an accepted user is public, carries the fresh id and timestamp, in-range axes,
   * an empty-string bio and empty lists by default, and clashes with nobody.
   */
  lemma RegistrationSpec(users: seq<User>, body: RegistrationBody, newId: string, now: string)
    ensures var c := CheckRegistration(users, body, newId, now);
      && (MissingField(body) ==> c == Failure((400, MissingFieldsError)))
      && ((!MissingField(body) && exists u :: u in users && Clashes(u, body.username.value, body.email.value))
            ==> c == Failure((409, DuplicateError)))
      && (c.Failure? ==> c.error.0 in {400, 409})
      && (c.Success? ==>
            && !MissingField(body)
            && c.value.id == newId && c.value.createdAt == now && c.value.isPublic
            && c.value.username == body.username.value && c.value.email == body.email.value
            && c.value.displayName == body.displayName.value
            && Matching.InRange(c.value.preferences.spiceParameters)
            && (body.bio.None? ==> c.value.bio == Some(""))
            && (body.preferences.value.favoriteShops.None? ==> c.value.preferences.favoriteShops == [])
            && (body.preferences.value.dislikes.None? ==> c.value.preferences.dislikes == [])
            && (forall u :: u in users ==> !Clashes(u, c.value.username, c.value.email)))
    ensures var c := CheckRegistration(users, body, newId, now);
      (!MissingField(body) && (forall u :: u in users ==> !Clashes(u, body.username.value, body.email.value))) ==>
        var spice := body.preferences.value.spiceParameters;
        && (spice.Some? && Matching.InRange(spice.value) ==> c == Success(NewUser(body, newId, now)))
        && (spice.None? || !Matching.InRange(spice.value) ==> c == Failure((400, SpiceRangeError)))
  {
  }

  /** No two stored users share a username, and none share an email, ignoring case. */
  predicate CaseInsensitivelyUnique(users: seq<User>) {
    forall i, j :: 0 <= i < j < |users| ==>
      Text.Lower(users[i].username) != Text.Lower(users[j].username)
      && Text.Lower(users[i].email) != Text.Lower(users[j].email)
  }

  /** Appending an accepted registration keeps usernames and emails unique. */
  lemma RegistrationKeepsUnique(users: seq<User>, body: RegistrationBody, newId: string, now: string)
    requires CaseInsensitivelyUnique(users)
    requires CheckRegistration(users, body, newId, now).Success?
    ensures CaseInsensitivelyUnique(users + [CheckRegistration(users, body, newId, now).value])
  {
    var nu := CheckRegistration(users, body, newId, now).value;
    RegistrationSpec(users, body, newId, now);
    var all := users + [nu];
    forall i, j | 0 <= i < j < |all|
      ensures Text.Lower(all[i].username) != Text.Lower(all[j].username)
           && Text.Lower(all[i].email) != Text.Lower(all[j].email) {
      if j == |users| {
        assert all[i] in users;
        assert !Clashes(all[i], nu.username, nu.email);
      }
    }
  }

  /** The users array a request handler loads, which the register handler pushes onto. */
  class UserStore {
    var users: seq<User>

    constructor (loaded: seq<User>)
      ensures users == loaded
    {
      users := loaded;
    }

    /** POST /api/users/register; saved is whether writing users.json succeeded. */
    method Register(body: RegistrationBody, newId: string, now: string, saved: bool) returns (reply: Reply<PublicUser>)
      modifies this
      ensures var c := CheckRegistration(old(users), body, newId, now);
        && (c.Failure? ==> users == old(users) && reply == Error(c.error.0, c.error.1))
        && (c.Success? ==> users == old(users) + [c.value])
        && (c.Success? && saved ==> reply == Ok(201, Project(c.value)))
        && (c.Success? && !saved ==> reply == Error(500, SaveError))
      ensures CaseInsensitivelyUnique(old(users)) ==> CaseInsensitivelyUnique(users)
    {
      var c := CheckRegistration(users, body, newId, now);
      if c.Failure? {
        reply := Error(c.error.0, c.error.1);
        return;
      }
      if CaseInsensitivelyUnique(users) {
        RegistrationKeepsUnique(users, body, newId, now);
      }
      users := users + [c.value];
      if saved {
        reply := Ok(201, Project(c.value));
      } else {
        reply := Error(500, SaveError);
      }
    }
  }
}
