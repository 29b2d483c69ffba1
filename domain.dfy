/** Record shapes of the Express API's JSON data and of the frontend's types. */
module Domain {
  import opened Wrappers

  /** Three taste axes, each meant to lie in 0..100. */
  datatype SpiceVector = SpiceVector(spiciness: int, stimulation: int, aroma: int)

  /** A curry shop as stored in shops.json (CurryShop on the frontend). */
  datatype Shop = Shop(
    id: string,
    name: string,
    address: string,
    latitude: real,
    longitude: real,
    spiceParameters: SpiceVector,
    rating: real,
    description: Option<string>,
    region: Option<string>)

  datatype Preferences = Preferences(
    spiceParameters: SpiceVector,
    favoriteShops: seq<string>,
    dislikes: seq<string>)

  /** A user as stored in users.json. */
  datatype User = User(
    id: string,
    username: string,
    email: string,
    displayName: string,
    preferences: Preferences,
    bio: Option<string>,
    createdAt: string,
    isPublic: bool)

  /** A user as shown to other users: no username, no email, no visibility flag. */
  datatype PublicUser = PublicUser(
    id: string,
    displayName: string,
    bio: Option<string>,
    preferences: Preferences,
    createdAt: string)

  /** JavaScript truthiness of an optional string: absent and '' are falsy. */
  predicate Truthy(s: Option<string>) {
    s.Some? && s.value != ""
  }
}
