/**
 * The C++ API's records. The user record is the one user_service.cpp and the Postgres
 * repository work with: besides id, username and email it has an optional display name
 * and bio, three preference axes and a visibility flag.
 */
module CppDomain {
  import opened Wrappers
  import Seqs

  datatype SpiceParameters = SpiceParameters(spiciness: int, stimulation: int, aroma: int)

  /** SpiceParameters(): every axis 50. */
  const DefaultSpice := SpiceParameters(50, 50, 50)

  /** domain::Shop without its timestamps. */
  datatype CppShop = CppShop(
    id: string,
    name: string,
    address: string,
    phone: Option<string>,
    latitude: real,
    longitude: real,
    region: string,
    spiceParams: SpiceParameters,
    rating: real,
    description: Option<string>,
    imageUrl: Option<string>)

  datatype CppUser = CppUser(
    id: string,
    username: string,
    email: string,
    displayName: Option<string>,
    bio: Option<string>,
    preferences: SpiceParameters,
    isPublic: bool)

  /** A default-constructed user: empty strings, no display name or bio, default axes. */
  const DefaultUser := CppUser("", "", "", None, None, DefaultSpice, false)

  /** `shop.name.find(name) != std::string::npos`: case-sensitive, and "" matches every name. */
  predicate NameContains(shop: CppShop, name: string) {
    Seqs.Contains(shop.name, name)
  }

  /** The shops whose name contains the query, as the name-search loops collect them. */
  function NameMatches(shops: seq<CppShop>, name: string): seq<CppShop> {
    Seqs.Filter(shops, (shop: CppShop) => NameContains(shop, name))
  }

  /** Exactly the shops whose name contains the query, in their original order. */
  lemma NameMatchesSpec(shops: seq<CppShop>, name: string)
    ensures Seqs.IsSubseq(NameMatches(shops, name), shops)
    ensures forall shop :: shop in NameMatches(shops, name) <==> shop in shops && NameContains(shop, name)
    ensures name == "" ==> NameMatches(shops, name) == shops
  {
    Seqs.FilterIsSubseq(shops, (shop: CppShop) => NameContains(shop, name));
    if name == "" {
      forall shop | shop in shops ensures NameContains(shop, name) {
        Seqs.ContainsIff(shop.name, name);
        assert Seqs.OccursAt(name, shop.name, 0);
      }
      Seqs.FilterAll(shops, (shop: CppShop) => NameContains(shop, name));
    }
  }
}
