/**
 * The read-only JSON repositories of the C++ API (cpp-api/src/repository/json_repository.cpp).
 * Their parsers are stubs that find no records, so find_all yields an empty list; the
 * lookups are written over any find_all outcome so that what they do with records is
 * stated as well.
 */
module JsonRepository {
  import opened Wrappers
  import Seqs
  import opened CppDomain

  const AddUnsupported := "Add operation not supported in JSON repository"
  const UpdateUnsupported := "Update operation not supported in JSON repository"
  const RemoveUnsupported := "Remove operation not supported in JSON repository"

  /** `std::ranges::find_if` over the find_all outcome: the first element satisfying p. */
  function FirstWhere<T>(all: Result<seq<T>, string>, p: T -> bool): (r: Result<Option<T>, string>)
    ensures all.Failure? ==> r == Failure(all.error)
    ensures all.Success? ==> r.Success?
    ensures all.Success? && r.value.Some? ==>
      exists k :: 0 <= k < |all.value| && all.value[k] == r.value.value && p(all.value[k])
        && forall j :: 0 <= j < k ==> !p(all.value[j])
    ensures all.Success? ==> (r.value.None? <==> forall j :: 0 <= j < |all.value| ==> !p(all.value[j]))
  {
    match all
    case Failure(e) => Failure(e)
    case Success(items) => Success(Seqs.Find(items, p))
  }

  /** The loop of search_by_name over a find_all outcome: the shops whose name contains the query, in order. */
  method SearchByNameIn(all: Result<seq<CppShop>, string>, name: string) returns (r: Result<seq<CppShop>, string>)
    ensures r == if all.Failure? then Failure(all.error) else Success(NameMatches(all.value, name))
  {
    if all.Failure? {
      return Failure(all.error);
    }
    var shops := all.value;
    var results: seq<CppShop> := [];
    var i := 0;
    while i < |shops|
      invariant 0 <= i <= |shops|
      invariant results == NameMatches(shops[..i], name)
    {
      assert shops[..i + 1] == shops[..i] + [shops[i]];
      Seqs.FilterSnoc(shops[..i], shops[i], (shop: CppShop) => NameContains(shop, name));
      if Seqs.Contains(shops[i].name, name) {
        results := results + [shops[i]];
      }
      i := i + 1;
    }
    assert shops[..i] == shops;
    return Success(results);
  }

  /** JsonShopRepository, holding the JSON text it was constructed with. */
  datatype JsonShopRepository = JsonShopRepository(data: string) {
    /** parse_shops: a stub that recognises no shop. */
    function ParseShops(json: string): seq<CppShop> {
      []
    }

    function FindAll(): Result<seq<CppShop>, string> {
      Success(ParseShops(data))
    }

    function FindById(id: string): Result<Option<CppShop>, string> {
      FirstWhere(FindAll(), (shop: CppShop) => shop.id == id)
    }

    /** search_by_name: the name filter applied to whatever find_all yields. */
    method SearchByName(name: string) returns (r: Result<seq<CppShop>, string>)
      ensures FindAll().Success? ==> r == Success(NameMatches(FindAll().value, name))
      ensures r == Success([])
    {
      r := SearchByNameIn(FindAll(), name);
    }

    /** find_by_spice_level ignores the level. */
    function FindBySpiceLevel(level: string): Result<seq<CppShop>, string> {
      FindAll()
    }

    function Add(shop: CppShop): Result<CppShop, string> {
      Failure(AddUnsupported)
    }

    function Update(shop: CppShop): Result<CppShop, string> {
      Failure(UpdateUnsupported)
    }

    function Remove(id: string): Result<bool, string> {
      Failure(RemoveUnsupported)
    }
  }

  /** JsonUserRepository, holding the JSON text it was constructed with. */
  datatype JsonUserRepository = JsonUserRepository(data: string) {
    /** parse_users: a stub that recognises no user. */
    function ParseUsers(json: string): seq<CppUser> {
      []
    }

    function FindAll(): Result<seq<CppUser>, string> {
      Success(ParseUsers(data))
    }

    function FindById(id: string): Result<Option<CppUser>, string> {
      FirstWhere(FindAll(), (user: CppUser) => user.id == id)
    }

    function FindByUsername(username: string): Result<Option<CppUser>, string> {
      FirstWhere(FindAll(), (user: CppUser) => user.username == username)
    }

    function FindByEmail(email: string): Result<Option<CppUser>, string> {
      FirstWhere(FindAll(), (user: CppUser) => user.email == email)
    }

    function Add(user: CppUser): Result<CppUser, string> {
      Failure(AddUnsupported)
    }

    function Update(user: CppUser): Result<CppUser, string> {
      Failure(UpdateUnsupported)
    }

    function Remove(id: string): Result<bool, string> {
      Failure(RemoveUnsupported)
    }
  }

  /** Both repositories are read-only: every write fails with its fixed message. */
  lemma ReadOnly(shops: JsonShopRepository, users: JsonUserRepository, shop: CppShop, user: CppUser, id: string)
    ensures shops.Add(shop) == Failure(AddUnsupported) && users.Add(user) == Failure(AddUnsupported)
    ensures shops.Update(shop) == Failure(UpdateUnsupported) && users.Update(user) == Failure(UpdateUnsupported)
    ensures shops.Remove(id) == Failure(RemoveUnsupported) && users.Remove(id) == Failure(RemoveUnsupported)
  {
  }

  /** Because the parsers are stubs, every lookup succeeds with nothing found. */
  lemma LookupsFindNothing(shops: JsonShopRepository, users: JsonUserRepository, key: string)
    ensures shops.FindAll() == Success([]) && shops.FindById(key) == Success(None)
    ensures shops.FindBySpiceLevel(key) == shops.FindAll()
    ensures users.FindAll() == Success([]) && users.FindById(key) == Success(None)
    ensures users.FindByUsername(key) == Success(None) && users.FindByEmail(key) == Success(None)
  {
  }
}
