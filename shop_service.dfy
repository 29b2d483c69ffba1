/**
 * The C++ shop service (cpp-api/src/service/shop_service.cpp) over any repository: every
 * operation receives the repository's answer (find_all or find_by_id) as its input. The
 * rendering of doubles by std::format is the parameter `fmt`.
 */
module ShopService {
  import opened Wrappers
  import Seqs
  import Text
  import Template
  import opened CppDomain

  const ShopNotFound := "Shop not found"
  const InvalidSpiceLevel := "Invalid spice level"

  /** The format string of shop_to_json. */
  const ShopLayout := Template.Layout("{\"id\":\"", [
    "\",\"name\":\"",
    "\",\"address\":\"",
    "\",\"phone\":\"",
    "\",\"latitude\":",
    ",\"longitude\":",
    ",\"region\":\"",
    "\",\"spiciness\":",
    ",\"stimulation\":",
    ",\"aroma\":",
    ",\"rating\":",
    ",\"description\":\"",
    "\",\"image_url\":\"",
    "\"}"])

  /** The arguments of shop_to_json, in order; absent optional strings become "". */
  function ShopFields(shop: CppShop, fmt: real -> string): seq<string> {
    [shop.id, shop.name, shop.address, shop.phone.GetOr(""),
     fmt(shop.latitude), fmt(shop.longitude), shop.region,
     Text.IntToString(shop.spiceParams.spiciness),
     Text.IntToString(shop.spiceParams.stimulation),
     Text.IntToString(shop.spiceParams.aroma),
     fmt(shop.rating), shop.description.GetOr(""), shop.imageUrl.GetOr("")]
  }

  function ShopToJson(shop: CppShop, fmt: real -> string): string {
    Template.Render(ShopLayout, ShopFields(shop, fmt))
  }

  /**
   * When the string fields hold no '"' and the rendered doubles no ',', the output reads
   * back along the same layout; an absent phone, description or image_url reads back as "".
   */
  lemma ShopToJsonReadBack(shop: CppShop, fmt: real -> string)
    requires '"' !in shop.id && '"' !in shop.name && '"' !in shop.address && '"' !in shop.region
    requires '"' !in shop.phone.GetOr("") && '"' !in shop.description.GetOr("") && '"' !in shop.imageUrl.GetOr("")
    requires ',' !in fmt(shop.latitude) && ',' !in fmt(shop.longitude) && ',' !in fmt(shop.rating)
    ensures Template.Read(ShopLayout, ShopToJson(shop, fmt)) == Some(ShopFields(shop, fmt))
    ensures var f := ShopFields(shop, fmt);
      && f[0] == shop.id && f[1] == shop.name && f[2] == shop.address && f[6] == shop.region
      && (shop.phone.None? ==> f[3] == "")
      && (shop.description.None? ==> f[11] == "")
      && (shop.imageUrl.None? ==> f[12] == "")
  {
    ShopFieldsFit(shop, fmt);
    FittingShopReads(shop, fmt);
    ShopFieldsOrder(shop, fmt);
  }

  lemma FittingShopReads(shop: CppShop, fmt: real -> string)
    requires Template.Fits(ShopLayout, ShopFields(shop, fmt))
    ensures Template.Read(ShopLayout, ShopToJson(shop, fmt)) == Some(ShopFields(shop, fmt))
  {
    Template.ReadRender(ShopLayout, ShopFields(shop, fmt));
  }

  /** Where each field sits among the arguments, and what an absent optional becomes. */
  lemma ShopFieldsOrder(shop: CppShop, fmt: real -> string)
    ensures var f := ShopFields(shop, fmt);
      && f[0] == shop.id && f[1] == shop.name && f[2] == shop.address && f[6] == shop.region
      && (shop.phone.None? ==> f[3] == "")
      && (shop.description.None? ==> f[11] == "")
      && (shop.imageUrl.None? ==> f[12] == "")
  {
  }

  /** Each field avoids the first character of the literal after it. */
  lemma ShopFieldsFit(shop: CppShop, fmt: real -> string)
    requires '"' !in shop.id && '"' !in shop.name && '"' !in shop.address && '"' !in shop.region
    requires '"' !in shop.phone.GetOr("") && '"' !in shop.description.GetOr("") && '"' !in shop.imageUrl.GetOr("")
    requires ',' !in fmt(shop.latitude) && ',' !in fmt(shop.longitude) && ',' !in fmt(shop.rating)
    ensures Template.Fits(ShopLayout, ShopFields(shop, fmt))
  {
    var f := ShopFields(shop, fmt);
    var seps := ShopLayout.seps;
    Text.IntToStringChars(shop.spiceParams.spiciness);
    Text.IntToStringChars(shop.spiceParams.stimulation);
    Text.IntToStringChars(shop.spiceParams.aroma);
    assert forall k :: k in {4, 5, 7, 8, 9, 10} ==> seps[k][0] == ',';
    assert forall k :: k in {0, 1, 2, 3, 6, 11, 12} ==> seps[k][0] == '"';
    forall k | 0 <= k < 13 ensures seps[k] != [] && seps[k][0] !in f[k] {
      assert k in {4, 5, 7, 8, 9, 10} || k in {0, 1, 2, 3, 6, 11, 12};
    }
  }

  /** shop_to_json with the rendering of doubles fixed. */
  function ShopRenderer(fmt: real -> string): CppShop -> string {
    (shop: CppShop) => ShopToJson(shop, fmt)
  }

  /** What shops_to_json builds: '[', the shops' JSON joined by ',', then ']'. */
  function ShopsJson(shops: seq<CppShop>, fmt: real -> string): string {
    "[" + Text.Join(Seqs.Map(shops, ShopRenderer(fmt)), ",") + "]"
  }

  /** No shops give "[]" and one shop gives its object in brackets. */
  lemma ShopsJsonSmall(shop: CppShop, fmt: real -> string)
    ensures ShopsJson([], fmt) == "[]"
    ensures ShopsJson([shop], fmt) == "[" + ShopToJson(shop, fmt) + "]"
  {
    assert Seqs.Map([shop], ShopRenderer(fmt)) == [ShopToJson(shop, fmt)];
  }

  /** shops_to_json */
  method ShopsToJson(shops: seq<CppShop>, fmt: real -> string) returns (json: string)
    ensures json == ShopsJson(shops, fmt)
  {
    json := Text.AppendJoined("[", shops, ShopRenderer(fmt), ",");
    json := json + "]";
  }

  /** get_all_shops_json over the repository's find_all answer. */
  method GetAllShopsJson(all: Result<seq<CppShop>, string>, fmt: real -> string) returns (r: Result<string, string>)
    ensures r == if all.Failure? then Failure(all.error) else Success(ShopsJson(all.value, fmt))
  {
    if all.Failure? {
      return Failure(all.error);
    }
    var json := ShopsToJson(all.value, fmt);
    return Success(json);
  }

  /** get_shop_by_id_json over the repository's find_by_id answer. */
  function GetShopByIdJson(found: Result<Option<CppShop>, string>, fmt: real -> string): (r: Result<string, string>)
    ensures found.Failure? ==> r == Failure(found.error)
    ensures found == Success(None) ==> r == Failure(ShopNotFound)
    ensures found.Success? && found.value.Some? ==> r == Success(ShopToJson(found.value.value, fmt))
  {
    match found
    case Failure(e) => Failure(e)
    case Success(None) => Failure(ShopNotFound)
    case Success(Some(shop)) => Success(ShopToJson(shop, fmt))
  }

  /** search_shops_by_name_json: the loop keeps the shops whose name contains the query. */
  method SearchShopsByNameJson(all: Result<seq<CppShop>, string>, name: string, fmt: real -> string)
    returns (r: Result<string, string>)
    ensures r == if all.Failure? then Failure(all.error) else Success(ShopsJson(NameMatches(all.value, name), fmt))
  {
    if all.Failure? {
      return Failure(all.error);
    }
    var shops := all.value;
    var filtered: seq<CppShop> := [];
    var i := 0;
    while i < |shops|
      invariant 0 <= i <= |shops|
      invariant filtered == NameMatches(shops[..i], name)
    {
      assert shops[..i + 1] == shops[..i] + [shops[i]];
      Seqs.FilterSnoc(shops[..i], shops[i], (shop: CppShop) => NameContains(shop, name));
      if Seqs.Contains(shops[i].name, name) {
        filtered := filtered + [shops[i]];
      }
      i := i + 1;
    }
    assert shops[..i] == shops;
    var json := ShopsToJson(filtered, fmt);
    return Success(json);
  }

  predicate AtLeast(shop: CppShop, level: int) {
    shop.spiceParams.spiciness >= level
  }

  function SpiceMatches(shops: seq<CppShop>, level: int): seq<CppShop> {
    Seqs.Filter(shops, (shop: CppShop) => AtLeast(shop, level))
  }

  /** Exactly the shops at least as spicy as the level, in repository order. */
  lemma SpiceMatchesSpec(shops: seq<CppShop>, level: int)
    ensures Seqs.IsSubseq(SpiceMatches(shops, level), shops)
    ensures forall shop :: shop in SpiceMatches(shops, level) <==> shop in shops && shop.spiceParams.spiciness >= level
  {
    Seqs.FilterIsSubseq(shops, (shop: CppShop) => AtLeast(shop, level));
  }

  /**
   * search_shops_by_spice_level_json: the level is parsed with stoi before the repository
   * is consulted; a level stoi rejects gives "Invalid spice level".
   */
  method SearchShopsBySpiceLevelJson(level: string, all: Result<seq<CppShop>, string>, fmt: real -> string)
    returns (r: Result<string, string>)
    ensures Text.Stoi(level).None? ==> r == Failure(InvalidSpiceLevel)
    ensures Text.Stoi(level).Some? && all.Failure? ==> r == Failure(all.error)
    ensures Text.Stoi(level).Some? && all.Success? ==>
      r == Success(ShopsJson(SpiceMatches(all.value, Text.Stoi(level).value), fmt))
  {
    var parsed := Text.Stoi(level);
    if parsed.None? {
      return Failure(InvalidSpiceLevel);
    }
    var spiceLevel := parsed.value;
    if all.Failure? {
      return Failure(all.error);
    }
    var shops := all.value;
    var filtered: seq<CppShop> := [];
    var i := 0;
    while i < |shops|
      invariant 0 <= i <= |shops|
      invariant filtered == SpiceMatches(shops[..i], spiceLevel)
    {
      assert shops[..i + 1] == shops[..i] + [shops[i]];
      Seqs.FilterSnoc(shops[..i], shops[i], (shop: CppShop) => AtLeast(shop, spiceLevel));
      if shops[i].spiceParams.spiciness >= spiceLevel {
        filtered := filtered + [shops[i]];
      }
      i := i + 1;
    }
    assert shops[..i] == shops;
    var json := ShopsToJson(filtered, fmt);
    return Success(json);
  }

  lemma StoiSeventy()
    ensures Text.Stoi("70") == Some(70) && Text.Stoi("70abc") == Some(70)
  {
    assert Text.IntToString(70) == "70" by {
      assert Text.NatToString(70) == Text.NatToString(7) + [Text.DigitChar(0)];
    }
    Text.StoiIntToString(70, "");
    Text.StoiIntToString(70, "abc");
    assert "70" + "" == "70";
    assert "70" + "abc" == "70abc";
  }

  lemma StoiMinusFive()
    ensures Text.Stoi("-5") == Some(-5)
  {
    assert Text.IntToString(-5) == "-5";
    Text.StoiIntToString(-5, "");
    assert "-5" + "" == "-5";
  }

  lemma StoiNoDigits()
    ensures Text.Stoi("abc") == None && Text.Stoi("") == None
  {
    assert Text.LeadingCount("abc", Text.IsCSpace) == 0;
    assert "abc"[0..] == "abc";
  }

  /** stoi examples: text after the digits is ignored, a missing number is an error. */
  lemma SpiceLevelParsing()
    ensures Text.Stoi("70") == Some(70)
    ensures Text.Stoi("70abc") == Some(70)
    ensures Text.Stoi("-5") == Some(-5)
    ensures Text.Stoi("abc") == None && Text.Stoi("") == None
  {
    StoiSeventy();
    StoiMinusFive();
    StoiNoDigits();
  }
}
