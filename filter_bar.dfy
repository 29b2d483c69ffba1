/**
 * The filtering logic of the FilterBar component (frontend/src/components/FilterBar.tsx):
 * search plus region filtering of the shop list, the chip toggles, clearing, the
 * active-filter count and the list of regions offered as chips.
 */
module FilterBar {
  import opened Wrappers
  import opened Domain
  import Seqs
  import Text

  /** The component's activeFilters state. */
  datatype FilterState = FilterState(regions: seq<string>, similarUsers: seq<string>)

  /** The shops prop: an array, or a value that is not one. */
  datatype ShopsProp = ShopArray(items: seq<Shop>) | NotArray

  /** `Array.isArray(shops) ? [...shops] : []` */
  function Items(shops: ShopsProp): seq<Shop> {
    if shops.ShopArray? then shops.items else []
  }

  /** `searchQuery && searchQuery.trim()` */
  predicate QueryActive(searchQuery: string) {
    Text.JsTrim(searchQuery) != ""
  }

  /** `searchQuery.toLowerCase().trim()` */
  function NormalizedQuery(searchQuery: string): string {
    Text.JsTrim(Text.Lower(searchQuery))
  }

  predicate MatchesQuery(shop: Shop, query: string) {
    Seqs.Contains(Text.Lower(shop.name), query)
    || Seqs.Contains(Text.Lower(shop.address), query)
    || (Truthy(shop.description) && Seqs.Contains(Text.Lower(shop.description.value), query))
    || (Truthy(shop.region) && Seqs.Contains(Text.Lower(shop.region.value), query))
  }

  /** `shop.region && filters.regions.includes(shop.region)` */
  predicate InSelection(shop: Shop, regions: seq<string>) {
    Truthy(shop.region) && shop.region.value in regions
  }

  function SearchStage(all: seq<Shop>, searchQuery: string): seq<Shop> {
    if QueryActive(searchQuery) then
      var query := NormalizedQuery(searchQuery);
      Seqs.Filter(all, (shop: Shop) => MatchesQuery(shop, query))
    else all
  }

  function RegionStage(shops: seq<Shop>, regions: seq<string>): seq<Shop> {
    if |regions| > 0 then Seqs.Filter(shops, (shop: Shop) => InSelection(shop, regions)) else shops
  }

  /** applyFilters: the search stage, then the region stage; the similar-users stage does nothing. */
  function ApplyFilters(shops: ShopsProp, searchQuery: string, filters: FilterState): seq<Shop> {
    RegionStage(SearchStage(Items(shops), searchQuery), filters.regions)
  }

  /**
   * The result keeps the shops' order and drops only shops that fail a filter: a
   * shop is kept exactly when it matches the trimmed, lowercased query (if there is
   * one) and has a region in the selection (if there is one).
   */
  lemma ApplyFiltersSpec(shops: ShopsProp, searchQuery: string, filters: FilterState)
    ensures var r := ApplyFilters(shops, searchQuery, filters);
      && Seqs.IsSubseq(r, Items(shops))
      && (shops.NotArray? ==> r == [])
      && (!QueryActive(searchQuery) && |filters.regions| == 0 ==> r == Items(shops))
      && (forall shop :: shop in r <==>
            && shop in Items(shops)
            && (QueryActive(searchQuery) ==> MatchesQuery(shop, NormalizedQuery(searchQuery)))
            && (|filters.regions| > 0 ==> InSelection(shop, filters.regions)))
  {
    var all := Items(shops);
    var s1 := SearchStage(all, searchQuery);
    var r := RegionStage(s1, filters.regions);
    if QueryActive(searchQuery) {
      var query := NormalizedQuery(searchQuery);
      Seqs.FilterIsSubseq(all, (shop: Shop) => MatchesQuery(shop, query));
    } else {
      Seqs.IsSubseqRefl(all);
    }
    if |filters.regions| > 0 {
      Seqs.FilterIsSubseq(s1, (shop: Shop) => InSelection(shop, filters.regions));
    } else {
      Seqs.IsSubseqRefl(s1);
    }
    Seqs.IsSubseqTrans(r, s1, all);
  }

  /** The similar-users selection never changes the result. */
  lemma SimilarUsersIgnored(shops: ShopsProp, searchQuery: string, filters: FilterState, users: seq<string>)
    ensures ApplyFilters(shops, searchQuery, filters.(similarUsers := users)) == ApplyFilters(shops, searchQuery, filters)
  {
  }

  /** The toggle rule of both chip lists: drop every occurrence of a present item, append an absent one. */
  function Toggle(items: seq<string>, item: string): seq<string> {
    if item in items then Seqs.Filter(items, (x: string) => x != item) else items + [item]
  }

  function HandleRegionToggle(state: FilterState, region: string): FilterState {
    state.(regions := Toggle(state.regions, region))
  }

  function HandleUserToggle(state: FilterState, userId: string): FilterState {
    state.(similarUsers := Toggle(state.similarUsers, userId))
  }

  /** A present item disappears with every copy and the rest keep their order; an absent one is appended. */
  lemma ToggleSpec(items: seq<string>, item: string)
    ensures item in items ==>
      && item !in Toggle(items, item)
      && (forall x :: x in Toggle(items, item) <==> x in items && x != item)
      && Seqs.IsSubseq(Toggle(items, item), items)
    ensures item !in items ==> Toggle(items, item) == items + [item]
  {
    if item in items {
      Seqs.FilterIsSubseq(items, (x: string) => x != item);
    }
  }

  /** Toggling twice gives a duplicate-free list with the same items; the very same list when the item was absent. */
  lemma {:induction false} ToggleTwice(items: seq<string>, item: string)
    requires Seqs.NoDuplicates(items)
    ensures var twice := Toggle(Toggle(items, item), item);
      && Seqs.NoDuplicates(twice)
      && (forall x :: x in twice <==> x in items)
      && (item !in items ==> twice == items)
  {
    var p := (x: string) => x != item;
    if item in items {
      var once := Seqs.Filter(items, p);
      Seqs.FilterNoDuplicates(items, p);
      assert item !in once;
      assert Toggle(items, item) == once;
      var twice := once + [item];
      assert Toggle(once, item) == twice;
      forall i, j | 0 <= i < j < |twice| ensures twice[i] != twice[j] {
        if j == |once| {
          assert twice[i] in once;
        }
      }
    } else {
      var once := items + [item];
      assert item in once;
      Seqs.FilterAppend(items, [item], p);
      Seqs.FilterAll(items, p);
      assert Seqs.Filter([item], p) == [];
    }
  }

  function ClearAllFilters(): FilterState {
    FilterState([], [])
  }

  predicate HasActiveFilters(state: FilterState) {
    |state.regions| > 0 || |state.similarUsers| > 0
  }

  function ActiveFilterCount(state: FilterState): nat {
    |state.regions| + |state.similarUsers|
  }

  /** The badge shows exactly when the count is positive, and clearing empties both lists. */
  lemma ActiveFiltersSpec(state: FilterState)
    ensures HasActiveFilters(state) <==> ActiveFilterCount(state) > 0
    ensures !HasActiveFilters(ClearAllFilters()) && ActiveFilterCount(ClearAllFilters()) == 0
  {
  }

  // ---- available regions --------------------------------------------------

  /** The default order of Array.prototype.sort on strings, taken character by character. */
  predicate StrLt(a: string, b: string)
    decreases |a|
  {
    if a == [] then b != []
    else if b == [] then false
    else if a[0] != b[0] then a[0] < b[0]
    else StrLt(a[1..], b[1..])
  }

  lemma {:induction false} StrLtTotal(a: string, b: string)
    requires a != b
    ensures StrLt(a, b) || StrLt(b, a)
    decreases |a|
  {
    if a != [] && b != [] && a[0] == b[0] {
      assert a == [a[0]] + a[1..] && b == [b[0]] + b[1..];
      StrLtTotal(a[1..], b[1..]);
    }
  }

  predicate StrictlySorted(s: seq<string>) {
    forall i, j :: 0 <= i < j < |s| ==> StrLt(s[i], s[j])
  }

  function InsertString(x: string, s: seq<string>): seq<string> {
    if s == [] || StrLt(x, s[0]) then [x] + s else [s[0]] + InsertString(x, s[1..])
  }

  /** Insertion sort in the default string order. */
  function SortStrings(s: seq<string>): seq<string> {
    if s == [] then [] else InsertString(s[0], SortStrings(s[1..]))
  }

  lemma {:induction false} InsertStringSpec(x: string, s: seq<string>)
    requires StrictlySorted(s) && x !in s
    ensures StrictlySorted(InsertString(x, s))
    ensures forall y :: y in InsertString(x, s) <==> y == x || y in s
    decreases |s|
  {
    if s != [] && StrLt(x, s[0]) {
      forall j | 0 <= j < |s| ensures StrLt(x, s[j]) {
        if j > 0 {
          StrLtTrans(x, s[0], s[j]);
        }
      }
    } else if s != [] {
      StrLtTotal(x, s[0]);
      var rest := InsertString(x, s[1..]);
      InsertStringSpec(x, s[1..]);
      var r := [s[0]] + rest;
      forall i, j | 0 <= i < j < |r| ensures StrLt(r[i], r[j]) {
        if i == 0 {
          assert r[j] in rest;
          if r[j] != x {
            var k :| 0 <= k < |s[1..]| && s[1..][k] == r[j];
            assert s[k + 1] == r[j];
          }
        } else {
          assert r[i] == rest[i - 1] && r[j] == rest[j - 1];
        }
      }
    }
  }

  lemma {:induction false} SortStringsSpec(s: seq<string>)
    requires Seqs.NoDuplicates(s)
    ensures StrictlySorted(SortStrings(s))
    ensures forall y :: y in SortStrings(s) <==> y in s
    decreases |s|
  {
    if s != [] {
      SortStringsSpec(s[1..]);
      assert s[0] !in s[1..];
      InsertStringSpec(s[0], SortStrings(s[1..]));
    }
  }

  /** `Array.from(new Set(xs))`: first occurrences, in order. */
  function Dedup(s: seq<string>): (r: seq<string>)
    ensures Seqs.NoDuplicates(r)
    ensures forall y :: y in r <==> y in s
  {
    if s == [] then []
    else
      var d := Dedup(s[..|s| - 1]);
      assert s == s[..|s| - 1] + [s[|s| - 1]];
      if s[|s| - 1] in d then d else d + [s[|s| - 1]]
  }

  function RegionOf(shop: Shop): string {
    shop.region.GetOr("")
  }

  predicate HasRegion(shop: Shop) {
    Truthy(shop.region)
  }

  /** availableRegions: the truthy regions of the shops, once each, sorted. */
  function AvailableRegions(shops: ShopsProp): seq<string> {
    SortStrings(Dedup(Seqs.Map(Seqs.Filter(Items(shops), HasRegion), RegionOf)))
  }

  /** Sorted without repeats, never empty or undefined entries, and exactly the regions the shops have. */
  lemma AvailableRegionsSpec(shops: ShopsProp)
    ensures var r := AvailableRegions(shops);
      && StrictlySorted(r)
      && Seqs.NoDuplicates(r)
      && "" !in r
      && (forall x :: x in r <==> exists shop :: shop in Items(shops) && shop.region == Some(x) && x != "")
  {
    var withRegion := Seqs.Filter(Items(shops), HasRegion);
    var names := Seqs.Map(withRegion, RegionOf);
    SortStringsSpec(Dedup(names));
    var r := AvailableRegions(shops);
    forall i, j | 0 <= i < j < |r| ensures r[i] != r[j] {
      assert StrLt(r[i], r[j]);
      StrLtIrreflexive(r[i]);
    }
    forall x ensures x in r <==> exists shop :: shop in Items(shops) && shop.region == Some(x) && x != "" {
      if x in r {
        assert x in names;
        var k :| 0 <= k < |names| && names[k] == x;
        assert withRegion[k] in withRegion;
      }
      if exists shop :: shop in Items(shops) && shop.region == Some(x) && x != "" {
        var shop :| shop in Items(shops) && shop.region == Some(x) && x != "";
        assert shop in withRegion;
        var k :| 0 <= k < |withRegion| && withRegion[k] == shop;
        assert names[k] == x;
      }
    }
  }

  lemma {:induction false} StrLtTrans(a: string, b: string, c: string)
    requires StrLt(a, b) && StrLt(b, c)
    ensures StrLt(a, c)
    decreases |a|
  {
    if a != [] && b != [] && c != [] && a[0] == b[0] && b[0] == c[0] {
      StrLtTrans(a[1..], b[1..], c[1..]);
    }
  }

  lemma {:induction false} StrLtIrreflexive(a: string)
    ensures !StrLt(a, a)
    decreases |a|
  {
    if a != [] {
      StrLtIrreflexive(a[1..]);
    }
  }
}
