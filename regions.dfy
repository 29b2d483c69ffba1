/**
 * The one-off region migration (database/add_regions.js): a shop without a region gets the
 * first known municipality named in its address.
 */
module Regions {
  import opened Wrappers
  import opened Domain
  import Seqs

  /** The municipalities the migration knows, in the order it tries them. */
  const RegionNames: seq<string> :=
    ["奈良市", "生駒市", "橿原市", "大和郡山市", "天理市", "桜井市",
     "大和高田市", "五條市", "生駒郡", "北葛城郡", "磯城郡"]

  /** The fallback region. */
  const Other := "その他"

  /** extractRegion, as the chain of `includes` tests it is written as. */
  function ExtractRegion(address: string): string {
    if Seqs.Contains(address, "奈良市") then "奈良市"
    else if Seqs.Contains(address, "生駒市") then "生駒市"
    else if Seqs.Contains(address, "橿原市") then "橿原市"
    else if Seqs.Contains(address, "大和郡山市") then "大和郡山市"
    else if Seqs.Contains(address, "天理市") then "天理市"
    else if Seqs.Contains(address, "桜井市") then "桜井市"
    else if Seqs.Contains(address, "大和高田市") then "大和高田市"
    else if Seqs.Contains(address, "五條市") then "五條市"
    else if Seqs.Contains(address, "生駒郡") then "生駒郡"
    else if Seqs.Contains(address, "北葛城郡") then "北葛城郡"
    else if Seqs.Contains(address, "磯城郡") then "磯城郡"
    else Other
  }

  /** Whether the address names a municipality. */
  function NamedIn(address: string): string -> bool {
    name => Seqs.Contains(address, name)
  }

  /** The reference reading of extractRegion: the first listed municipality the address names. */
  function FirstNamed(address: string): Option<string> {
    Seqs.Find(RegionNames, NamedIn(address))
  }

  /** A chain of `includes` tests over `names`, ending in the fallback. */
  function Chain(names: seq<string>, address: string): string {
    if names == [] then Other
    else if Seqs.Contains(address, names[0]) then names[0]
    else Chain(names[1..], address)
  }

  lemma {:induction false} ChainIsFind(names: seq<string>, address: string)
    ensures Chain(names, address) == Seqs.Find(names, NamedIn(address)).GetOr(Other)
    decreases |names|
  {
    if names != [] && !Seqs.Contains(address, names[0]) {
      ChainIsFind(names[1..], address);
      var p := NamedIn(address);
      assert Seqs.FindIndex(names, p) == match Seqs.FindIndex(names[1..], p) case None => None case Some(k) => Some(k + 1);
    }
  }

  /** The chain of tests is a first-match search over RegionNames. */
  lemma ExtractRegionIsFirstMatch(address: string)
    ensures ExtractRegion(address) == FirstNamed(address).GetOr(Other)
  {
    var t := RegionNames;
    assert Chain(t[11..], address) == Other;
    assert Chain(t[10..], address) == if Seqs.Contains(address, "磯城郡") then "磯城郡" else Chain(t[11..], address);
    assert Chain(t[9..], address) == if Seqs.Contains(address, "北葛城郡") then "北葛城郡" else Chain(t[10..], address);
    assert Chain(t[8..], address) == if Seqs.Contains(address, "生駒郡") then "生駒郡" else Chain(t[9..], address);
    assert Chain(t[7..], address) == if Seqs.Contains(address, "五條市") then "五條市" else Chain(t[8..], address);
    assert Chain(t[6..], address) == if Seqs.Contains(address, "大和高田市") then "大和高田市" else Chain(t[7..], address);
    assert Chain(t[5..], address) == if Seqs.Contains(address, "桜井市") then "桜井市" else Chain(t[6..], address);
    assert Chain(t[4..], address) == if Seqs.Contains(address, "天理市") then "天理市" else Chain(t[5..], address);
    assert Chain(t[3..], address) == if Seqs.Contains(address, "大和郡山市") then "大和郡山市" else Chain(t[4..], address);
    assert Chain(t[2..], address) == if Seqs.Contains(address, "橿原市") then "橿原市" else Chain(t[3..], address);
    assert Chain(t[1..], address) == if Seqs.Contains(address, "生駒市") then "生駒市" else Chain(t[2..], address);
    assert Chain(t, address) == if Seqs.Contains(address, "奈良市") then "奈良市" else Chain(t[1..], address);
    ChainIsFind(t, address);
  }

  lemma OtherNotListed()
    ensures Other !in RegionNames
  {
    forall k | 0 <= k < |RegionNames| ensures RegionNames[k] != Other {
      assert RegionNames[k][|RegionNames[k]| - 1] != Other[2];
    }
  }

  /** The address names the k-th listed municipality and none listed before it. */
  predicate NamedFirstAt(address: string, k: int) {
    0 <= k < |RegionNames| && Seqs.Contains(address, RegionNames[k]) &&
    forall j :: 0 <= j < k ==> !Seqs.Contains(address, RegionNames[j])
  }

  /** A listed municipality is named first, and is not the fallback. */
  lemma FoundFirst(address: string)
    requires FirstNamed(address).Some?
    ensures FirstNamed(address).value != Other && FirstNamed(address).value != ""
    ensures exists k :: NamedFirstAt(address, k) && RegionNames[k] == FirstNamed(address).value
  {
    OtherNotListed();
    var r := FirstNamed(address).value;
    var k :| 0 <= k < |RegionNames| && RegionNames[k] == r && forall j :: 0 <= j < k ==> !NamedIn(address)(RegionNames[j]);
    assert Seqs.Contains(address, RegionNames[k]);
    assert NamedFirstAt(address, k);
  }

  /** The facts of ExtractRegionSpec, about the first-match reading. */
  lemma FirstNamedSpec(address: string, r: string)
    requires r == FirstNamed(address).GetOr(Other)
    ensures r in RegionNames || r == Other
    ensures r != Other ==>
      exists k :: NamedFirstAt(address, k) && RegionNames[k] == r
    ensures r == Other <==> forall k :: 0 <= k < |RegionNames| ==> !Seqs.Contains(address, RegionNames[k])
    ensures r != ""
  {
    if FirstNamed(address).Some? {
      FoundFirst(address);
    } else {
      assert forall k :: 0 <= k < |RegionNames| ==> !NamedIn(address)(RegionNames[k]);
    }
  }

  /**
   * extractRegion gives one of the eleven listed names or the fallback; a listed name only
   * when the address contains it and contains no name listed before it; and the fallback
   * exactly when the address contains none of them.
   */
  lemma ExtractRegionSpec(address: string)
    ensures ExtractRegion(address) in RegionNames || ExtractRegion(address) == Other
    ensures ExtractRegion(address) != Other ==>
      exists k :: NamedFirstAt(address, k) && RegionNames[k] == ExtractRegion(address)
    ensures ExtractRegion(address) == Other <==> forall k :: 0 <= k < |RegionNames| ==> !Seqs.Contains(address, RegionNames[k])
    ensures ExtractRegion(address) != ""
  {
    ExtractRegionIsFirstMatch(address);
    FirstNamedSpec(address, ExtractRegion(address));
  }

  /** '奈良市' is checked first, so an address naming it is classified as '奈良市' whatever else it names. */
  lemma NaraFirst(address: string)
    requires Seqs.Contains(address, "奈良市")
    ensures ExtractRegion(address) == "奈良市"
  {
  }

  /** The map callback: a shop keeps a truthy region and otherwise gets one from its address. */
  function FillRegion(shop: Shop): (r: Shop)
    ensures Truthy(r.region)
    ensures Truthy(shop.region) ==> r == shop
    ensures !Truthy(shop.region) ==> r.region == Some(ExtractRegion(shop.address))
    ensures r.(region := shop.region) == shop
  {
    if Truthy(shop.region) then shop
    else
      ExtractRegionSpec(shop.address);
      shop.(region := Some(ExtractRegion(shop.address)))
  }

  /** The whole pass, as a value. */
  function FillMissing(shops: seq<Shop>): seq<Shop> {
    Seqs.Map(shops, FillRegion)
  }

  /**
   * The pass keeps the length and order of the list, changes no shop but its region, keeps
   * every truthy region, leaves every shop with a truthy region, and running it again
   * changes nothing.
   */
  lemma FillMissingSpec(shops: seq<Shop>)
    ensures |FillMissing(shops)| == |shops|
    ensures forall i :: 0 <= i < |shops| ==> FillMissing(shops)[i].(region := shops[i].region) == shops[i]
    ensures forall i :: 0 <= i < |shops| && Truthy(shops[i].region) ==> FillMissing(shops)[i] == shops[i]
    ensures forall i :: 0 <= i < |shops| && !Truthy(shops[i].region) ==>
      FillMissing(shops)[i].region == Some(ExtractRegion(shops[i].address))
    ensures forall i :: 0 <= i < |shops| ==> Truthy(FillMissing(shops)[i].region)
    ensures FillMissing(FillMissing(shops)) == FillMissing(shops)
  {
    var once := FillMissing(shops);
    assert forall i :: 0 <= i < |once| ==> FillMissing(once)[i] == once[i];
  }

  /** The migration over the loaded list, updating each shop object in place. */
  method AddRegions(shops: array<Shop>)
    modifies shops
    ensures shops[..] == FillMissing(old(shops[..]))
  {
    var i := 0;
    while i < shops.Length
      invariant 0 <= i <= shops.Length
      invariant forall k :: 0 <= k < i ==> shops[k] == FillRegion(old(shops[k]))
      invariant forall k :: i <= k < shops.Length ==> shops[k] == old(shops[k])
    {
      if !Truthy(shops[i].region) {
        shops[i] := shops[i].(region := Some(ExtractRegion(shops[i].address)));
      }
      i := i + 1;
    }
  }
}
