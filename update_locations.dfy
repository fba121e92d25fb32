/**
 * The location-data transform (`dev/update_locations.ts`): each region entry of the fetched
 * JSON object becomes a region record with its provinces and their municipality names, the
 * barangay lists being dropped. JSON objects are association lists in entry order.
 */
module UpdateLocations {
  import opened Common

  /** A province entry: its key and the keys of its `municipality_list`, if that field is set. */
  datatype RawProvince = RawProvince(name: string, municipalityList: Option<seq<string>>)

  /** A region entry: its key, its `region_name` field (empty when missing) and its `province_list`, if set. */
  datatype RawRegion = RawRegion(key: string, regionName: string, provinceList: Option<seq<RawProvince>>)

  /** A province of the output: its name and the names of its municipalities. */
  datatype Province = Province(name: string, municipalities: seq<string>)

  /** A region of the output, as the address selector reads it. */
  datatype Region = Region(regionName: string, provinces: seq<Province>)

  /** The output province for a raw one: the same key, the municipality keys or none. */
  function ProvinceOf(p: RawProvince): (r: Province)
    ensures r.name == p.name
    ensures p.municipalityList.Some? ==> r.municipalities == p.municipalityList.value
    ensures p.municipalityList.None? ==> r.municipalities == []
  {
    Province(p.name, if p.municipalityList.Some? then p.municipalityList.value else [])
  }

  /** The output region for a raw entry. */
  function RegionOf(r: RawRegion): (out: Region)
    ensures out.regionName == (if r.regionName != "" then r.regionName else r.key)
    ensures r.provinceList.None? ==> out.provinces == []
    ensures r.provinceList.Some? ==> |out.provinces| == |r.provinceList.value|
    ensures r.provinceList.Some? ==> forall j :: 0 <= j < |out.provinces| ==> out.provinces[j] == ProvinceOf(r.provinceList.value[j])
  {
    var ps := if r.provinceList.Some? then r.provinceList.value else [];
    Region(if r.regionName != "" then r.regionName else r.key, seq(|ps|, j requires 0 <= j < |ps| => ProvinceOf(ps[j])))
  }

  /** The nested loops of `main`: one region per entry, in entry order. */
  method Transform(entries: seq<RawRegion>) returns (regions: seq<Region>)
    ensures |regions| == |entries|
    ensures forall i :: 0 <= i < |entries| ==> regions[i] == RegionOf(entries[i])
  {
    regions := [];
    for i := 0 to |entries|
      invariant |regions| == i
      invariant forall k :: 0 <= k < i ==> regions[k] == RegionOf(entries[k])
    {
      var entry := entries[i];
      var regionName := entry.key;
      if entry.regionName != "" {
        regionName := entry.regionName;
      }
      var provinces: seq<Province> := [];
      if entry.provinceList.Some? {
        var list := entry.provinceList.value;
        for j := 0 to |list|
          invariant |provinces| == j
          invariant forall k :: 0 <= k < j ==> provinces[k] == ProvinceOf(list[k])
        {
          var municipalities: seq<string> := [];
          if list[j].municipalityList.Some? {
            var munis := list[j].municipalityList.value;
            for m := 0 to |munis|
              invariant municipalities == munis[..m]
            {
              municipalities := municipalities + [munis[m]];
            }
            assert munis[..|munis|] == munis;
          }
          provinces := provinces + [Province(list[j].name, municipalities)];
        }
      }
      regions := regions + [Region(regionName, provinces)];
    }
  }
}
