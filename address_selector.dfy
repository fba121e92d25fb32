/**
 * The region/province/city picker (`src/components/common/AddressSelector.tsx`) over the
 * location list the transform produces: the display formatter, the derived option lists
 * and the cascade of resets when a level changes.
 */
module AddressSelector {
  import opened Common
  import opened Text
  import opened UpdateLocations

  /** `word.charAt(0) + word.slice(1).toLowerCase()`. */
  function TitleWord(w: string): (r: string)
    ensures |r| == |w|
    ensures |w| > 0 ==> r[0] == w[0]
    ensures forall i :: 1 <= i < |w| ==> r[i] == LowerChar(w[i])
  {
    if |w| == 0 then "" else [w[0]] + Lower(w[1..])
  }

  function TitleWords(ws: seq<string>): (r: seq<string>)
    ensures |r| == |ws| && forall i :: 0 <= i < |ws| ==> r[i] == TitleWord(ws[i])
  {
    if |ws| == 0 then [] else [TitleWord(ws[0])] + TitleWords(ws[1..])
  }

  /** Split on spaces, title-case each word, join with single spaces. */
  function TitleCase(name: string): string {
    Join(TitleWords(Split(name, ' ')), ' ')
  }

  /** `formatName`: title case, then the first `National Capital Region - ` becomes `NCR - `, and the first `City Of ` and `Municipality Of ` go. */
  function FormatName(name: string): string {
    var t := TitleCase(name);
    ReplaceFirst(ReplaceFirst(ReplaceFirst(t, "National Capital Region - ", "NCR - "), "City Of ", ""), "Municipality Of ", "")
  }

  /** Position `i` keeps its character when it starts a word, and is lower-cased otherwise. */
  function TitleAt(s: string, i: nat): char
    requires i < |s|
  {
    if i == 0 || s[i - 1] == ' ' then s[i] else LowerChar(s[i])
  }

  lemma {:induction false} JoinTitleWords(parts: seq<string>)
    requires |parts| >= 1
    requires forall k :: 0 <= k < |parts| ==> ' ' !in parts[k]
    ensures |Join(TitleWords(parts), ' ')| == |Join(parts, ' ')|
    ensures forall i :: 0 <= i < |Join(parts, ' ')| ==> Join(TitleWords(parts), ' ')[i] == TitleAt(Join(parts, ' '), i)
  {
    var a := parts[0];
    if |parts| == 1 {
      assert Join(TitleWords(parts), ' ') == TitleWord(a);
      forall i | 0 <= i < |a| ensures TitleWord(a)[i] == TitleAt(a, i) {
        if i > 0 { assert a[i - 1] in a; }
      }
    } else {
      var b := Join(parts[1..], ' ');
      var tb := Join(TitleWords(parts[1..]), ' ');
      JoinTitleWords(parts[1..]);
      assert TitleWords(parts)[1..] == TitleWords(parts[1..]);
      var s := a + [' '] + b;
      var t := TitleWord(a) + [' '] + tb;
      assert Join(parts, ' ') == s;
      assert Join(TitleWords(parts), ' ') == t;
      forall i | 0 <= i < |s| ensures t[i] == TitleAt(s, i) {
        if i < |a| {
          assert s[i] == a[i] && t[i] == TitleWord(a)[i];
          if i > 0 { assert s[i - 1] == a[i - 1]; assert a[i - 1] in a; }
        } else if i == |a| {
          assert s[i] == ' ' && t[i] == ' ';
        } else {
          var j := i - |a| - 1;
          assert s[i] == b[j] && t[i] == tb[j];
          if j > 0 { assert s[i - 1] == b[j - 1]; }
          else { assert s[i - 1] == ' '; }
        }
      }
    }
  }

  /** Title case keeps the first character of every word and lower-cases the others, leaving the spaces in place. */
  lemma TitleCaseSpec(name: string)
    ensures |TitleCase(name)| == |name|
    ensures forall i :: 0 <= i < |name| ==> TitleCase(name)[i] == TitleAt(name, i)
  {
    JoinSplit(name, ' ');
    JoinTitleWords(Split(name, ' '));
  }

  /** Only the first occurrence of each pattern is rewritten: a name with none of them is only title-cased. */
  lemma FormatWithoutPatterns(name: string)
    requires !Contains(TitleCase(name), "National Capital Region - ")
    requires !Contains(TitleCase(name), "City Of ")
    requires !Contains(TitleCase(name), "Municipality Of ")
    ensures FormatName(name) == TitleCase(name)
  {
  }

  /** The region record named `region`, if the list has one. */
  function RegionNamed(locs: seq<Region>, region: string): (r: Option<nat>)
    ensures r.Some? ==> r.value < |locs| && locs[r.value].regionName == region
    ensures r.None? ==> forall i :: 0 <= i < |locs| ==> locs[i].regionName != region
  {
    Find(locs, (x: Region) => x.regionName == region)
  }

  /** `Object.keys` of a region's provinces: their names, in order. */
  function ProvinceNames(ps: seq<Province>): seq<string> {
    Map(ps, (p: Province) => p.name)
  }

  /** The province options: none until a region is picked; then that region's province keys, none for an unknown region. */
  function Provinces(locs: seq<Region>, region: string): (r: seq<string>)
    ensures region == "" ==> r == []
    ensures region != "" && RegionNamed(locs, region).None? ==> r == []
    ensures region != "" && RegionNamed(locs, region).Some? ==> r == ProvinceNames(locs[RegionNamed(locs, region).value].provinces)
  {
    if region == "" then []
    else match RegionNamed(locs, region)
      case None => []
      case Some(i) => ProvinceNames(locs[i].provinces)
  }

  /** The city options: none until both a region and a province are picked; then that province's municipality keys. */
  function Cities(locs: seq<Region>, region: string, province: string): (r: seq<string>)
    ensures region == "" || province == "" ==> r == []
    ensures region != "" && province != "" && RegionNamed(locs, region).Some? ==>
      var ps := locs[RegionNamed(locs, region).value].provinces;
      match Find(ps, (p: Province) => p.name == province)
      case Some(j) => r == ps[j].municipalities
      case None => r == []
  {
    if region == "" || province == "" then []
    else match RegionNamed(locs, region)
      case None => []
      case Some(i) =>
        var ps := locs[i].provinces;
        match Find(ps, (p: Province) => p.name == province)
        case Some(j) => ps[j].municipalities
        case None => []
  }

  /** Every province offered belongs to a region with the selected name. */
  lemma ProvinceOptionsBelong(locs: seq<Region>, region: string, p: string)
    requires p in Provinces(locs, region)
    ensures exists i, j :: 0 <= i < |locs| && 0 <= j < |locs[i].provinces| && locs[i].regionName == region && locs[i].provinces[j].name == p
  {
    var i := RegionNamed(locs, region).value;
    var ps := locs[i].provinces;
    var j :| 0 <= j < |ProvinceNames(ps)| && ProvinceNames(ps)[j] == p;
    assert ps[j].name == p;
  }

  /** Every city offered is a municipality of a province with the selected name, in a region with the selected name. */
  lemma CityOptionsBelong(locs: seq<Region>, region: string, province: string, c: string)
    requires c in Cities(locs, region, province)
    ensures exists i, j ::
      0 <= i < |locs| && 0 <= j < |locs[i].provinces| && locs[i].regionName == region
      && locs[i].provinces[j].name == province && c in locs[i].provinces[j].municipalities
  {
    var i := RegionNamed(locs, region).value;
    var ps := locs[i].provinces;
    var j := Find(ps, (p: Province) => p.name == province).value;
    assert c in ps[j].municipalities;
  }

  datatype Selection = Selection(region: string, province: string, city: string)

  /** The selector's three selected values and the selections it has reported to its parent. */
  class Selector {
    const locations: seq<Region>
    var selectedRegion: string
    var selectedProvince: string
    var selectedCity: string
    var reported: seq<Selection>

    /** Each field starts from its default, or empty. */
    constructor(locs: seq<Region>, defaultRegion: string, defaultProvince: string, defaultCity: string)
      ensures locations == locs
      ensures selectedRegion == defaultRegion && selectedProvince == defaultProvince && selectedCity == defaultCity
      ensures reported == []
    {
      locations := locs;
      selectedRegion := defaultRegion;
      selectedProvince := defaultProvince;
      selectedCity := defaultCity;
      reported := [];
    }

    function ProvinceOptions(): seq<string>
      reads this
    {
      Provinces(locations, selectedRegion)
    }

    function CityOptions(): seq<string>
      reads this
    {
      Cities(locations, selectedRegion, selectedProvince)
    }

    /** A new region clears the province and the city, and is reported with them empty. */
    method HandleRegionChange(region: string)
      modifies this
      ensures selectedRegion == region && selectedProvince == "" && selectedCity == ""
      ensures reported == old(reported) + [Selection(region, "", "")]
      ensures CityOptions() == []
    {
      selectedRegion := region;
      selectedProvince := "";
      selectedCity := "";
      reported := reported + [Selection(region, "", "")];
    }

    /** A new province keeps the region and clears the city. */
    method HandleProvinceChange(province: string)
      modifies this
      ensures selectedRegion == old(selectedRegion) && selectedProvince == province && selectedCity == ""
      ensures reported == old(reported) + [Selection(old(selectedRegion), province, "")]
    {
      selectedProvince := province;
      selectedCity := "";
      reported := reported + [Selection(selectedRegion, province, "")];
    }

    /** A new city is reported together with the current region and province. */
    method HandleCityChange(city: string)
      modifies this
      ensures selectedRegion == old(selectedRegion) && selectedProvince == old(selectedProvince) && selectedCity == city
      ensures reported == old(reported) + [Selection(old(selectedRegion), old(selectedProvince), city)]
    {
      selectedCity := city;
      reported := reported + [Selection(selectedRegion, selectedProvince, city)];
    }

    /** A changed default overrides its field only when it is non-empty; nothing is reported. */
    method SyncDefaults(defaultRegion: string, defaultProvince: string, defaultCity: string)
      modifies this
      ensures selectedRegion == (if defaultRegion != "" then defaultRegion else old(selectedRegion))
      ensures selectedProvince == (if defaultProvince != "" then defaultProvince else old(selectedProvince))
      ensures selectedCity == (if defaultCity != "" then defaultCity else old(selectedCity))
      ensures reported == old(reported)
    {
      if defaultRegion != "" { selectedRegion := defaultRegion; }
      if defaultProvince != "" { selectedProvince := defaultProvince; }
      if defaultCity != "" { selectedCity := defaultCity; }
    }
  }
}
