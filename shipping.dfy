/**
 * Shipping-rate lookup (`src/services/shipping.ts`): a city's zone comes from the
 * `ph_cities` table, or failing that from `metro_manila_cities`; the zone's row in
 * `shipping_rates` gives the fee. Amounts are in centavos.
 */
module Shipping {
  import opened Common
  import opened Text
  import opened Sorting

  /** The 450.00 "Rest of Philippines" fee. */
  const DefaultRate: int := 45000

  /** A city row; an empty `zoneId` stands for a null `zone_id`. */
  datatype CityRow = CityRow(name: string, zoneId: string)
  datatype RateRow = RateRow(zoneId: string, rate: JsNum)
  datatype ZoneRow = ZoneRow(id: string, name: string, zoneType: string, enabled: bool)
  datatype ShippingDb = ShippingDb(phCities: seq<CityRow>, metroCities: seq<CityRow>, rates: seq<RateRow>, zones: seq<ZoneRow>)

  /** `ilike(column, value)` with no wildcard in the value: equality up to ASCII case. */
  predicate ILikeEq(a: string, b: string) {
    Lower(a) == Lower(b)
  }

  /** The zone a city table assigns to `city`: its single matching row, when that row has a zone. */
  function CityZone(table: seq<CityRow>, city: string): (r: Option<string>)
    ensures r.Some? ==> r.value != "" && exists i :: 0 <= i < |table| && ILikeEq(table[i].name, city) && table[i].zoneId == r.value
  {
    match Single(table, (c: CityRow) => ILikeEq(c.name, city))
    case Some(row) => if row.zoneId != "" then Some(row.zoneId) else None
    case None => None
  }

  /** The fee of a zone: its single rate row's truthy rate, else the default. */
  function ZoneRate(db: ShippingDb, zone: string): (r: int)
    ensures r == DefaultRate || exists i :: 0 <= i < |db.rates| && db.rates[i].zoneId == zone && db.rates[i].rate == Val(r) && r != 0
  {
    match Single(db.rates, (x: RateRow) => x.zoneId == zone)
    case Some(row) => if Truthy(row.rate) then row.rate.v else DefaultRate
    case None => DefaultRate
  }

  /**
   * `getShippingRate(cityName)`; `thrown` stands for an exception raised by the client
   * while looking up, which the function turns into the default fee.
   */
  function ShippingRate(db: ShippingDb, city: string, thrown: bool): (r: int)
    ensures r == DefaultRate || exists i :: 0 <= i < |db.rates| && db.rates[i].rate == Val(r) && r != 0
  {
    if thrown then DefaultRate
    else match CityZone(db.phCities, city)
      case Some(z) => ZoneRate(db, z)
      case None =>
        match CityZone(db.metroCities, city)
        case Some(z) => ZoneRate(db, z)
        case None => DefaultRate
  }

  /** When `ph_cities` yields a zone, the Metro Manila table is never consulted. */
  lemma PhCitiesTakePrecedence(db: ShippingDb, city: string, metro: seq<CityRow>)
    requires CityZone(db.phCities, city).Some?
    ensures ShippingRate(db, city, false) == ShippingRate(db.(metroCities := metro), city, false)
    ensures ShippingRate(db, city, false) == ZoneRate(db, CityZone(db.phCities, city).value)
  {
  }

  /** A city that neither table lists gets the default fee. */
  lemma UnknownCityGetsDefault(db: ShippingDb, city: string)
    requires forall i :: 0 <= i < |db.phCities| ==> !ILikeEq(db.phCities[i].name, city)
    requires forall i :: 0 <= i < |db.metroCities| ==> !ILikeEq(db.metroCities[i].name, city)
    ensures ShippingRate(db, city, false) == DefaultRate
  {
    SingleNone(db.phCities, (c: CityRow) => ILikeEq(c.name, city));
    SingleNone(db.metroCities, (c: CityRow) => ILikeEq(c.name, city));
  }

  /** A city listed once in `ph_cities` with a zone that has one rate row is charged that rate, or the default when it is 0 or null. */
  lemma ListedCityGetsZoneRate(db: ShippingDb, city: string, c: nat, k: nat)
    requires c < |db.phCities| && ILikeEq(db.phCities[c].name, city) && db.phCities[c].zoneId != ""
    requires forall j :: 0 <= j < |db.phCities| && j != c ==> !ILikeEq(db.phCities[j].name, city)
    requires k < |db.rates| && db.rates[k].zoneId == db.phCities[c].zoneId
    requires forall j :: 0 <= j < |db.rates| && j != k ==> db.rates[j].zoneId != db.phCities[c].zoneId
    ensures ShippingRate(db, city, false) == if Truthy(db.rates[k].rate) then db.rates[k].rate.v else DefaultRate
  {
    SingleUnique(db.phCities, (x: CityRow) => ILikeEq(x.name, city), c);
    SingleUnique(db.rates, (x: RateRow) => x.zoneId == db.phCities[c].zoneId, k);
  }

  /** The zone row a city row joins to through `zone_id`. */
  function JoinedZone(db: ShippingDb, row: CityRow): (r: Option<ZoneRow>)
    ensures r.Some? ==> r.value in db.zones && r.value.id == row.zoneId && row.zoneId != ""
  {
    if row.zoneId == "" then None
    else match Find(db.zones, (z: ZoneRow) => z.id == row.zoneId)
      case Some(i) => Some(db.zones[i])
      case None => None
  }

  /** The zone joined to a city table's single row for `city`. */
  function TableZone(db: ShippingDb, table: seq<CityRow>, city: string): Option<ZoneRow> {
    match Single(table, (c: CityRow) => ILikeEq(c.name, city))
    case Some(row) => JoinedZone(db, row)
    case None => None
  }

  /** `detectShippingZone(cityName)`: the zone from `ph_cities`, else from `metro_manila_cities`, else null. */
  function DetectShippingZone(db: ShippingDb, city: string): (r: Option<ZoneRow>)
    ensures r.Some? ==> r.value in db.zones
    ensures TableZone(db, db.phCities, city).Some? ==> r == TableZone(db, db.phCities, city)
  {
    match TableZone(db, db.phCities, city)
    case Some(z) => Some(z)
    case None => TableZone(db, db.metroCities, city)
  }

  /** Every city row with a zone refers to an existing zone (the foreign key). */
  predicate ZonesExist(db: ShippingDb) {
    (forall i :: 0 <= i < |db.phCities| && db.phCities[i].zoneId != "" ==>
       exists z :: 0 <= z < |db.zones| && db.zones[z].id == db.phCities[i].zoneId)
    && (forall i :: 0 <= i < |db.metroCities| && db.metroCities[i].zoneId != "" ==>
       exists z :: 0 <= z < |db.zones| && db.zones[z].id == db.metroCities[i].zoneId)
  }

  lemma TableZoneAgrees(db: ShippingDb, table: seq<CityRow>, city: string)
    requires forall i :: 0 <= i < |table| && table[i].zoneId != "" ==>
       exists z :: 0 <= z < |db.zones| && db.zones[z].id == table[i].zoneId
    ensures TableZone(db, table, city).None? <==> CityZone(table, city).None?
    ensures TableZone(db, table, city).Some? ==> TableZone(db, table, city).value.id == CityZone(table, city).value
  {
    match Single(table, (c: CityRow) => ILikeEq(c.name, city))
    case Some(row) =>
      if row.zoneId != "" {
        var i :| 0 <= i < |table| && table[i] == row;
        var z :| 0 <= z < |db.zones| && db.zones[z].id == table[i].zoneId;
      }
    case None =>
  }

  /**
   * Zone detection and the rate lookup follow the same precedence: with the foreign
   * key intact, no detected zone means the default fee, and a detected zone means that zone's fee.
   */
  lemma DetectionMatchesRate(db: ShippingDb, city: string)
    requires ZonesExist(db)
    ensures DetectShippingZone(db, city).None? ==> ShippingRate(db, city, false) == DefaultRate
    ensures DetectShippingZone(db, city).Some? ==> ShippingRate(db, city, false) == ZoneRate(db, DetectShippingZone(db, city).value.id)
  {
    TableZoneAgrees(db, db.phCities, city);
    TableZoneAgrees(db, db.metroCities, city);
  }

  /** Sort key of a zone: its name, ascending. */
  function ZoneKey(z: ZoneRow): seq<int> {
    Codes(z.name)
  }

  /** The enabled zones ordered by name. */
  function EnabledByName(zones: seq<ZoneRow>): seq<ZoneRow> {
    SortByKey(Filter(zones, (z: ZoneRow) => z.enabled), ZoneKey)
  }

  /** `getShippingZones()`: a query error is raised; otherwise the enabled zones ordered by name. */
  function ShippingZones(zones: seq<ZoneRow>, dbError: Option<string>): (r: Result<seq<ZoneRow>>)
    ensures r.Err? <==> dbError.Some?
    ensures r.Err? ==> r.message == dbError.value
  {
    if dbError.Some? then Err(dbError.value) else Ok(EnabledByName(zones))
  }

  /** The listed zones are exactly the enabled ones, in name order. */
  lemma ShippingZonesSpec(zones: seq<ZoneRow>)
    ensures ShippingZones(zones, None).Ok?
    ensures SortedBy(ShippingZones(zones, None).value, ZoneKey)
    ensures forall z :: z in ShippingZones(zones, None).value <==> z in zones && z.enabled
  {
    SortByKeySpec(Filter(zones, (z: ZoneRow) => z.enabled), ZoneKey);
  }

  /** `getShippingRatesByZone(zoneId)`: a query error is raised; otherwise the zone's rate rows in table order. */
  function RatesByZone(db: ShippingDb, zoneId: string, dbError: Option<string>): (r: Result<seq<RateRow>>)
    ensures r.Err? <==> dbError.Some?
    ensures r.Err? ==> r.message == dbError.value
    ensures r.Ok? ==> forall x :: x in r.value <==> x in db.rates && x.zoneId == zoneId
  {
    if dbError.Some? then Err(dbError.value) else Ok(Filter(db.rates, (x: RateRow) => x.zoneId == zoneId))
  }

  /** The rate the fee lookup charges for a zone is the rate of the zone's only row whenever that row is listed alone and has a non-zero rate. */
  lemma ZoneRateFromListing(db: ShippingDb, zoneId: string)
    requires |RatesByZone(db, zoneId, None).value| == 1 && Truthy(RatesByZone(db, zoneId, None).value[0].rate)
    ensures ZoneRate(db, zoneId) == RatesByZone(db, zoneId, None).value[0].rate.v
  {
    var p := (x: RateRow) => x.zoneId == zoneId;
    var row := Filter(db.rates, p)[0];
    assert row in Filter(db.rates, p);
    var k :| 0 <= k < |db.rates| && db.rates[k] == row;
    forall j | 0 <= j < |db.rates| && j != k ensures db.rates[j].zoneId != zoneId {
      if db.rates[j].zoneId == zoneId {
        if j < k { FilterAtLeastTwo(db.rates, p, j, k); } else { FilterAtLeastTwo(db.rates, p, k, j); }
      }
    }
    SingleUnique(db.rates, p, k);
  }
}
