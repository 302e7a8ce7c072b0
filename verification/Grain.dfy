/** The fact select keeps the grain of the trips and resolves every dimension key as intended. */
module Grain {
  import opened Wrappers
  import opened Cells
  import opened Batches
  import opened Lifecycle
  import opened Relational
  import opened Warehouse
  import opened Months

  // ---------- what a fact row should be ----------

  function DateKey(at: Option<Timestamp>): int {
    if at.Some? then YearMonthDay(at.value.date) else 0
  }

  function ZoneKey(zones: set<int>, location: Option<int>): int {
    if location.Some? && location.value in zones then location.value else 0
  }

  function VendorKey(vendor: Option<int>): int {
    if vendor.Some? && vendor.value in {1, 2, 6, 7} then vendor.value else 0
  }

  function NameOf(codes: seq<CodeName>, code: Option<int>): string {
    if codes == [] then "Unknown"
    else if code == Some(codes[0].code) then codes[0].name
    else NameOf(codes[1..], code)
  }

  /** The fact row of one trip, given the location ids of the loaded zones and the two seeds. No join is
      involved. */
  function ResolvedWith(trip: Trip, zones: set<int>, rates: seq<CodeName>, payments: seq<CodeName>): Fact {
    Fact(trip, DateKey(trip.pickup), DateKey(trip.dropoff),
         ZoneKey(zones, trip.pickupLocation), ZoneKey(zones, trip.dropoffLocation),
         VendorKey(trip.vendor), NameOf(rates, trip.rateCode), NameOf(payments, trip.payment))
  }

  function Resolved(trip: Trip, zones: set<int>): Fact {
    ResolvedWith(trip, zones, RATE_CODES, PAYMENT_TYPES)
  }

  function Resolve(trips: seq<Trip>, zones: set<int>): seq<Fact> {
    seq(|trips|, i requires 0 <= i < |trips| => Resolved(trips[i], zones))
  }

  function LocationIds(zones: seq<RawRow>): set<int> {
    set z | z in zones && Location(z).Some? :: Location(z).value
  }

  // ---------- the dates ----------

  /** The calendar encoding keeps the order of dates. */
  lemma DateKeysGrow(d: Date, e: Date)
    requires DateBefore(d, e)
    ensures YearMonthDay(d) < YearMonthDay(e)
  {
    if d.year < e.year {
      assert d.month * 100 + d.day < 10000;
    }
  }

  /** It is injective on dates, and never 0. */
  lemma DateKeysDiffer(d: Date, e: Date)
    ensures YearMonthDay(d) == YearMonthDay(e) ==> d == e
    ensures YearMonthDay(d) > 0
  {
    if DateBefore(d, e) {
      DateKeysGrow(d, e);
    } else if DateBefore(e, d) {
      DateKeysGrow(e, d);
    }
  }

  /** A date dimension: key 0 for the unknown date, the calendar encoding for every date at most once. */
  ghost predicate DatesOk(dates: seq<DateDim>) {
    && (forall i :: 0 <= i < |dates| ==> dates[i].key == if dates[i].date.Some? then YearMonthDay(dates[i].date.value) else 0)
    && (forall i, j :: 0 <= i < |dates| && 0 <= j < |dates| && dates[i].date == dates[j].date ==> i == j)
  }

  lemma DimDateOk(trips: seq<Trip>)
    ensures DatesOk(DimDate(trips))
  {
    DistinctIsDistinct(PickupDates(trips) + DropoffDates(trips));
  }

  lemma {:induction false} DatesObserved(trips: seq<Trip>, k: nat)
    requires k < |trips|
    ensures trips[k].pickup.Some? ==> trips[k].pickup.value.date in PickupDates(trips)
    ensures trips[k].dropoff.Some? ==> trips[k].dropoff.value.date in DropoffDates(trips)
  {
    if k < |trips| - 1 {
      DatesObserved(trips[..|trips| - 1], k);
    }
  }

  ghost predicate HasDate(dates: seq<DateDim>, date: Option<Date>) {
    date.Some? ==> DateDim(YearMonthDay(date.value), date) in dates
  }

  lemma DimDateCovers(trips: seq<Trip>, k: nat)
    requires k < |trips|
    ensures HasDate(DimDate(trips), DateOf(trips[k].pickup)) && HasDate(DimDate(trips), DateOf(trips[k].dropoff))
  {
    var all := PickupDates(trips) + DropoffDates(trips);
    DatesObserved(trips, k);
    DistinctIsDistinct(all);
    DimDateHas(trips, DateOf(trips[k].pickup));
    DimDateHas(trips, DateOf(trips[k].dropoff));
  }

  lemma DimDateHas(trips: seq<Trip>, date: Option<Date>)
    requires date.Some? ==> date.value in Distinct(PickupDates(trips) + DropoffDates(trips))
    ensures HasDate(DimDate(trips), date)
  {
    if date.Some? {
      var dates := Distinct(PickupDates(trips) + DropoffDates(trips));
      var i :| 0 <= i < |dates| && dates[i] == date.value;
      assert DimDate(trips)[i + 1] == DateDim(YearMonthDay(date.value), date);
    }
  }

  function FoundDate(date: Option<Date>): Option<DateDim> {
    if date.Some? then Some(DateDim(YearMonthDay(date.value), date)) else None
  }

  lemma JoinPickupDateGrain(ws: seq<Wide>, dates: seq<DateDim>)
    requires DatesOk(dates) && forall k :: 0 <= k < |ws| ==> HasDate(dates, DateOf(ws[k].trip.pickup))
    ensures |JoinPickupDate(ws, dates)| == |ws|
    ensures forall k :: 0 <= k < |ws| ==>
      JoinPickupDate(ws, dates)[k] == ws[k].(pickupDate := FoundDate(DateOf(ws[k].trip.pickup)))
  {
    var on := (w: Wide, d: DateDim) => SqlEq(DateOf(w.trip.pickup), d.date);
    var put := (w: Wide, d: Option<DateDim>) => w.(pickupDate := d);
    LeftJoinKeepsGrain(ws, dates, on, put, seq(|ws|, k requires 0 <= k < |ws| => FoundDate(DateOf(ws[k].trip.pickup))));
  }

  lemma JoinDropoffDateGrain(ws: seq<Wide>, dates: seq<DateDim>)
    requires DatesOk(dates) && forall k :: 0 <= k < |ws| ==> HasDate(dates, DateOf(ws[k].trip.dropoff))
    ensures |JoinDropoffDate(ws, dates)| == |ws|
    ensures forall k :: 0 <= k < |ws| ==>
      JoinDropoffDate(ws, dates)[k] == ws[k].(dropoffDate := FoundDate(DateOf(ws[k].trip.dropoff)))
  {
    var on := (w: Wide, d: DateDim) => SqlEq(DateOf(w.trip.dropoff), d.date);
    var put := (w: Wide, d: Option<DateDim>) => w.(dropoffDate := d);
    LeftJoinKeepsGrain(ws, dates, on, put, seq(|ws|, k requires 0 <= k < |ws| => FoundDate(DateOf(ws[k].trip.dropoff))));
  }

  // ---------- the zones ----------

  /** The zones of one version have distinct locations. */
  ghost predicate ZonesDistinct(zones: seq<RawRow>) {
    forall i, j :: 0 <= i < |zones| && 0 <= j < |zones| && i != j ==>
      Location(zones[i]).None? || Location(zones[i]) != Location(zones[j])
  }

  ghost function FoundZone(zones: seq<RawRow>, location: Option<int>): (z: Option<ZoneDim>)
    ensures Finds(location, DimZone(zones), (o: Option<int>, z: ZoneDim) => SqlEq(o, z.location), z)
    ensures (if z.Some? then Coalesce(z.value.key, 0) else 0) == ZoneKey(LocationIds(zones), location)
  {
    if k :| 0 <= k < |zones| && SqlEq(location, Location(zones[k])) then
      assert DimZone(zones)[k + 1] in DimZone(zones);
      Some(DimZone(zones)[k + 1])
    else
      None
  }

  /** A column of trips joined with the zone dimension meets the zone found for it, and no other. */
  lemma ZoneHits(w: Wide, zones: seq<RawRow>, location: Option<int>, on: (Wide, ZoneDim) -> bool)
    requires ZonesDistinct(zones)
    requires forall z :: on(w, z) == SqlEq(location, z.location)
    ensures AtMostOneHit(w, DimZone(zones), on) && Finds(w, DimZone(zones), on, FoundZone(zones, location))
  {
    var dim := DimZone(zones);
    assert dim[0].location == None;
    assert forall i :: 1 <= i < |dim| ==> dim[i].location == Location(zones[i - 1]);
  }

  lemma JoinPickupZoneGrain(ws: seq<Wide>, zones: seq<RawRow>)
    requires ZonesDistinct(zones)
    ensures |JoinPickupZone(ws, DimZone(zones))| == |ws|
    ensures forall k :: 0 <= k < |ws| ==>
      JoinPickupZone(ws, DimZone(zones))[k] == ws[k].(pickupZone := FoundZone(zones, ws[k].trip.pickupLocation))
  {
    var on := (w: Wide, z: ZoneDim) => SqlEq(w.trip.pickupLocation, z.location);
    var put := (w: Wide, z: Option<ZoneDim>) => w.(pickupZone := z);
    forall k | 0 <= k < |ws| {
      ZoneHits(ws[k], zones, ws[k].trip.pickupLocation, on);
    }
    LeftJoinKeepsGrain(ws, DimZone(zones), on, put,
      seq(|ws|, k requires 0 <= k < |ws| => FoundZone(zones, ws[k].trip.pickupLocation)));
  }

  lemma JoinDropoffZoneGrain(ws: seq<Wide>, zones: seq<RawRow>)
    requires ZonesDistinct(zones)
    ensures |JoinDropoffZone(ws, DimZone(zones))| == |ws|
    ensures forall k :: 0 <= k < |ws| ==>
      JoinDropoffZone(ws, DimZone(zones))[k] == ws[k].(dropoffZone := FoundZone(zones, ws[k].trip.dropoffLocation))
  {
    var on := (w: Wide, z: ZoneDim) => SqlEq(w.trip.dropoffLocation, z.location);
    var put := (w: Wide, z: Option<ZoneDim>) => w.(dropoffZone := z);
    forall k | 0 <= k < |ws| {
      ZoneHits(ws[k], zones, ws[k].trip.dropoffLocation, on);
    }
    LeftJoinKeepsGrain(ws, DimZone(zones), on, put,
      seq(|ws|, k requires 0 <= k < |ws| => FoundZone(zones, ws[k].trip.dropoffLocation)));
  }

  // ---------- the seeds ----------

  function FoundVendor(vendor: Option<int>): Option<VendorDim> {
    match vendor
    case Some(1) => Some(DIM_VENDOR[1])
    case Some(2) => Some(DIM_VENDOR[2])
    case Some(6) => Some(DIM_VENDOR[3])
    case Some(7) => Some(DIM_VENDOR[4])
    case _ => None
  }

  function FoundCode(codes: seq<CodeName>, code: Option<int>): (c: Option<CodeName>)
    ensures c.Some? ==> c.value in codes && code == Some(c.value.code)
    ensures c.None? ==> forall i :: 0 <= i < |codes| ==> code != Some(codes[i].code)
    ensures (if c.Some? then c.value.name else "Unknown") == NameOf(codes, code)
  {
    if codes == [] then None
    else if code == Some(codes[0].code) then Some(codes[0])
    else FoundCode(codes[1..], code)
  }

  predicate CodesDiffer(codes: seq<CodeName>) {
    forall i, j :: 0 <= i < |codes| && 0 <= j < |codes| && codes[i].code == codes[j].code ==> i == j
  }

  lemma SeedCodesDiffer()
    ensures CodesDiffer(RATE_CODES) && CodesDiffer(PAYMENT_TYPES)
  {
  }

  lemma VendorHits(w: Wide, on: (Wide, VendorDim) -> bool)
    requires forall d :: on(w, d) == SqlEq(w.trip.vendor, d.vendor)
    ensures AtMostOneHit(w, DIM_VENDOR, on) && Finds(w, DIM_VENDOR, on, FoundVendor(w.trip.vendor))
  {
    assert DIM_VENDOR[1].vendor == Some(1) && DIM_VENDOR[2].vendor == Some(2)
        && DIM_VENDOR[3].vendor == Some(6) && DIM_VENDOR[4].vendor == Some(7) && DIM_VENDOR[0].vendor == None;
  }

  lemma JoinVendorGrain(ws: seq<Wide>)
    ensures |JoinVendor(ws)| == |ws|
    ensures forall k :: 0 <= k < |ws| ==> JoinVendor(ws)[k] == ws[k].(vendor := FoundVendor(ws[k].trip.vendor))
  {
    var on := (w: Wide, d: VendorDim) => SqlEq(w.trip.vendor, d.vendor);
    var put := (w: Wide, d: Option<VendorDim>) => w.(vendor := d);
    forall k | 0 <= k < |ws| {
      VendorHits(ws[k], on);
    }
    LeftJoinKeepsGrain(ws, DIM_VENDOR, on, put, seq(|ws|, k requires 0 <= k < |ws| => FoundVendor(ws[k].trip.vendor)));
  }

  lemma JoinRateCodeGrain(ws: seq<Wide>, codes: seq<CodeName>)
    requires CodesDiffer(codes)
    ensures |JoinRateCode(ws, codes)| == |ws|
    ensures forall k :: 0 <= k < |ws| ==>
      JoinRateCode(ws, codes)[k] == ws[k].(rateCode := FoundCode(codes, ws[k].trip.rateCode))
  {
    var on := (w: Wide, c: CodeName) => w.trip.rateCode == Some(c.code);
    var put := (w: Wide, c: Option<CodeName>) => w.(rateCode := c);
    LeftJoinKeepsGrain(ws, codes, on, put, seq(|ws|, k requires 0 <= k < |ws| => FoundCode(codes, ws[k].trip.rateCode)));
  }

  lemma JoinPaymentGrain(ws: seq<Wide>, codes: seq<CodeName>)
    requires CodesDiffer(codes)
    ensures |JoinPayment(ws, codes)| == |ws|
    ensures forall k :: 0 <= k < |ws| ==>
      JoinPayment(ws, codes)[k] == ws[k].(payment := FoundCode(codes, ws[k].trip.payment))
  {
    var on := (w: Wide, c: CodeName) => w.trip.payment == Some(c.code);
    var put := (w: Wide, c: Option<CodeName>) => w.(payment := c);
    LeftJoinKeepsGrain(ws, codes, on, put, seq(|ws|, k requires 0 <= k < |ws| => FoundCode(codes, ws[k].trip.payment)));
  }

  // ---------- the key 0 ----------

  ghost predicate ZeroMeansUnresolved(zones: set<int>) {
    forall location :: ZoneKey(zones, location) == 0 <==> (location.None? || location.value !in zones)
  }

  /** A zone key of 0 means a null or unresolved location exactly when no zone has the location 0. */
  lemma ZeroZoneKey(zones: set<int>)
    ensures ZeroMeansUnresolved(zones) <==> 0 !in zones
  {
    if 0 in zones {
      assert ZoneKey(zones, Some(0)) == 0;
    }
  }

  /** The other keys are 0 exactly when the trip's value is null or not in the dimension. */
  lemma ZeroKeys(trip: Trip, zones: set<int>)
    ensures Resolved(trip, zones).pickupDateKey == 0 <==> trip.pickup.None?
    ensures Resolved(trip, zones).dropoffDateKey == 0 <==> trip.dropoff.None?
    ensures Resolved(trip, zones).vendorKey == 0 <==>
      trip.vendor.None? || forall i :: 0 <= i < |DIM_VENDOR| ==> DIM_VENDOR[i].vendor != trip.vendor
  {
    assert DIM_VENDOR[1].vendor == Some(1) && DIM_VENDOR[2].vendor == Some(2)
        && DIM_VENDOR[3].vendor == Some(6) && DIM_VENDOR[4].vendor == Some(7) && DIM_VENDOR[0].vendor == None;
  }

  // ---------- the fact select ----------

  /** A trip with everything that the seven joins should attach to it. */
  ghost function Attached(trip: Trip, zones: seq<RawRow>, rates: seq<CodeName>, payments: seq<CodeName>): Wide {
    Wide(trip, FoundDate(DateOf(trip.pickup)), FoundDate(DateOf(trip.dropoff)),
         FoundZone(zones, trip.pickupLocation), FoundZone(zones, trip.dropoffLocation),
         FoundVendor(trip.vendor), FoundCode(rates, trip.rateCode), FoundCode(payments, trip.payment))
  }

  lemma SelectResolves(trip: Trip, zones: seq<RawRow>, rates: seq<CodeName>, payments: seq<CodeName>)
    ensures Select(Attached(trip, zones, rates, payments)) == ResolvedWith(trip, LocationIds(zones), rates, payments)
  {
  }

  lemma DatesJoined(trips: seq<Trip>, dates: seq<DateDim>)
    requires DatesOk(dates)
    requires forall k :: 0 <= k < |trips| ==>
      HasDate(dates, DateOf(trips[k].pickup)) && HasDate(dates, DateOf(trips[k].dropoff))
    ensures
      var ws := JoinDropoffDate(JoinPickupDate(Bare(trips), dates), dates);
      |ws| == |trips| && forall k :: 0 <= k < |trips| ==>
        ws[k] == Wide(trips[k], FoundDate(DateOf(trips[k].pickup)), FoundDate(DateOf(trips[k].dropoff)),
                      None, None, None, None, None)
  {
    JoinPickupDateGrain(Bare(trips), dates);
    JoinDropoffDateGrain(JoinPickupDate(Bare(trips), dates), dates);
  }

  lemma ZonesJoined(ws: seq<Wide>, zones: seq<RawRow>)
    requires ZonesDistinct(zones)
    ensures
      var zs := JoinDropoffZone(JoinPickupZone(ws, DimZone(zones)), DimZone(zones));
      |zs| == |ws| && forall k :: 0 <= k < |ws| ==>
        zs[k] == ws[k].(pickupZone := FoundZone(zones, ws[k].trip.pickupLocation),
                        dropoffZone := FoundZone(zones, ws[k].trip.dropoffLocation))
  {
    JoinPickupZoneGrain(ws, zones);
    JoinDropoffZoneGrain(JoinPickupZone(ws, DimZone(zones)), zones);
  }

  lemma CodesJoined(ws: seq<Wide>, rates: seq<CodeName>, payments: seq<CodeName>)
    requires CodesDiffer(rates) && CodesDiffer(payments)
    ensures
      var cs := JoinPayment(JoinRateCode(JoinVendor(ws), rates), payments);
      |cs| == |ws| && forall k :: 0 <= k < |ws| ==>
        cs[k] == ws[k].(vendor := FoundVendor(ws[k].trip.vendor), rateCode := FoundCode(rates, ws[k].trip.rateCode),
                        payment := FoundCode(payments, ws[k].trip.payment))
  {
    JoinVendorGrain(ws);
    JoinRateCodeGrain(JoinVendor(ws), rates);
    JoinPaymentGrain(JoinRateCode(JoinVendor(ws), rates), payments);
  }

  /** Seven left joins, one row per trip: the fact select is the trips, each resolved on its own. */
  lemma FactSelectKeepsGrain(trips: seq<Trip>, dates: seq<DateDim>, zones: seq<RawRow>)
    requires DatesOk(dates) && ZonesDistinct(zones)
    requires forall k :: 0 <= k < |trips| ==>
      HasDate(dates, DateOf(trips[k].pickup)) && HasDate(dates, DateOf(trips[k].dropoff))
    ensures FactSelect(trips, dates, DimZone(zones)) == Resolve(trips, LocationIds(zones))
  {
    DatesJoined(trips, dates);
    var dated := JoinDropoffDate(JoinPickupDate(Bare(trips), dates), dates);
    ZonesJoined(dated, zones);
    var zoned := JoinDropoffZone(JoinPickupZone(dated, DimZone(zones)), DimZone(zones));
    SeedCodesDiffer();
    CodesJoined(zoned, RATE_CODES, PAYMENT_TYPES);
    forall k | 0 <= k < |trips|
      ensures FactSelect(trips, dates, DimZone(zones))[k] == Resolved(trips[k], LocationIds(zones))
    {
      SelectResolves(trips[k], zones, RATE_CODES, PAYMENT_TYPES);
    }
  }
}
