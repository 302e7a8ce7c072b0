/** The dbt models: staging, the dimensions, and the fact select with its seven left joins. */
module Warehouse {
  import opened Wrappers
  import opened Cells
  import opened Columns
  import opened Catalog
  import opened Batches
  import opened Lifecycle
  import opened Relational

  /** One canonical trip; `rest` holds the columns that are only passed through. */
  datatype Trip = Trip(
    service: Service,
    vendor: Option<int>,
    pickup: Option<Timestamp>,
    dropoff: Option<Timestamp>,
    rateCode: Option<int>,
    pickupLocation: Option<int>,
    dropoffLocation: Option<int>,
    payment: Option<int>,
    tripType: Option<int>,
    rest: Row,
    sid: nat,
    number: nat,
    run: nat)

  // ---------- staging and normalisation ----------

  /** The value of a named column in a row of the table with these columns. */
  function Column(names: seq<ColumnName>, values: Row, name: ColumnName): Cell {
    if names == [] || values == [] then Null
    else if names[0] == name then values[0]
    else Column(names[1..], values[1..], name)
  }

  /** The staging select of a trip table: the columns, picked by name, under their canonical names. */
  function TripFrom(r: RawRow, names: seq<ColumnName>, service: Service, pickup: ColumnName,
                    dropoff: ColumnName): Trip {
    var v := r.values;
    Trip(service, AsInt(Column(names, v, VendorID)), AsStamp(Column(names, v, pickup)), AsStamp(Column(names, v, dropoff)),
         AsInt(Column(names, v, RatecodeID)), AsInt(Column(names, v, PULocationID)),
         AsInt(Column(names, v, DOLocationID)), AsInt(Column(names, v, PaymentType)),
         if service == Yellow then None else AsInt(Column(names, v, TripType)), v, r.sid, r.number, r.run)
  }

  function TripOf(r: RawRow): Trip {
    if r.dataset == GreenTripdata then
      TripFrom(r, GREEN_COLUMNS, Green, LpepPickup, LpepDropoff)
    else
      TripFrom(r, YELLOW_COLUMNS, Yellow, TpepPickup, TpepDropoff)
  }

  /** The staging view of a trip dataset keeps the raw rows of its loaded sources. */
  predicate IsActive(t: Tables, d: Dataset, r: RawRow) {
    && r.dataset == d && HasStatus(t, r.sid, Loaded) && t.sources[r.sid].meta.dataset == d
    && t.sources[r.sid].meta.service == Some(if d == GreenTripdata then Green else Yellow)
  }

  function Staged(t: Tables, d: Dataset, raw: seq<RawRow>): seq<Trip> {
    if raw == [] then []
    else Staged(t, d, raw[..|raw| - 1]) + if IsActive(t, d, raw[|raw| - 1]) then [TripOf(raw[|raw| - 1])] else []
  }

  /** The canonical trips: the union of the two services. */
  function ActiveTrips(t: Tables): seq<Trip> {
    Staged(t, YellowTripdata, t.raw) + Staged(t, GreenTripdata, t.raw)
  }

  /** The staging view of the zones keeps the rows of the loaded version of the one zone partition. */
  predicate IsActiveZone(t: Tables, r: RawRow) {
    && r.dataset == TaxiZoneLookup && HasStatus(t, r.sid, Loaded)
    && t.sources[r.sid].meta.dataset == TaxiZoneLookup && t.sources[r.sid].meta.partition == TaxiZones
  }

  function ActiveZones(t: Tables, raw: seq<RawRow>): seq<RawRow> {
    if raw == [] then []
    else ActiveZones(t, raw[..|raw| - 1]) + if IsActiveZone(t, raw[|raw| - 1]) then [raw[|raw| - 1]] else []
  }

  // ---------- dimensions ----------

  datatype DateDim = DateDim(key: int, date: Option<Date>)
  datatype ZoneDim = ZoneDim(key: Option<int>, location: Option<int>, attributes: Row)
  datatype VendorDim = VendorDim(key: int, vendor: Option<int>, name: string)
  datatype CodeName = CodeName(code: int, name: string)

  function YearMonthDay(d: Date): int {
    d.year * 10000 + d.month * 100 + d.day
  }

  function DateOf(at: Option<Timestamp>): Option<Date> {
    if at.Some? then Some(at.value.date) else None
  }

  function PickupDates(trips: seq<Trip>): seq<Date> {
    if trips == [] then []
    else
      var last := trips[|trips| - 1];
      PickupDates(trips[..|trips| - 1]) + if last.pickup.Some? then [last.pickup.value.date] else []
  }

  function DropoffDates(trips: seq<Trip>): seq<Date> {
    if trips == [] then []
    else
      var last := trips[|trips| - 1];
      DropoffDates(trips[..|trips| - 1]) + if last.dropoff.Some? then [last.dropoff.value.date] else []
  }

  function DimDate(trips: seq<Trip>): seq<DateDim> {
    var dates := Distinct(PickupDates(trips) + DropoffDates(trips));
    [DateDim(0, None)] + seq(|dates|, i requires 0 <= i < |dates| => DateDim(YearMonthDay(dates[i]), Some(dates[i])))
  }

  const UNKNOWN_ZONE := ZoneDim(Some(0), None, [Text("Unknown"), Text("Unknown"), Null])

  function LocatedZones(zones: seq<RawRow>): seq<ZoneDim> {
    seq(|zones|, i requires 0 <= i < |zones| => ZoneDim(Location(zones[i]), Location(zones[i]), zones[i].values))
  }

  function DimZone(zones: seq<RawRow>): seq<ZoneDim> {
    [UNKNOWN_ZONE] + LocatedZones(zones)
  }

  const DIM_VENDOR: seq<VendorDim> := [
    VendorDim(0, None, "Unknown"),
    VendorDim(1, Some(1), "Creative Mobile Technologies, LLC"),
    VendorDim(2, Some(2), "Curb Mobility, LLC"),
    VendorDim(6, Some(6), "Myle Technologies Inc"),
    VendorDim(7, Some(7), "Helix")]

  const RATE_CODES: seq<CodeName> := [
    CodeName(1, "Standard rate"), CodeName(2, "JFK"), CodeName(3, "Newark"),
    CodeName(4, "Nassau or Westchester"), CodeName(5, "Negotiated fare"), CodeName(6, "Group ride"),
    CodeName(99, "Null/unknown")]

  const PAYMENT_TYPES: seq<CodeName> := [
    CodeName(0, "Flex Fare trip"), CodeName(1, "Credit card"), CodeName(2, "Cash"), CodeName(3, "No charge"),
    CodeName(4, "Dispute"), CodeName(5, "Unknown"), CodeName(6, "Voided trip")]

  // ---------- the fact select ----------

  /** A trip with the dimension rows that the joins have attached so far. */
  datatype Wide = Wide(
    trip: Trip,
    pickupDate: Option<DateDim>,
    dropoffDate: Option<DateDim>,
    pickupZone: Option<ZoneDim>,
    dropoffZone: Option<ZoneDim>,
    vendor: Option<VendorDim>,
    rateCode: Option<CodeName>,
    payment: Option<CodeName>)

  datatype Fact = Fact(
    trip: Trip,
    pickupDateKey: int,
    dropoffDateKey: int,
    pickupZoneKey: int,
    dropoffZoneKey: int,
    vendorKey: int,
    rateCodeName: string,
    paymentName: string)

  /** SQL equality of two nullable values: null equals nothing. */
  predicate SqlEq<T(==)>(x: Option<T>, y: Option<T>) {
    x.Some? && x == y
  }

  function Coalesce<T>(x: Option<T>, default: T): T {
    if x.Some? then x.value else default
  }

  function Bare(trips: seq<Trip>): seq<Wide> {
    seq(|trips|, i requires 0 <= i < |trips| => Wide(trips[i], None, None, None, None, None, None, None))
  }

  function Select(w: Wide): Fact {
    Fact(w.trip,
         if w.pickupDate.Some? then w.pickupDate.value.key else 0,
         if w.dropoffDate.Some? then w.dropoffDate.value.key else 0,
         if w.pickupZone.Some? then Coalesce(w.pickupZone.value.key, 0) else 0,
         if w.dropoffZone.Some? then Coalesce(w.dropoffZone.value.key, 0) else 0,
         if w.vendor.Some? then w.vendor.value.key else 0,
         if w.rateCode.Some? then w.rateCode.value.name else "Unknown",
         if w.payment.Some? then w.payment.value.name else "Unknown")
  }

  function JoinPickupDate(ws: seq<Wide>, dates: seq<DateDim>): seq<Wide> {
    LeftJoin(ws, dates, (w: Wide, d: DateDim) => SqlEq(DateOf(w.trip.pickup), d.date),
             (w: Wide, d: Option<DateDim>) => w.(pickupDate := d))
  }

  function JoinDropoffDate(ws: seq<Wide>, dates: seq<DateDim>): seq<Wide> {
    LeftJoin(ws, dates, (w: Wide, d: DateDim) => SqlEq(DateOf(w.trip.dropoff), d.date),
             (w: Wide, d: Option<DateDim>) => w.(dropoffDate := d))
  }

  function JoinPickupZone(ws: seq<Wide>, zones: seq<ZoneDim>): seq<Wide> {
    LeftJoin(ws, zones, (w: Wide, z: ZoneDim) => SqlEq(w.trip.pickupLocation, z.location),
             (w: Wide, z: Option<ZoneDim>) => w.(pickupZone := z))
  }

  function JoinDropoffZone(ws: seq<Wide>, zones: seq<ZoneDim>): seq<Wide> {
    LeftJoin(ws, zones, (w: Wide, z: ZoneDim) => SqlEq(w.trip.dropoffLocation, z.location),
             (w: Wide, z: Option<ZoneDim>) => w.(dropoffZone := z))
  }

  function JoinVendor(ws: seq<Wide>): seq<Wide> {
    LeftJoin(ws, DIM_VENDOR, (w: Wide, d: VendorDim) => SqlEq(w.trip.vendor, d.vendor),
             (w: Wide, d: Option<VendorDim>) => w.(vendor := d))
  }

  function JoinRateCode(ws: seq<Wide>, codes: seq<CodeName>): seq<Wide> {
    LeftJoin(ws, codes, (w: Wide, c: CodeName) => w.trip.rateCode == Some(c.code),
             (w: Wide, c: Option<CodeName>) => w.(rateCode := c))
  }

  function JoinPayment(ws: seq<Wide>, codes: seq<CodeName>): seq<Wide> {
    LeftJoin(ws, codes, (w: Wide, c: CodeName) => w.trip.payment == Some(c.code),
             (w: Wide, c: Option<CodeName>) => w.(payment := c))
  }

  /** The fact select over some trips and the dimensions of the whole tables. */
  function FactSelect(trips: seq<Trip>, dates: seq<DateDim>, zones: seq<ZoneDim>): seq<Fact> {
    var dated := JoinDropoffDate(JoinPickupDate(Bare(trips), dates), dates);
    var zoned := JoinDropoffZone(JoinPickupZone(dated, zones), zones);
    var ws := JoinPayment(JoinRateCode(JoinVendor(zoned), RATE_CODES), PAYMENT_TYPES);
    seq(|ws|, i requires 0 <= i < |ws| => Select(ws[i]))
  }
}
