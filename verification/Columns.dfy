/** The columns of the raw trip tables and their orders. */
module Columns {
  datatype ColumnName =
    | VendorID | TpepPickup | TpepDropoff | LpepPickup | LpepDropoff | PassengerCount | TripDistance
    | RatecodeID | StoreAndFwdFlag | PULocationID | DOLocationID | PaymentType | TripType | FareAmount
    | Extra | MtaTax | TipAmount | TollsAmount | EhailFee | ImprovementSurcharge | TotalAmount
    | CongestionSurcharge | AirportFee | CbdCongestionFee
    | Undocumented(name: string)

  const YELLOW_COLUMNS: seq<ColumnName> := [
    VendorID, TpepPickup, TpepDropoff, PassengerCount, TripDistance, RatecodeID, StoreAndFwdFlag,
    PULocationID, DOLocationID, PaymentType, FareAmount, Extra, MtaTax, TipAmount, TollsAmount,
    ImprovementSurcharge, TotalAmount, CongestionSurcharge, AirportFee, CbdCongestionFee]

  const GREEN_COLUMNS: seq<ColumnName> := [
    VendorID, LpepPickup, LpepDropoff, StoreAndFwdFlag, RatecodeID, PULocationID, DOLocationID,
    PassengerCount, TripDistance, FareAmount, Extra, MtaTax, TipAmount, TollsAmount, EhailFee,
    ImprovementSurcharge, TotalAmount, PaymentType, TripType, CongestionSurcharge, CbdCongestionFee]
}
