/** Source identities, the metadata collected for a landing file, and the status vocabularies. */
module Catalog {
  import opened Wrappers

  datatype Service = Yellow | Green

  datatype Dataset = YellowTripdata | GreenTripdata | TaxiZoneLookup | Unsupported(name: string)

  /** A partition key, before it is formatted as text. */
  datatype Partition = Monthly(service: Service, year: nat, month: nat) | TaxiZones | Other(key: string)

  type Digest = string

  datatype Metadata = Metadata(
    dataset: Dataset,
    service: Option<Service>,
    year: Option<nat>,
    month: Option<nat>,
    partition: Partition,
    checksum: Digest,
    sizeBytes: nat,
    rowCount: Option<nat>)

  function DatasetOf(p: Partition): Dataset {
    match p
    case Monthly(Yellow, _, _) => YellowTripdata
    case Monthly(Green, _, _) => GreenTripdata
    case TaxiZones => TaxiZoneLookup
    case Other(key) => Unsupported(key)
  }

  /** The partition key determines the other identity fields, as the source constructors build them. */
  predicate Identified(m: Metadata) {
    && m.dataset == DatasetOf(m.partition)
    && match m.partition
       case Monthly(s, y, k) => m.service == Some(s) && m.year == Some(y) && m.month == Some(k)
       case TaxiZones => m.service == None && m.year == None && m.month == None
       case Other(_) => true
  }

  /** What inspecting a landing file guarantees: at least one row, and a row count that depends on
      the content only, so that equal checksums have equal row counts. */
  ghost predicate Inspected(counts: Digest -> nat, m: Metadata) {
    Identified(m) && m.rowCount == Some(counts(m.checksum)) && counts(m.checksum) >= 1
  }

  datatype SourceStatus = Ready | Loaded | RevisionDetected

  datatype RunStatus = Running | Succeeded | Failed | Skipped

  datatype SkipReason = AlreadyLoaded | SourceRevisionDetected

  datatype Decision = Proceed | SkipLoaded | RevisionBlocked

  function DecisionFor(status: SourceStatus): Decision {
    match status
    case Ready => Proceed
    case Loaded => SkipLoaded
    case RevisionDetected => RevisionBlocked
  }

  /** The service's table from a refusing decision to the reason recorded on the skipped run. */
  function ReasonFor(d: Decision): SkipReason
    requires d != Proceed
  {
    if d == SkipLoaded then AlreadyLoaded else SourceRevisionDetected
  }

  /** The source status that a skipped run's reason requires. */
  function StatusFor(reason: SkipReason): SourceStatus {
    match reason
    case AlreadyLoaded => Loaded
    case SourceRevisionDetected => RevisionDetected
  }

  datatype Severity = Info | Warning | Error
}
