/**
 * The records of the quoting tool: one uploaded mesh file, the operator's
 * cost settings, and the derived quote. Numbers are exact reals; the
 * source's double-precision floats are not modelled.
 */
module Types {

  /** One uploaded STL file. `volumeCm3`, `heightMm` and `weightG` stay 0
      while the file's geometry has not been extracted ("pending"). */
  datatype StlFile = StlFile(
    id: string,
    name: string,
    url: string,
    volumeCm3: real,
    heightMm: real,
    weightG: real,
    printTimeHours: real)

  /** The ten operator-tunable numbers that drive the cost model. */
  datatype CostSettings = CostSettings(
    resinPricePerKg: real,        // currency per kg of resin
    resinDensity: real,           // g/cm3
    printerPowerWatts: real,      // W
    electricityCostKwh: real,     // currency per kWh
    printerCost: real,            // purchase price
    printerLifespanHours: real,   // expected machine life
    printSpeedMmPerHour: real,    // vertical (Z) speed
    postProcessingCost: real,     // per batch
    profitMarginPercent: real,    // %
    manualPrintTimeHours: real)   // <= 0 means "use the calculated time"

  /** The itemised quote for the whole batch of loaded files. */
  datatype QuoteResult = QuoteResult(
    resinCost: real,
    energyCost: real,
    depreciationCost: real,
    postProcessingCost: real,
    subtotal: real,
    profit: real,
    total: real)

  /** True when no two records share an id (ids come from `crypto.randomUUID`). */
  predicate UniqueIds(files: seq<StlFile>) {
    forall i, j :: 0 <= i < j < |files| ==> files[i].id != files[j].id
  }

  /** The set of ids present in a file list. */
  function Ids(files: seq<StlFile>): set<string> {
    set f | f in files :: f.id
  }
}
