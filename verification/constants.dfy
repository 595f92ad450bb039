/**
 * The default cost settings the tool starts with, and a worked quote
 * under them, from a mesh to the final price.
 */
module Constants {
  import opened Types
  import opened Wrappers
  import CostModel
  import FileList
  import Geometry

  /** The settings the application starts with. */
  const DefaultSettings: CostSettings := CostSettings(
    resinPricePerKg := 160.0,
    resinDensity := 1.15,
    printerPowerWatts := 144.0,
    electricityCostKwh := 0.85,
    printerCost := 4500.0,
    printerLifespanHours := 2000.0,
    printSpeedMmPerHour := 60.0,
    postProcessingCost := 20.0,
    profitMarginPercent := 30.0,
    manualPrintTimeHours := 0.0)

  /** Every default is strictly positive except the manual time, which is
      0 so that the calculated time is used. */
  lemma DefaultsArePositive()
    ensures var s := DefaultSettings;
      && s.resinPricePerKg > 0.0 && s.resinDensity > 0.0 && s.printerPowerWatts > 0.0
      && s.electricityCostKwh > 0.0 && s.printerCost > 0.0 && s.printerLifespanHours > 0.0
      && s.printSpeedMmPerHour > 0.0 && s.postProcessingCost > 0.0
      && s.profitMarginPercent > 0.0 && s.manualPrintTimeHours == 0.0
    ensures CostModel.NonNegativeSettings(DefaultSettings)
  {
  }

  /** Under the defaults every batch can be quoted, and a non-empty batch
      is timed from its tallest file, the manual override being off. */
  lemma DefaultsQuoteEveryBatch(files: seq<StlFile>)
    ensures CostModel.Computable(files, DefaultSettings)
    ensures |files| > 0 ==>
      CostModel.PrintTime(files, DefaultSettings)
        == if CostModel.MaxHeight(files) > 0.0 then CostModel.MaxHeight(files) / 60.0 + 0.5 else 0.0
  {
  }

  /** The list after uploading one file and delivering its geometry. */
  lemma OneMeasuredFile(p: FileList.PickedFile, v: real, h: real, d: real)
    ensures FileList.UpdateGeometry(FileList.Upload([], Some([p])), p.id, v, h, d)
            == [StlFile(p.id, p.name, p.url, v, h, v * d, 0.0)]
  {
    var up := FileList.Upload([], Some([p]));
    assert up == [FileList.NewRecord(p)];
  }

  lemma SingleFileAggregates(f: StlFile)
    ensures CostModel.TotalWeight([f]) == f.weightG
    ensures CostModel.MaxHeight([f]) == f.heightMm
  {
    assert [f][..0] == [];
  }

  lemma DefaultQuoteArithmetic()
    ensures CostModel.Quote(11.5, 4.0 / 3.0, 20.0, DefaultSettings) == QuoteResult(
           resinCost := 1.84, energyCost := 0.1632, depreciationCost := 3.0,
           postProcessingCost := 20.0, subtotal := 25.0032, profit := 7.50096, total := 32.50416)
  {
  }

  /** The quote for one file of 10 cm3 and 50 mm under the defaults, in
      exact arithmetic: 11.5 g of resin and 4/3 h of printing. */
  lemma OneFileQuote(p: FileList.PickedFile)
    ensures var files := FileList.UpdateGeometry(FileList.Upload([], Some([p])), p.id, 10.0, 50.0,
                                                 DefaultSettings.resinDensity);
      && files == [StlFile(p.id, p.name, p.url, 10.0, 50.0, 11.5, 0.0)]
      && CostModel.PrintTime(files, DefaultSettings) == 4.0 / 3.0
      && CostModel.Totals(files, DefaultSettings) == QuoteResult(
           resinCost := 1.84, energyCost := 0.1632, depreciationCost := 3.0,
           postProcessingCost := 20.0, subtotal := 25.0032, profit := 7.50096, total := 32.50416)
  {
    OneMeasuredFile(p, 10.0, 50.0, DefaultSettings.resinDensity);
    var f := StlFile(p.id, p.name, p.url, 10.0, 50.0, 11.5, 0.0);
    SingleFileAggregates(f);
    assert CostModel.PrintTime([f], DefaultSettings) == 4.0 / 3.0;
    DefaultQuoteArithmetic();
  }

  /** The whole pipeline for a corner tetrahedron with legs a, b and
      50 mm where ab = 1200 mm2 (30 x 40 x 50, say): the viewer reports
      10 cm3 and 50 mm, and once that is delivered to the freshly uploaded
      file the quote total is 32.50416. */
  lemma TetrahedronQuote(p: FileList.PickedFile, a: real, b: real)
    requires a > 0.0 && b > 0.0 && a * b == 1200.0
    ensures var g := Geometry.Extract(Geometry.Tetrahedron(a, b, 50.0));
      var files := FileList.UpdateGeometry(FileList.Upload([], Some([p])), p.id,
                                           g.volumeCm3, g.heightMm, DefaultSettings.resinDensity);
      && g == Geometry.Measurement(10.0, 50.0)
      && CostModel.Totals(files, DefaultSettings).total == 32.50416
  {
    TetrahedronMeasures(a, b);
    OneFileQuote(p);
  }

  lemma TetrahedronMeasures(a: real, b: real)
    requires a > 0.0 && b > 0.0 && a * b == 1200.0
    ensures Geometry.Extract(Geometry.Tetrahedron(a, b, 50.0)) == Geometry.Measurement(10.0, 50.0)
  {
    var c := 50.0;
    Geometry.TetrahedronExtraction(a, b, c);
    assert a * b * c / 6000.0 == 10.0;
  }
}
