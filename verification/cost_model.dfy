/**
 * The batch cost model: one quote for the whole list of loaded files, a
 * pure function of that list and the cost settings. All files print
 * together as one job, so they share one print time and one
 * post-processing fee.
 */
module CostModel {
  import opened Types
  import opened Seqs

  /** Total resin mass in grams: the left fold `acc + f.weightG` from 0.
      No files weigh nothing; when no weight is negative the total is at
      least the weight of every single file. */
  function TotalWeight(files: seq<StlFile>): (w: real)
    ensures |files| == 0 ==> w == 0.0
    ensures (forall i :: 0 <= i < |files| ==> files[i].weightG >= 0.0) ==>
              forall i :: 0 <= i < |files| ==> 0.0 <= files[i].weightG <= w
  {
    if |files| == 0 then 0.0
    else TotalWeight(files[..|files| - 1]) + files[|files| - 1].weightG
  }

  /** `Math.max` over the heights of a non-empty list: one of the heights, and none exceeds it. */
  function MaxOf(files: seq<StlFile>): (m: real)
    requires |files| > 0
    ensures exists i :: 0 <= i < |files| && files[i].heightMm == m
    ensures forall i :: 0 <= i < |files| ==> files[i].heightMm <= m
  {
    if |files| == 1 then files[0].heightMm
    else
      var rest := MaxOf(files[..|files| - 1]);
      var last := files[|files| - 1].heightMm;
      if rest >= last then rest else last
  }

  /** The tallest file's height, or 0 for an empty batch. */
  function MaxHeight(files: seq<StlFile>): (m: real)
    ensures |files| == 0 ==> m == 0.0
    ensures |files| > 0 ==> (exists i :: 0 <= i < |files| && files[i].heightMm == m)
                            && forall i :: 0 <= i < |files| ==> files[i].heightMm <= m
  {
    if |files| > 0 then MaxOf(files) else 0.0
  }

  /** True when the print time comes from the height/speed formula. */
  predicate HeightFormulaApplies(files: seq<StlFile>, s: CostSettings)
  {
    |files| > 0 && !(s.manualPrintTimeHours > 0.0) && MaxHeight(files) > 0.0
  }

  /** Both divisions of the model are defined. With a zero lifespan, or a
      zero speed while the height formula is used, the source silently
      produces an infinite or NaN quote. */
  predicate Computable(files: seq<StlFile>, s: CostSettings)
  {
    s.printerLifespanHours != 0.0
    && (HeightFormulaApplies(files, s) ==> s.printSpeedMmPerHour != 0.0)
  }

  /** Batch print time in hours: none for an empty batch, else the manual
      override when positive, else height/speed plus half an hour of
      overhead when the tallest file has positive height, else none. */
  function PrintTime(files: seq<StlFile>, s: CostSettings): (t: real)
    requires HeightFormulaApplies(files, s) ==> s.printSpeedMmPerHour != 0.0
    ensures |files| == 0 ==> t == 0.0
    ensures |files| > 0 && s.manualPrintTimeHours > 0.0 ==> t == s.manualPrintTimeHours
    ensures s.printSpeedMmPerHour > 0.0 ==> t >= 0.0
    ensures HeightFormulaApplies(files, s) ==> t == MaxHeight(files) / s.printSpeedMmPerHour + 0.5
  {
    if |files| > 0 then
      if s.manualPrintTimeHours > 0.0 then s.manualPrintTimeHours
      else
        var maxZ := MaxHeight(files);
        if maxZ > 0.0 then maxZ / s.printSpeedMmPerHour + 0.5 else 0.0
    else 0.0
  }

  /** The itemised quote for a batch weighing `weightG` grams, printing for
      `hours` hours and charged `postProcessing` once. */
  function Quote(weightG: real, hours: real, postProcessing: real, s: CostSettings): (q: QuoteResult)
    requires s.printerLifespanHours != 0.0
    ensures q.postProcessingCost == postProcessing
    ensures q.subtotal == q.resinCost + q.energyCost + q.depreciationCost + q.postProcessingCost
    ensures q.profit == q.subtotal * s.profitMarginPercent / 100.0
    ensures q.total == q.subtotal + q.profit
    ensures q.total == q.subtotal * (100.0 + s.profitMarginPercent) / 100.0
    ensures weightG == 0.0 && hours == 0.0 ==> q.subtotal == postProcessing
  {
    var resinCost := (weightG / 1000.0) * s.resinPricePerKg;
    var energyCost := (s.printerPowerWatts / 1000.0) * hours * s.electricityCostKwh;
    var depreciationCost := (s.printerCost / s.printerLifespanHours) * hours;
    var subtotal := resinCost + energyCost + depreciationCost + postProcessing;
    var profit := subtotal * (s.profitMarginPercent / 100.0);
    QuoteResult(resinCost, energyCost, depreciationCost, postProcessing,
                subtotal, profit, subtotal + profit)
  }

  /** The quote for a batch of files: the lines add up to the subtotal,
      profit is the margin's percentage of it, the total is subtotal plus
      profit, and the post-processing fee is charged once for a non-empty
      batch and not at all for an empty one. */
  function Totals(files: seq<StlFile>, s: CostSettings): (q: QuoteResult)
    requires Computable(files, s)
    ensures q.subtotal == q.resinCost + q.energyCost + q.depreciationCost + q.postProcessingCost
    ensures q.profit == q.subtotal * s.profitMarginPercent / 100.0
    ensures q.total == q.subtotal + q.profit
    ensures q.total == q.subtotal * (100.0 + s.profitMarginPercent) / 100.0
    ensures q.postProcessingCost == if |files| > 0 then s.postProcessingCost else 0.0
  {
    Quote(TotalWeight(files), PrintTime(files, s),
          if |files| > 0 then s.postProcessingCost else 0.0, s)
  }

  /** The seven fields of a quote all zero. */
  predicate IsZeroQuote(q: QuoteResult)
  {
    q.resinCost == 0.0 && q.energyCost == 0.0 && q.depreciationCost == 0.0
    && q.postProcessingCost == 0.0 && q.subtotal == 0.0 && q.profit == 0.0 && q.total == 0.0
  }

  /** Every setting at least zero. */
  predicate NonNegativeSettings(s: CostSettings)
  {
    s.resinPricePerKg >= 0.0 && s.resinDensity >= 0.0 && s.printerPowerWatts >= 0.0
    && s.electricityCostKwh >= 0.0 && s.printerCost >= 0.0 && s.printerLifespanHours >= 0.0
    && s.printSpeedMmPerHour >= 0.0 && s.postProcessingCost >= 0.0
    && s.profitMarginPercent >= 0.0 && s.manualPrintTimeHours >= 0.0
  }

  // ---------------------------------------------------------------------
  // Properties of the quote

  /** An empty batch costs nothing, whatever the settings. */
  lemma EmptyBatchIsFree(s: CostSettings)
    requires s.printerLifespanHours != 0.0
    ensures PrintTime([], s) == 0.0
    ensures IsZeroQuote(Totals([], s))
  {
  }

  /** A positive manual time is the print time of every non-empty batch,
      whatever the heights of its files. */
  lemma ManualOverrideWins(files: seq<StlFile>, s: CostSettings)
    requires |files| > 0 && s.manualPrintTimeHours > 0.0
    ensures !HeightFormulaApplies(files, s)
    ensures PrintTime(files, s) == s.manualPrintTimeHours
  {
  }

  /** Without a manual time, a non-empty batch takes tallest-height/speed
      plus half an hour, or no time when no file has positive height. */
  lemma CalculatedPrintTime(files: seq<StlFile>, s: CostSettings)
    requires |files| > 0 && s.manualPrintTimeHours <= 0.0
    requires (exists i :: 0 <= i < |files| && files[i].heightMm > 0.0) ==> s.printSpeedMmPerHour != 0.0
    ensures exists i :: 0 <= i < |files| && files[i].heightMm == MaxHeight(files)
    ensures forall i :: 0 <= i < |files| ==> files[i].heightMm <= MaxHeight(files)
    ensures (exists i :: 0 <= i < |files| && files[i].heightMm > 0.0) ==>
              PrintTime(files, s) == MaxHeight(files) / s.printSpeedMmPerHour + 0.5
    ensures (forall i :: 0 <= i < |files| ==> files[i].heightMm <= 0.0) ==>
              PrintTime(files, s) == 0.0
  {
    var m := MaxOf(files);
    var k :| 0 <= k < |files| && files[k].heightMm == m;
  }

  /** Post-processing is charged once per non-empty batch, however many files it holds. */
  lemma PostProcessingOncePerBatch(a: seq<StlFile>, b: seq<StlFile>, s: CostSettings)
    requires |a| > 0 && |b| > 0 && Computable(a, s) && Computable(b, s)
    ensures Totals(a, s).postProcessingCost == s.postProcessingCost
    ensures Totals(a, s).postProcessingCost == Totals(b, s).postProcessingCost
  {
  }

  /** `Totals` does not read the density: it only enters a record's
      weight, when geometry is delivered to that record. */
  lemma QuoteIgnoresDensity(files: seq<StlFile>, s: CostSettings, density: real)
    requires Computable(files, s)
    ensures Computable(files, s.(resinDensity := density))
    ensures Totals(files, s.(resinDensity := density)) == Totals(files, s)
  {
    var s' := s.(resinDensity := density);
    var w, t := TotalWeight(files), PrintTime(files, s);
    var p := if |files| > 0 then s.postProcessingCost else 0.0;
    assert PrintTime(files, s') == t;
    assert Totals(files, s') == Quote(w, t, p, s');
    assert Quote(w, t, p, s') == Quote(w, t, p, s);
  }

  // ---------------------------------------------------------------------
  // The quote does not depend on the order of the files

  lemma {:induction false} TotalWeightAppend(a: seq<StlFile>, b: seq<StlFile>)
    ensures TotalWeight(a + b) == TotalWeight(a) + TotalWeight(b)
    decreases |b|
  {
    if |b| == 0 {
      assert a + b == a;
    } else {
      var b' := b[..|b| - 1];
      assert (a + b)[..|a + b| - 1] == a + b';
      TotalWeightAppend(a, b');
    }
  }

  /** Summing weights is insensitive to the order of the files. */
  lemma {:induction false} TotalWeightPermutation(a: seq<StlFile>, b: seq<StlFile>)
    requires multiset(a) == multiset(b)
    ensures TotalWeight(a) == TotalWeight(b)
    decreases |a|
  {
    if |a| == 0 {
      assert |b| == |multiset(b)| == 0;
    } else {
      var x := a[|a| - 1];
      var a' := a[..|a| - 1];
      assert a == a' + [x];
      assert multiset(a') == multiset(a) - multiset{x};
      assert x in multiset(b);
      var i :| 0 <= i < |b| && b[i] == x;
      var b' := b[..i] + b[i + 1..];
      DropAt(b, i);
      TotalWeightPermutation(a', b');
      TotalWeightDrop(b, i);
      assert TotalWeight(a) == TotalWeight(a') + x.weightG;
    }
  }

  /** Taking file `i` out of the list takes its weight out of the sum. */
  lemma TotalWeightDrop(b: seq<StlFile>, i: nat)
    requires i < |b|
    ensures TotalWeight(b) == TotalWeight(b[..i] + b[i + 1..]) + b[i].weightG
  {
    var pre, x, post := b[..i], b[i], b[i + 1..];
    var head := pre + [x];
    SplitAt(b, i);
    assert b == head + post;
    TotalWeightAppend(head, post);
    assert head[..|head| - 1] == pre;
    assert TotalWeight(head) == TotalWeight(pre) + x.weightG;
    TotalWeightAppend(pre, post);
  }

  /** The tallest height is insensitive to the order of the files. */
  lemma MaxHeightPermutation(a: seq<StlFile>, b: seq<StlFile>)
    requires multiset(a) == multiset(b)
    ensures MaxHeight(a) == MaxHeight(b)
  {
    if |a| == 0 {
      assert |b| == |multiset(b)| == 0;
    } else {
      assert |b| == |multiset(b)| == |a|;
      var i :| 0 <= i < |a| && a[i].heightMm == MaxOf(a);
      assert a[i] in multiset(b);
      var j :| 0 <= j < |b| && b[j].heightMm == MaxOf(b);
      assert b[j] in multiset(a);
    }
  }

  /** Reordering the file list leaves the whole quote unchanged. */
  lemma QuoteIgnoresOrder(a: seq<StlFile>, b: seq<StlFile>, s: CostSettings)
    requires multiset(a) == multiset(b) && Computable(a, s)
    ensures Computable(b, s)
    ensures Totals(a, s) == Totals(b, s)
  {
    assert |a| == |multiset(a)| == |b|;
    TotalWeightPermutation(a, b);
    MaxHeightPermutation(a, b);
  }

  // ---------------------------------------------------------------------
  // Adding a file never makes the batch cheaper

  lemma PrintTimeGrows(files: seq<StlFile>, f: StlFile, s: CostSettings)
    requires s.printSpeedMmPerHour > 0.0
    ensures PrintTime(files, s) <= PrintTime(files + [f], s)
  {
    var g := files + [f];
    assert g[..|g| - 1] == files;
    if |files| > 0 && s.manualPrintTimeHours <= 0.0 && MaxHeight(files) > 0.0 {
      assert MaxHeight(files) <= MaxHeight(g);
      DivMonotone(MaxHeight(files), MaxHeight(g), s.printSpeedMmPerHour);
    } else if |files| == 0 && s.manualPrintTimeHours <= 0.0 && MaxHeight(g) > 0.0 {
      assert MaxHeight(g) / s.printSpeedMmPerHour > 0.0;
    }
  }

  lemma DivMonotone(x: real, y: real, k: real)
    requires x <= y && k > 0.0
    ensures x / k <= y / k
  {
    assert y / k - x / k == (y - x) / k;
  }

  lemma MulMonotone(x: real, y: real, k: real)
    requires x <= y && k >= 0.0
    ensures x * k <= y * k
  {
  }

  /** Each cost line of `Quote`, and so the subtotal, is monotone in
      weight, hours and the fee when the settings are non-negative. */
  lemma SubtotalMonotone(w: real, w': real, t: real, t': real, p: real, p': real, s: CostSettings)
    requires NonNegativeSettings(s) && s.printerLifespanHours > 0.0
    requires w <= w' && t <= t' && p <= p'
    ensures Quote(w, t, p, s).subtotal <= Quote(w', t', p', s).subtotal
  {
    var q, q' := Quote(w, t, p, s), Quote(w', t', p', s);
    MulMonotone(w / 1000.0, w' / 1000.0, s.resinPricePerKg);
    assert q.resinCost <= q'.resinCost;
    var pw := s.printerPowerWatts / 1000.0;
    MulMonotone(t, t', pw);
    assert pw * t <= pw * t';
    MulMonotone(pw * t, pw * t', s.electricityCostKwh);
    assert q.energyCost <= q'.energyCost;
    var r := s.printerCost / s.printerLifespanHours;
    MulMonotone(t, t', r);
    assert q.depreciationCost <= q'.depreciationCost;
  }

  /** The total follows the subtotal up when the margin is non-negative. */
  lemma QuoteMonotone(w: real, w': real, t: real, t': real, p: real, p': real, s: CostSettings)
    requires NonNegativeSettings(s) && s.printerLifespanHours > 0.0
    requires w <= w' && t <= t' && p <= p'
    ensures Quote(w, t, p, s).total <= Quote(w', t', p', s).total
  {
    SubtotalMonotone(w, w', t, t', p, p', s);
    var q, q' := Quote(w, t, p, s), Quote(w', t', p', s);
    var m := 1.0 + s.profitMarginPercent / 100.0;
    assert q.total == q.subtotal * m;
    assert q'.total == q'.subtotal * m;
    MulMonotone(q.subtotal, q'.subtotal, m);
  }

  /** With non-negative settings, positive lifespan and speed, appending a
      file of non-negative weight never lowers the subtotal or the total. */
  lemma AddingFileNeverLowersQuote(files: seq<StlFile>, f: StlFile, s: CostSettings)
    requires NonNegativeSettings(s)
    requires s.printerLifespanHours > 0.0 && s.printSpeedMmPerHour > 0.0
    requires f.weightG >= 0.0
    ensures Computable(files, s) && Computable(files + [f], s)
    ensures Totals(files, s).subtotal <= Totals(files + [f], s).subtotal
    ensures Totals(files, s).total <= Totals(files + [f], s).total
  {
    var g := files + [f];
    assert g[..|g| - 1] == files;
    PrintTimeGrows(files, f, s);
    SubtotalMonotone(TotalWeight(files), TotalWeight(g), PrintTime(files, s), PrintTime(g, s),
                     if |files| > 0 then s.postProcessingCost else 0.0, s.postProcessingCost, s);
    QuoteMonotone(TotalWeight(files), TotalWeight(g), PrintTime(files, s), PrintTime(g, s),
                  if |files| > 0 then s.postProcessingCost else 0.0, s.postProcessingCost, s);
  }
}
