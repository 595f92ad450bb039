/**
 * The settings form: every numeric input edits one field of the cost
 * settings. The browser's `parseFloat` is passed in as a parameter:
 * `None` stands for its NaN result (text that does not start with a number).
 */
module SettingsForm {
  import opened Types
  import opened Wrappers

  /** The ten fields of the cost settings, one per input of the form. */
  datatype Field =
    | ResinPricePerKg | ResinDensity | PrinterPowerWatts | ElectricityCostKwh | PrinterCost
    | PrinterLifespanHours | PrintSpeedMmPerHour | PostProcessingCost | ProfitMarginPercent
    | ManualPrintTimeHours

  function Get(s: CostSettings, f: Field): real
  {
    match f
    case ResinPricePerKg => s.resinPricePerKg
    case ResinDensity => s.resinDensity
    case PrinterPowerWatts => s.printerPowerWatts
    case ElectricityCostKwh => s.electricityCostKwh
    case PrinterCost => s.printerCost
    case PrinterLifespanHours => s.printerLifespanHours
    case PrintSpeedMmPerHour => s.printSpeedMmPerHour
    case PostProcessingCost => s.postProcessingCost
    case ProfitMarginPercent => s.profitMarginPercent
    case ManualPrintTimeHours => s.manualPrintTimeHours
  }

  /** The settings with field `f` replaced by `v`: reading `f` back gives
      `v`, and every other field reads as before. */
  function Set(s: CostSettings, f: Field, v: real): (r: CostSettings)
    ensures Get(r, f) == v
    ensures forall g :: g != f ==> Get(r, g) == Get(s, g)
  {
    match f
    case ResinPricePerKg => s.(resinPricePerKg := v)
    case ResinDensity => s.(resinDensity := v)
    case PrinterPowerWatts => s.(printerPowerWatts := v)
    case ElectricityCostKwh => s.(electricityCostKwh := v)
    case PrinterCost => s.(printerCost := v)
    case PrinterLifespanHours => s.(printerLifespanHours := v)
    case PrintSpeedMmPerHour => s.(printSpeedMmPerHour := v)
    case PostProcessingCost => s.(postProcessingCost := v)
    case ProfitMarginPercent => s.(profitMarginPercent := v)
    case ManualPrintTimeHours => s.(manualPrintTimeHours := v)
  }

  /** Two settings records agreeing on every field are the same record. */
  lemma FieldsDetermineSettings(s: CostSettings, t: CostSettings)
    requires forall g :: Get(s, g) == Get(t, g)
    ensures s == t
  {
    assert Get(s, ResinPricePerKg) == Get(t, ResinPricePerKg);
    assert Get(s, ResinDensity) == Get(t, ResinDensity);
    assert Get(s, PrinterPowerWatts) == Get(t, PrinterPowerWatts);
    assert Get(s, ElectricityCostKwh) == Get(t, ElectricityCostKwh);
    assert Get(s, PrinterCost) == Get(t, PrinterCost);
    assert Get(s, PrinterLifespanHours) == Get(t, PrinterLifespanHours);
    assert Get(s, PrintSpeedMmPerHour) == Get(t, PrintSpeedMmPerHour);
    assert Get(s, PostProcessingCost) == Get(t, PostProcessingCost);
    assert Get(s, ProfitMarginPercent) == Get(t, ProfitMarginPercent);
    assert Get(s, ManualPrintTimeHours) == Get(t, ManualPrintTimeHours);
  }

  /** `parseFloat(value) || 0`: NaN and zero are both falsy, so each becomes 0. */
  function ParsedOrZero(parsed: Option<real>): (v: real)
    ensures parsed.None? ==> v == 0.0
    ensures parsed.Some? ==> v == parsed.value
  {
    if parsed.Some? && parsed.value != 0.0 then parsed.value else 0.0
  }

  /** One keystroke in the input for `f`: the field gets the parsed number
      (0 when the text does not parse), without any clamping, and the nine
      other fields are copied. */
  function HandleChange(s: CostSettings, f: Field, value: string,
                        parseFloat: string -> Option<real>): (r: CostSettings)
    ensures parseFloat(value).Some? ==> Get(r, f) == parseFloat(value).value
    ensures parseFloat(value).None? ==> Get(r, f) == 0.0
    ensures forall g :: g != f ==> Get(r, g) == Get(s, g)
  {
    Set(s, f, ParsedOrZero(parseFloat(value)))
  }

  /** Repeating the same edit gives the same settings as making it once. */
  lemma HandleChangeIdempotent(s: CostSettings, f: Field, value: string,
                               parseFloat: string -> Option<real>)
    ensures var once := HandleChange(s, f, value, parseFloat);
      HandleChange(once, f, value, parseFloat) == once
  {
    var once := HandleChange(s, f, value, parseFloat);
    FieldsDetermineSettings(HandleChange(once, f, value, parseFloat), once);
  }

  /** An edit that stores the value a field already holds leaves the settings unchanged. */
  lemma SetSameValueIsNoOp(s: CostSettings, f: Field)
    ensures Set(s, f, Get(s, f)) == s
  {
    FieldsDetermineSettings(Set(s, f, Get(s, f)), s);
  }

  /** Editing one field and then another commutes when the fields differ. */
  lemma EditsOfDifferentFieldsCommute(s: CostSettings, f: Field, g: Field, v: real, w: real)
    requires f != g
    ensures Set(Set(s, f, v), g, w) == Set(Set(s, g, w), f, v)
  {
    FieldsDetermineSettings(Set(Set(s, f, v), g, w), Set(Set(s, g, w), f, v));
  }
}
