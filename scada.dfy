/** Validation of SCADA readings before they are ingested. */
module ScadaData {
  import opened Types
  import opened Checks

  /** The quantities `validateMeasurement` looks at. */
  datatype MeasurementQuantities = MeasurementQuantities(
    wasteProcessed: real,
    methaneGenerated: real,
    methaneDestroyed: real,
    electricityProduced: Option<real>,
    processHeatProduced: Option<real>)

  function QuantitiesOf(m: ScadaMeasurement): MeasurementQuantities {
    MeasurementQuantities(m.wasteProcessed, m.methaneGenerated, m.methaneDestroyed,
                          m.electricityProduced, m.processHeatProduced)
  }

  datatype MeasurementError =
    | WasteNotPositive | MethaneGeneratedNegative | MethaneDestroyedNegative
    | DestroyedExceedsGenerated | ElectricityNegative | HeatNegative
  {
    function Message(): string {
      match this
      case WasteNotPositive => "Waste processed must be greater than 0"
      case MethaneGeneratedNegative => "Methane generated cannot be negative"
      case MethaneDestroyedNegative => "Methane destroyed cannot be negative"
      case DestroyedExceedsGenerated => "Methane destroyed cannot exceed methane generated"
      case ElectricityNegative => "Electricity produced cannot be negative"
      case HeatNegative => "Process heat produced cannot be negative"
    }
  }

  function MeasurementRank(e: MeasurementError): nat {
    match e
    case WasteNotPositive => 0
    case MethaneGeneratedNegative => 1
    case MethaneDestroyedNegative => 2
    case DestroyedExceedsGenerated => 3
    case ElectricityNegative => 4
    case HeatNegative => 5
  }

  /** When each check fails; the optional readings are checked only when present. */
  predicate MeasurementCheckFails(q: MeasurementQuantities, e: MeasurementError) {
    match e
    case WasteNotPositive => q.wasteProcessed <= 0.0
    case MethaneGeneratedNegative => q.methaneGenerated < 0.0
    case MethaneDestroyedNegative => q.methaneDestroyed < 0.0
    case DestroyedExceedsGenerated => q.methaneDestroyed > q.methaneGenerated
    case ElectricityNegative => q.electricityProduced.Some? && q.electricityProduced.value < 0.0
    case HeatNegative => q.processHeatProduced.Some? && q.processHeatProduced.value < 0.0
  }

  /** The error list `validateMeasurement` builds, one check after another. */
  function MeasurementErrors(q: MeasurementQuantities): seq<MeasurementError> {
    var e0 := Push([], MeasurementCheckFails(q, WasteNotPositive), WasteNotPositive);
    var e1 := Push(e0, MeasurementCheckFails(q, MethaneGeneratedNegative), MethaneGeneratedNegative);
    var e2 := Push(e1, MeasurementCheckFails(q, MethaneDestroyedNegative), MethaneDestroyedNegative);
    var e3 := Push(e2, MeasurementCheckFails(q, DestroyedExceedsGenerated), DestroyedExceedsGenerated);
    var e4 := Push(e3, MeasurementCheckFails(q, ElectricityNegative), ElectricityNegative);
    Push(e4, MeasurementCheckFails(q, HeatNegative), HeatNegative)
  }

  /** Every failing check is reported once, and the errors come in check order. */
  lemma MeasurementErrorsReportFailures(q: MeasurementQuantities)
    ensures forall e :: e in MeasurementErrors(q) <==> MeasurementCheckFails(q, e)
    ensures InCheckOrder(MeasurementErrors(q), MeasurementRank)
  {
    MeasurementErrorsInOrder(q);
    forall e ensures e in MeasurementErrors(q) <==> MeasurementCheckFails(q, e) {
      match e
      case WasteNotPositive =>
      case MethaneGeneratedNegative =>
      case MethaneDestroyedNegative =>
      case DestroyedExceedsGenerated =>
      case ElectricityNegative =>
      case HeatNegative =>
    }
  }

  lemma MeasurementErrorsInOrder(q: MeasurementQuantities)
    ensures InCheckOrder(MeasurementErrors(q), MeasurementRank)
  {
    var e0 := Push([], MeasurementCheckFails(q, WasteNotPositive), WasteNotPositive);
    var e1 := Push(e0, MeasurementCheckFails(q, MethaneGeneratedNegative), MethaneGeneratedNegative);
    var e2 := Push(e1, MeasurementCheckFails(q, MethaneDestroyedNegative), MethaneDestroyedNegative);
    var e3 := Push(e2, MeasurementCheckFails(q, DestroyedExceedsGenerated), DestroyedExceedsGenerated);
    var e4 := Push(e3, MeasurementCheckFails(q, ElectricityNegative), ElectricityNegative);
    PushInCheckOrder([], MeasurementCheckFails(q, WasteNotPositive), WasteNotPositive, MeasurementRank);
    PushInCheckOrder(e0, MeasurementCheckFails(q, MethaneGeneratedNegative), MethaneGeneratedNegative,
                     MeasurementRank);
    PushInCheckOrder(e1, MeasurementCheckFails(q, MethaneDestroyedNegative), MethaneDestroyedNegative,
                     MeasurementRank);
    PushInCheckOrder(e2, MeasurementCheckFails(q, DestroyedExceedsGenerated), DestroyedExceedsGenerated,
                     MeasurementRank);
    PushInCheckOrder(e3, MeasurementCheckFails(q, ElectricityNegative), ElectricityNegative,
                     MeasurementRank);
    PushInCheckOrder(e4, MeasurementCheckFails(q, HeatNegative), HeatNegative, MeasurementRank);
  }

  /** `validateMeasurement`. */
  method ValidateMeasurement(q: MeasurementQuantities) returns (v: Validation<MeasurementError>)
    ensures v.errors == MeasurementErrors(q)
    ensures forall e :: e in v.errors <==> MeasurementCheckFails(q, e)
    ensures InCheckOrder(v.errors, MeasurementRank)
    ensures v.valid <==> v.errors == []
  {
    var errors: seq<MeasurementError> := [];
    if q.wasteProcessed <= 0.0 {
      errors := errors + [WasteNotPositive];
    }
    if q.methaneGenerated < 0.0 {
      errors := errors + [MethaneGeneratedNegative];
    }
    if q.methaneDestroyed < 0.0 {
      errors := errors + [MethaneDestroyedNegative];
    }
    if q.methaneDestroyed > q.methaneGenerated {
      errors := errors + [DestroyedExceedsGenerated];
    }
    if q.electricityProduced.Some? && q.electricityProduced.value < 0.0 {
      errors := errors + [ElectricityNegative];
    }
    if q.processHeatProduced.Some? && q.processHeatProduced.value < 0.0 {
      errors := errors + [HeatNegative];
    }
    MeasurementErrorsReportFailures(q);
    v := Validation(|errors| == 0, errors);
  }

  /** The quantities of a measurement that passes validation. */
  predicate PlausibleQuantities(q: MeasurementQuantities) {
    && q.wasteProcessed > 0.0
    && 0.0 <= q.methaneDestroyed <= q.methaneGenerated
    && (q.electricityProduced.Some? ==> q.electricityProduced.value >= 0.0)
    && (q.processHeatProduced.Some? ==> q.processHeatProduced.value >= 0.0)
  }

  /** A measurement passes exactly when some waste was processed, the methane destroyed lies
      between zero and the methane generated, and the energy readings present are non-negative.
      In particular zero waste is rejected. */
  lemma ValidIffPlausible(q: MeasurementQuantities)
    ensures MeasurementErrors(q) == [] <==> PlausibleQuantities(q)
  {
    MeasurementErrorsReportFailures(q);
    if MeasurementErrors(q) != [] {
      var e := MeasurementErrors(q)[0];
      assert e in MeasurementErrors(q);
    } else {
      assert !MeasurementCheckFails(q, WasteNotPositive);
      assert !MeasurementCheckFails(q, MethaneDestroyedNegative);
      assert !MeasurementCheckFails(q, DestroyedExceedsGenerated);
      assert !MeasurementCheckFails(q, ElectricityNegative);
      assert !MeasurementCheckFails(q, HeatNegative);
    }
  }
}
