/** The emissions calculation engine: methane destroyed becomes tonnes of CO2-equivalent, waste
    quantities become emission reductions by E = Q x F, and a SCADA measurement becomes a gross
    emissions reduction (GER) record that an advisory validator then checks against an IPCC
    methodology. */
module EmissionsCalculation {
  import opened Types
  import opened Checks
  import Decimal

  /** Global warming potential of methane over 100 years (IPCC AR5). */
  const Ch4Gwp: real := 28.0
  /** Methane density in kg per cubic metre at standard conditions. */
  const MethaneDensity: real := 0.657

  /** The waste categories with an MFE emission factor (tonnes CO2-eq per tonne of waste). */
  datatype MfeCategory =
    | FoodWasteFactor | GardenWasteFactor | SewageSludgeFactor | GrapeMarcFactor
    | AnaerobicDigestionFactor

  function EmissionFactor(c: MfeCategory): real {
    match c
    case FoodWasteFactor => 0.64
    case GardenWasteFactor => 0.18
    case SewageSludgeFactor => 0.12
    case GrapeMarcFactor => 0.18
    case AnaerobicDigestionFactor => 0.05
  }

  /** `getMFEEmissionFactor`: every factor is a fraction of a tonne per tonne, food waste has the
      highest, and grape marc is taken to be the same as garden waste. */
  lemma EmissionFactorFacts(c: MfeCategory)
    ensures 0.0 < EmissionFactor(c) < 1.0
    ensures EmissionFactor(c) <= EmissionFactor(FoodWasteFactor)
    ensures EmissionFactor(GrapeMarcFactor) == EmissionFactor(GardenWasteFactor)
  {
  }

  /** BRRP Nelson demonstrator configuration. */
  const DailyFeedstock: real := 10.0
  const SewageSludgeDaily: real := 3.0
  const GreenWasteDaily: real := 7.0
  const ElectricitySurplus: real := 1200.0

  /** E = Q x F, to three decimals. The process factor for anaerobic digestion is not a waste
      category this calculation accepts. */
  function CalculateEmissionsReduction(quantity: real, c: MfeCategory): (r: real)
    requires c != AnaerobicDigestionFactor
    ensures Decimal.RoundsTo(quantity * EmissionFactor(c), r, 1000)
  {
    Decimal.ToFixed3(quantity * EmissionFactor(c))
  }

  /** More waste never yields a smaller reduction, and a quantity of zero or more yields a
      reduction of zero or more. */
  lemma EmissionsReductionMonotone(q1: real, q2: real, c: MfeCategory)
    requires c != AnaerobicDigestionFactor && q1 <= q2
    ensures CalculateEmissionsReduction(q1, c) <= CalculateEmissionsReduction(q2, c)
    ensures q1 >= 0.0 ==> CalculateEmissionsReduction(q1, c) >= 0.0
  {
    if c == FoodWasteFactor {
      FoodReductionMonotone(q1, q2);
    } else if c == GardenWasteFactor {
      GardenReductionMonotone(q1, q2);
    } else if c == SewageSludgeFactor {
      SludgeReductionMonotone(q1, q2);
    } else {
      GrapeMarcReductionMonotone(q1, q2);
    }
  }

  // The monotonicity of each category separately, with its factor written out.

  lemma FoodReductionMonotone(q1: real, q2: real)
    requires q1 <= q2
    ensures CalculateEmissionsReduction(q1, FoodWasteFactor) <= CalculateEmissionsReduction(q2, FoodWasteFactor)
    ensures q1 >= 0.0 ==> CalculateEmissionsReduction(q1, FoodWasteFactor) >= 0.0
  {
    Decimal.ToFixed3Monotone(q1 * 0.64, q2 * 0.64);
    if q1 >= 0.0 {
      Decimal.ToFixed3NonNegative(q1 * 0.64);
    }
  }

  lemma GardenReductionMonotone(q1: real, q2: real)
    requires q1 <= q2
    ensures CalculateEmissionsReduction(q1, GardenWasteFactor) <= CalculateEmissionsReduction(q2, GardenWasteFactor)
    ensures q1 >= 0.0 ==> CalculateEmissionsReduction(q1, GardenWasteFactor) >= 0.0
  {
    Decimal.ToFixed3Monotone(q1 * 0.18, q2 * 0.18);
    if q1 >= 0.0 {
      Decimal.ToFixed3NonNegative(q1 * 0.18);
    }
  }

  lemma SludgeReductionMonotone(q1: real, q2: real)
    requires q1 <= q2
    ensures CalculateEmissionsReduction(q1, SewageSludgeFactor) <= CalculateEmissionsReduction(q2, SewageSludgeFactor)
    ensures q1 >= 0.0 ==> CalculateEmissionsReduction(q1, SewageSludgeFactor) >= 0.0
  {
    Decimal.ToFixed3Monotone(q1 * 0.12, q2 * 0.12);
    if q1 >= 0.0 {
      Decimal.ToFixed3NonNegative(q1 * 0.12);
    }
  }

  lemma GrapeMarcReductionMonotone(q1: real, q2: real)
    requires q1 <= q2
    ensures CalculateEmissionsReduction(q1, GrapeMarcFactor) <= CalculateEmissionsReduction(q2, GrapeMarcFactor)
    ensures q1 >= 0.0 ==> CalculateEmissionsReduction(q1, GrapeMarcFactor) >= 0.0
  {
    Decimal.ToFixed3Monotone(q1 * 0.18, q2 * 0.18);
    if q1 >= 0.0 {
      Decimal.ToFixed3NonNegative(q1 * 0.18);
    }
  }

  /** Tonnes of methane in `m3` cubic metres. */
  function MethaneTonnes(m3: real): real {
    m3 * MethaneDensity / 1000.0
  }

  /** Tonnes of CO2-equivalent for a volume of methane destroyed: the methane's mass in tonnes
      times its GWP of 28, to three decimals, which is 0.018396 t per cubic metre. */
  function CalculateCo2Equivalent(methaneDestroyed: real): (r: real)
    ensures Decimal.RoundsTo(MethaneTonnes(methaneDestroyed) * Ch4Gwp, r, 1000)
    ensures Decimal.RoundsTo(methaneDestroyed * 0.018396, r, 1000)
  {
    Decimal.ToFixed3(MethaneTonnes(methaneDestroyed) * Ch4Gwp)
  }

  /** No methane gives no CO2-equivalent; a non-negative volume gives a non-negative amount,
      which is positive exactly when the volume reaches 0.0005 / 0.018396 cubic metres; and more
      methane never gives less. */
  lemma Co2EquivalentFacts(m: real, m2: real)
    ensures CalculateCo2Equivalent(0.0) == 0.0
    ensures m >= 0.0 ==> CalculateCo2Equivalent(m) >= 0.0
    ensures m >= 0.0 ==> (CalculateCo2Equivalent(m) > 0.0 <==> m * 0.018396 >= 0.0005)
    ensures m <= m2 ==> CalculateCo2Equivalent(m) <= CalculateCo2Equivalent(m2)
  {
    Decimal.ThousandthsExact(0.0);
    Decimal.ThousandthsUnique(0.0, CalculateCo2Equivalent(0.0), 0.0);
    if m >= 0.0 {
      Decimal.ThousandthsNonNegative(m * 0.018396, CalculateCo2Equivalent(m));
    }
    if m <= m2 {
      Decimal.ThousandthsMonotone(m * 0.018396, m2 * 0.018396,
        CalculateCo2Equivalent(m), CalculateCo2Equivalent(m2));
    }
  }

  /** 2485 cubic metres of methane is 45.714 t CO2-eq (2485 x 0.018396 = 45.71406). */
  lemma Co2EquivalentExample()
    ensures CalculateCo2Equivalent(2485.0) == 45.714
  {
    assert Decimal.RoundsTo(2485.0 * 0.018396, 45.714, 1000);
    Decimal.ThousandthsUnique(2485.0 * 0.018396, CalculateCo2Equivalent(2485.0), 45.714);
  }

  /** The DEF intensity: zero when no energy was produced, otherwise the CO2-equivalent mass of
      the methane (at potential `gwp`) per unit of energy, to six decimals. */
  function CalculateDef(energyProduced: real, methaneDestroyed: real, gwp: real): (r: real)
    ensures energyProduced == 0.0 ==> r == 0.0
    ensures energyProduced != 0.0 ==>
              Decimal.RoundsTo(MethaneTonnes(methaneDestroyed) * gwp / energyProduced, r, 1000000)
  {
    if energyProduced == 0.0 then 0.0
    else Decimal.ToFixed6(MethaneTonnes(methaneDestroyed) * gwp / energyProduced)
  }

  /** The energy a measurement counts: JavaScript `elec || (heat ? heat / 3.6 : 0)`, so a zero
      electricity reading falls through to heat (MJ to kWh) and a zero heat reading to 0. */
  function EnergyUsed(electricity: Option<real>, heat: Option<real>): (e: real)
    ensures TruthyNumber(electricity) ==> e == electricity.value
    ensures !TruthyNumber(electricity) && TruthyNumber(heat) ==> e == heat.value / 3.6
    ensures !TruthyNumber(electricity) && !TruthyNumber(heat) ==> e == 0.0
  {
    if TruthyNumber(electricity) then electricity.value
    else if TruthyNumber(heat) then heat.value / 3.6
    else 0.0
  }

  /** Energy is counted exactly when some reading is present and non-zero, and readings of zero
      or more give energy of zero or more. */
  lemma EnergyUsedFacts(electricity: Option<real>, heat: Option<real>)
    ensures EnergyUsed(electricity, heat) != 0.0 <==> TruthyNumber(electricity) || TruthyNumber(heat)
    ensures (electricity.Some? ==> electricity.value >= 0.0) && (heat.Some? ==> heat.value >= 0.0)
            ==> EnergyUsed(electricity, heat) >= 0.0
  {
  }

  /** The optional waste details a GER calculation may be given. */
  datatype WasteDetails = WasteDetails(volumeTonnes: real, wasteType: string)

  /** `calculateGER`: the emissions record of one measurement. `id` and `now` stand in for the
      generated identifier and the clock. The standard defaults to ACM0022. */
  function CalculateGer(scada: ScadaMeasurement, standard: Option<IpccStandard>,
                        waste: Option<WasteDetails>, id: string, now: int): (r: EmissionsRecord)
    ensures r.id == id && r.scadaMeasurementId == Some(scada.id)
    ensures r.co2Equivalent == Some(CalculateCo2Equivalent(scada.methaneDestroyed))
    ensures r.co2EquivalentTonnes == r.co2Equivalent
    ensures r.grossEmissionsReduction == r.co2Equivalent
    ensures r.globalWarmingPotential == Some(Ch4Gwp)
    ensures r.methaneDestroyed == Some(scada.methaneDestroyed)
    ensures r.methaneDestroyedM3 == Some(scada.methaneDestroyed)
    ensures r.energyProduced == Some(EnergyUsed(scada.electricityProduced, scada.processHeatProduced))
    ensures r.defValue ==
              Some(CalculateDef(r.energyProduced.value, scada.methaneDestroyed, Ch4Gwp))
    ensures waste.None? ==> r.wasteVolumeTonnes == 0.0 && r.wasteType == "UNKNOWN"
    ensures waste.Some? ==> r.wasteVolumeTonnes == waste.value.volumeTonnes
                            && r.wasteType == waste.value.wasteType
    ensures r.standardUsed == Some(if standard.Some? then standard.value else ACM0022)
    ensures r.calculatedAt == Some(now) && r.createdAt == now
    ensures r.weighbridgeJobId.None? && r.methaneGeneratedM3.None? && r.emissionFactor.None?
    ensures r.scadaReadingTimestamp.None? && r.scadaSource.None?
  {
    var co2 := CalculateCo2Equivalent(scada.methaneDestroyed);
    var energy := EnergyUsed(scada.electricityProduced, scada.processHeatProduced);
    var def := CalculateDef(energy, scada.methaneDestroyed, Ch4Gwp);
    EmissionsRecord(
      id := id,
      weighbridgeJobId := None,
      scadaMeasurementId := Some(scada.id),
      wasteVolumeTonnes := if waste.Some? then waste.value.volumeTonnes else 0.0,
      wasteType := if waste.Some? then waste.value.wasteType else "UNKNOWN",
      methaneGeneratedM3 := None,
      methaneDestroyedM3 := Some(scada.methaneDestroyed),
      methaneDestroyed := Some(scada.methaneDestroyed),
      co2EquivalentTonnes := Some(co2),
      co2Equivalent := Some(co2),
      emissionFactor := None,
      globalWarmingPotential := Some(Ch4Gwp),
      energyProduced := Some(energy),
      defValue := Some(def),
      grossEmissionsReduction := Some(co2),
      scadaReadingTimestamp := None,
      scadaSource := None,
      calculatedAt := Some(now),
      standardUsed := Some(standard.GetOr(ACM0022)),
      createdAt := now)
  }

  /** `calculateBRRPDailyReduction` result. */
  datatype DailyReduction = DailyReduction(
    sewageSludgeReduction: real,
    greenWasteReduction: real,
    grapeMarcReduction: real,
    totalReduction: real,
    electricityProduced: real)

  /** Omitted quantities take the demonstrator's defaults: 3 t sludge, 7 t green waste, no grape
      marc. */
  function CalculateBrrpDailyReduction(sewageSludge: Option<real>, greenWaste: Option<real>,
                                       grapeMarc: Option<real>): (r: DailyReduction)
    ensures r.sewageSludgeReduction
              == CalculateEmissionsReduction(sewageSludge.GetOr(SewageSludgeDaily), SewageSludgeFactor)
    ensures r.greenWasteReduction
              == CalculateEmissionsReduction(greenWaste.GetOr(GreenWasteDaily), GardenWasteFactor)
    ensures grapeMarc.GetOr(0.0) > 0.0 ==>
              r.grapeMarcReduction == CalculateEmissionsReduction(grapeMarc.GetOr(0.0), GrapeMarcFactor)
    ensures grapeMarc.GetOr(0.0) <= 0.0 ==> r.grapeMarcReduction == 0.0
    ensures r.totalReduction == r.sewageSludgeReduction + r.greenWasteReduction + r.grapeMarcReduction
    ensures r.electricityProduced == ElectricitySurplus
  {
    var sludge := CalculateEmissionsReduction(sewageSludge.GetOr(SewageSludgeDaily), SewageSludgeFactor);
    var green := CalculateEmissionsReduction(greenWaste.GetOr(GreenWasteDaily), GardenWasteFactor);
    var grapeQty := grapeMarc.GetOr(0.0);
    var grape := if grapeQty > 0.0 then CalculateEmissionsReduction(grapeQty, GrapeMarcFactor) else 0.0;
    DailyReduction(sludge, green, grape, sludge + green + grape, ElectricitySurplus)
  }

  /** With the default configuration the BRRP saves 0.36 + 1.26 = 1.62 t CO2-eq a day. */
  lemma DefaultDailyReduction()
    ensures CalculateBrrpDailyReduction(None, None, None)
            == DailyReduction(0.36, 1.26, 0.0, 1.62, 1200.0)
  {
    Decimal.ThousandthsExact(0.36);
    Decimal.ThousandthsUnique(3.0 * 0.12, CalculateEmissionsReduction(3.0, SewageSludgeFactor), 0.36);
    Decimal.ThousandthsExact(1.26);
    Decimal.ThousandthsUnique(7.0 * 0.18, CalculateEmissionsReduction(7.0, GardenWasteFactor), 1.26);
  }

  // ---------------------------------------------------------------- validation against a standard

  datatype StandardError =
    | GwpOutOfRange | Co2NotPositive | GerMismatch
    | Acm0022NeedsMethane | Am0053NeedsEnergy | AmsIdNeedsElectricity
  {
    function Message(): string {
      match this
      case GwpOutOfRange => "GWP value outside IPCC AR5 range (28-36)"
      case Co2NotPositive => "CO2 equivalent must be positive"
      case GerMismatch => "GER calculation mismatch"
      case Acm0022NeedsMethane => "ACM0022 requires positive methane destruction"
      case Am0053NeedsEnergy => "AM0053 requires positive energy production"
      case AmsIdNeedsElectricity => "AMS-I.D requires electricity generation"
    }
  }

  /** The order in which the checks run; the three methodology checks are alternatives. */
  function StandardRank(e: StandardError): nat {
    match e
    case GwpOutOfRange => 0
    case Co2NotPositive => 1
    case GerMismatch => 2
    case _ => 3
  }

  function Abs(x: real): real { if x < 0.0 then -x else x }

  /** When each check of `validateAgainstStandard` fails. A field that is absent is not checked. */
  predicate StandardCheckFails(d: EmissionsRecord, standard: IpccStandard, e: StandardError) {
    match e
    case GwpOutOfRange =>
      d.globalWarmingPotential.Some?
      && (d.globalWarmingPotential.value < 28.0 || d.globalWarmingPotential.value > 36.0)
    case Co2NotPositive => d.co2Equivalent.Some? && d.co2Equivalent.value <= 0.0
    case GerMismatch =>
      d.grossEmissionsReduction.Some? && d.co2Equivalent.Some?
      && Abs(d.grossEmissionsReduction.value - d.co2Equivalent.value) > 0.001
    case Acm0022NeedsMethane =>
      standard == ACM0022 && d.methaneDestroyed.Some? && d.methaneDestroyed.value <= 0.0
    case Am0053NeedsEnergy =>
      standard == AM0053 && d.energyProduced.Some? && d.energyProduced.value <= 0.0
    case AmsIdNeedsElectricity =>
      standard == AMS_I_D && d.energyProduced.Some? && d.energyProduced.value <= 0.0
  }

  /** The error list `validateAgainstStandard` builds, one check after another. */
  function StandardErrors(d: EmissionsRecord, standard: IpccStandard): seq<StandardError> {
    var afterGwp := Push([], StandardCheckFails(d, standard, GwpOutOfRange), GwpOutOfRange);
    var afterCo2 := Push(afterGwp, StandardCheckFails(d, standard, Co2NotPositive), Co2NotPositive);
    var afterGer := Push(afterCo2, StandardCheckFails(d, standard, GerMismatch), GerMismatch);
    var methodology :=
      match standard
      case ACM0022 => Acm0022NeedsMethane
      case AM0053 => Am0053NeedsEnergy
      case AMS_I_D => AmsIdNeedsElectricity;
    Push(afterGer, StandardCheckFails(d, standard, methodology), methodology)
  }

  /** Exactly the failing checks are reported. */
  lemma StandardErrorsReportFailures(d: EmissionsRecord, standard: IpccStandard)
    ensures forall e :: e in StandardErrors(d, standard) <==> StandardCheckFails(d, standard, e)
  {
    forall e ensures e in StandardErrors(d, standard) <==> StandardCheckFails(d, standard, e) {
      match e
      case GwpOutOfRange =>
      case Co2NotPositive =>
      case GerMismatch =>
      case Acm0022NeedsMethane =>
      case Am0053NeedsEnergy =>
      case AmsIdNeedsElectricity =>
    }
  }

  /** The errors come in check order, each at most once. */
  lemma StandardErrorsInOrder(d: EmissionsRecord, standard: IpccStandard)
    ensures InCheckOrder(StandardErrors(d, standard), StandardRank)
  {
    var afterGwp := Push([], StandardCheckFails(d, standard, GwpOutOfRange), GwpOutOfRange);
    var afterCo2 := Push(afterGwp, StandardCheckFails(d, standard, Co2NotPositive), Co2NotPositive);
    var afterGer := Push(afterCo2, StandardCheckFails(d, standard, GerMismatch), GerMismatch);
    PushInCheckOrder([], StandardCheckFails(d, standard, GwpOutOfRange), GwpOutOfRange, StandardRank);
    PushInCheckOrder(afterGwp, StandardCheckFails(d, standard, Co2NotPositive), Co2NotPositive, StandardRank);
    PushInCheckOrder(afterCo2, StandardCheckFails(d, standard, GerMismatch), GerMismatch, StandardRank);
    var methodology :=
      match standard
      case ACM0022 => Acm0022NeedsMethane
      case AM0053 => Am0053NeedsEnergy
      case AMS_I_D => AmsIdNeedsElectricity;
    PushInCheckOrder(afterGer, StandardCheckFails(d, standard, methodology), methodology, StandardRank);
  }

  /** `validateAgainstStandard`: pushes one error per failing check, in check order, and is valid
      exactly when nothing failed. */
  method ValidateAgainstStandard(d: EmissionsRecord, standard: IpccStandard)
    returns (v: Validation<StandardError>)
    ensures v.errors == StandardErrors(d, standard)
    ensures forall e :: e in v.errors <==> StandardCheckFails(d, standard, e)
    ensures InCheckOrder(v.errors, StandardRank)
    ensures v.valid <==> v.errors == []
  {
    var errors: seq<StandardError> := [];
    if d.globalWarmingPotential.Some?
       && (d.globalWarmingPotential.value < 28.0 || d.globalWarmingPotential.value > 36.0)
    {
      errors := errors + [GwpOutOfRange];
    }
    assert errors == Push([], StandardCheckFails(d, standard, GwpOutOfRange), GwpOutOfRange);
    if d.co2Equivalent.Some? && d.co2Equivalent.value <= 0.0 {
      errors := errors + [Co2NotPositive];
    }
    ghost var afterCo2 := errors;
    if d.grossEmissionsReduction.Some? && d.co2Equivalent.Some?
       && Abs(d.grossEmissionsReduction.value - d.co2Equivalent.value) > 0.001
    {
      errors := errors + [GerMismatch];
    }
    assert errors == Push(afterCo2, StandardCheckFails(d, standard, GerMismatch), GerMismatch);
    ghost var afterGer := errors;
    match standard {
      case ACM0022 =>
        if d.methaneDestroyed.Some? && d.methaneDestroyed.value <= 0.0 {
          errors := errors + [Acm0022NeedsMethane];
        }
        assert errors == Push(afterGer, StandardCheckFails(d, standard, Acm0022NeedsMethane), Acm0022NeedsMethane);
      case AM0053 =>
        if d.energyProduced.Some? && d.energyProduced.value <= 0.0 {
          errors := errors + [Am0053NeedsEnergy];
        }
        assert errors == Push(afterGer, StandardCheckFails(d, standard, Am0053NeedsEnergy), Am0053NeedsEnergy);
      case AMS_I_D =>
        if d.energyProduced.Some? && d.energyProduced.value <= 0.0 {
          errors := errors + [AmsIdNeedsElectricity];
        }
        assert errors == Push(afterGer, StandardCheckFails(d, standard, AmsIdNeedsElectricity), AmsIdNeedsElectricity);
    }
    assert errors == StandardErrors(d, standard);
    StandardErrorsReportFailures(d, standard);
    StandardErrorsInOrder(d, standard);
    v := Validation(|errors| == 0, errors);
  }

  /** A record built by `CalculateGer` can fail only the CO2 check and the methodology check:
      its GWP is 28 and its GER is its CO2-equivalent. For a measurement with non-negative methane
      the CO2 check fails exactly when the methane is below 0.0005 / 0.018396 cubic metres. */
  lemma GerRecordChecks(scada: ScadaMeasurement, standard: Option<IpccStandard>,
                        waste: Option<WasteDetails>, id: string, now: int, target: IpccStandard)
    ensures !StandardCheckFails(CalculateGer(scada, standard, waste, id, now), target, GwpOutOfRange)
    ensures !StandardCheckFails(CalculateGer(scada, standard, waste, id, now), target, GerMismatch)
    ensures scada.methaneDestroyed >= 0.0 ==>
              (StandardCheckFails(CalculateGer(scada, standard, waste, id, now), target, Co2NotPositive)
               <==> scada.methaneDestroyed * 0.018396 < 0.0005)
  {
    Co2EquivalentFacts(scada.methaneDestroyed, scada.methaneDestroyed);
  }

  // ---------------------------------------------------------------- methane potential

  /** Typical methane yield, in cubic metres per tonne, of the two source types that have one. */
  function MethaneYieldFactor(t: WasteSourceType): Option<real> {
    match t
    case SewerageSludge => Some(20.0)
    case LandfillOrganic => Some(100.0)
    case _ => None
  }

  /** `estimateMethaneGeneration`: its argument type admits only sewerage sludge and landfill
      organic waste. */
  function EstimateMethaneGeneration(quantity: real, t: WasteSourceType): (m3: real)
    requires t == SewerageSludge || t == LandfillOrganic
    ensures t == SewerageSludge ==> m3 == quantity * 20.0
    ensures t == LandfillOrganic ==> m3 == quantity * 100.0
    ensures quantity >= 0.0 ==> quantity * 20.0 <= m3 <= quantity * 100.0
  {
    quantity * MethaneYieldFactor(t).value
  }
}
