/** Records of the anaerobic-digestion process a waste input goes through: starting it with an
    expected methane yield and energy output, updating its status, and its duration. */
module WasteProcessing {
  import opened Types
  import EmissionsCalculation

  /** `calculateMethaneYield`: 20 m3 per tonne of sewerage sludge, 100 per tonne of landfill
      organic waste; the other source types have no factor, and no yield (NaN in the source). */
  function CalculateMethaneYield(wasteType: WasteSourceType, quantity: real): (m3: Option<real>)
    ensures m3.Some? <==> wasteType == SewerageSludge || wasteType == LandfillOrganic
    ensures wasteType == SewerageSludge ==> m3 == Some(quantity * 20.0)
    ensures wasteType == LandfillOrganic ==> m3 == Some(quantity * 100.0)
  {
    match wasteType
    case SewerageSludge => Some(quantity * 20.0)
    case LandfillOrganic => Some(quantity * 100.0)
    case _ => None
  }

  /** The processing yield table and the emissions engine's methane estimate agree wherever
      both are defined. */
  lemma YieldAgreesWithEmissionsEstimate(wasteType: WasteSourceType, quantity: real)
    requires wasteType == SewerageSludge || wasteType == LandfillOrganic
    ensures CalculateMethaneYield(wasteType, quantity)
            == Some(EmissionsCalculation.EstimateMethaneGeneration(quantity, wasteType))
  {
  }

  /** `estimateEnergyOutput`: 10 kWh per m3 at 35 % efficiency. */
  function EstimateEnergyOutput(methaneVolume: real): (kWh: real)
    ensures kWh == 3.5 * methaneVolume
  {
    methaneVolume * 10.0 * 0.35
  }

  /** More methane never means less energy, and the conversion can be undone. */
  lemma EnergyOutputFacts(v1: real, v2: real)
    ensures v1 <= v2 ==> EstimateEnergyOutput(v1) <= EstimateEnergyOutput(v2)
    ensures v1 >= 0.0 ==> EstimateEnergyOutput(v1) >= 0.0
    ensures EstimateEnergyOutput(v1) / 3.5 == v1
  {
  }

  /** The energy output of an expected yield; NaN, the absent yield, stays NaN. */
  function EnergyOfYield(methaneYield: Option<real>): (kWh: Option<real>)
    ensures kWh.Some? <==> methaneYield.Some?
    ensures methaneYield.Some? ==> kWh == Some(EstimateEnergyOutput(methaneYield.value))
  {
    if methaneYield.Some? then Some(EstimateEnergyOutput(methaneYield.value)) else None
  }

  /** A process whose energy output is the one its methane yield gives. */
  predicate EnergyMatchesYield(p: BrrpProcess) {
    p.energyOutput == EnergyOfYield(p.methaneYield)
  }

  /** `startProcessing`, at instant `now` with generated id `id`: a QUEUED process is created for
      every input; for a source type without a yield factor its yield and energy are NaN. */
  function StartProcessing(input: WasteInput, id: string, now: int): (p: BrrpProcess)
    ensures p.status == Queued && p.processType == "ANAEROBIC_DIGESTION"
    ensures p.wasteInputId == input.id && p.id == id
    ensures p.startTime == now && p.endTime.None?
    ensures p.methaneYield == CalculateMethaneYield(input.wasteSource.sourceType, input.quantity)
    ensures p.methaneYield.Some? <==>
              input.wasteSource.sourceType == SewerageSludge
              || input.wasteSource.sourceType == LandfillOrganic
    ensures EnergyMatchesYield(p)
  {
    var m3 := CalculateMethaneYield(input.wasteSource.sourceType, input.quantity);
    BrrpProcess(
      id := id,
      wasteInputId := input.id,
      processType := "ANAEROBIC_DIGESTION",
      startTime := now,
      endTime := None,
      status := Queued,
      methaneYield := m3,
      energyOutput := EnergyOfYield(m3))
  }

  /** `updateProcessStatus` at instant `now`. Completion records the end time and, when an actual
      yield is given, replaces the yield and recomputes the energy; any other status changes
      only the status. */
  function UpdateProcessStatus(p: BrrpProcess, status: ProcessStatus,
                               actualMethaneYield: Option<real>, now: int): (u: BrrpProcess)
    ensures u.status == status
    ensures status != ProcessCompleted ==> u == p.(status := status)
    ensures status == ProcessCompleted ==> u.endTime == Some(now)
    ensures status == ProcessCompleted && actualMethaneYield.Some? ==>
              u.methaneYield == actualMethaneYield
              && u.energyOutput == Some(EstimateEnergyOutput(actualMethaneYield.value))
    ensures status == ProcessCompleted && actualMethaneYield.None? ==>
              u.methaneYield == p.methaneYield && u.energyOutput == p.energyOutput
    ensures u.id == p.id && u.wasteInputId == p.wasteInputId && u.processType == p.processType
    ensures u.startTime == p.startTime
  {
    if status != ProcessCompleted then p.(status := status)
    else if actualMethaneYield.None? then p.(status := status, endTime := Some(now))
    else p.(status := status, endTime := Some(now), methaneYield := actualMethaneYield,
            energyOutput := Some(EstimateEnergyOutput(actualMethaneYield.value)))
  }

  /** Every update keeps the energy output in step with the methane yield. */
  lemma UpdateKeepsEnergyConsistent(p: BrrpProcess, status: ProcessStatus,
                                    actualMethaneYield: Option<real>, now: int)
    requires EnergyMatchesYield(p)
    ensures EnergyMatchesYield(UpdateProcessStatus(p, status, actualMethaneYield, now))
  {
  }

  /** A process started without a yield factor gets a real yield and energy only from an actual
      yield reported on completion. */
  lemma CompletionRepairsMissingYield(input: WasteInput, id: string, start: int, actual: real,
                                      end: int)
    requires StartProcessing(input, id, start).methaneYield.None?
    ensures StartProcessing(input, id, start).energyOutput.None?
    ensures var done := UpdateProcessStatus(StartProcessing(input, id, start), ProcessCompleted,
                                            Some(actual), end);
            done.methaneYield == Some(actual) && done.energyOutput == Some(3.5 * actual)
  {
  }

  datatype EfficiencyMetrics = EfficiencyMetrics(
    methaneYieldPerTonne: real, energyOutputPerTonne: real, processDuration: Option<int>)

  /** `getEfficiencyMetrics`: the per-tonne figures are the placeholder 0. */
  function GetEfficiencyMetrics(p: BrrpProcess): (m: EfficiencyMetrics)
    ensures m.methaneYieldPerTonne == 0.0 && m.energyOutputPerTonne == 0.0
    ensures m.processDuration.Some? <==> p.endTime.Some?
    ensures p.endTime.Some? ==> m.processDuration == Some(p.endTime.value - p.startTime)
  {
    EfficiencyMetrics(0.0, 0.0,
                      if p.endTime.Some? then Some(p.endTime.value - p.startTime) else None)
  }

  /** A started process has no duration until it completes; once completed at `end`, its
      duration is the time since it started, whatever happened between. */
  lemma DurationOfCompletedProcess(input: WasteInput, id: string, start: int,
                                   mid: ProcessStatus, end: int, actual: Option<real>)
    requires mid != ProcessCompleted
    ensures var p := StartProcessing(input, id, start);
            GetEfficiencyMetrics(UpdateProcessStatus(p, mid, None, end)).processDuration.None?
    ensures var p := StartProcessing(input, id, start);
            var done := UpdateProcessStatus(UpdateProcessStatus(p, mid, None, start), ProcessCompleted,
                                            actual, end);
            GetEfficiencyMetrics(done).processDuration == Some(end - start)
  {
  }
}
