/** How the services fit together on the way from a SCADA reading to a tradeable credit: the
    reading is validated, its emissions record is calculated and checked against a methodology,
    the record is verified, and a credit is minted from it. */
module CreditPipeline {
  import opened Types
  import ScadaData
  import EmissionsCalculation
  import Verification
  import CarbonCreditLifecycle
  import Helpers

  /** A plausible reading whose methane is worth at least a thousandth of a tonne of CO2-eq gives
      an emissions record that passes every ACM0022 check. */
  lemma PlausibleReadingPassesAcm0022(scada: ScadaMeasurement, waste: Option<EmissionsCalculation.WasteDetails>,
                                      id: string, now: int)
    requires ScadaData.PlausibleQuantities(ScadaData.QuantitiesOf(scada))
    requires scada.methaneDestroyed * 0.018396 >= 0.0005
    ensures EmissionsCalculation.StandardErrors(
              EmissionsCalculation.CalculateGer(scada, None, waste, id, now), ACM0022) == []
  {
    var r := EmissionsCalculation.CalculateGer(scada, None, waste, id, now);
    EmissionsCalculation.GerRecordChecks(scada, None, waste, id, now, ACM0022);
    EmissionsCalculation.StandardErrorsReportFailures(r, ACM0022);
  }

  /** A record calculated from a reading is complete exactly when its methane and its rounded
      CO2-equivalent are both non-zero. */
  lemma GerRecordCompleteness(scada: ScadaMeasurement, standard: Option<IpccStandard>,
                              waste: Option<EmissionsCalculation.WasteDetails>, id: string, now: int)
    ensures Helpers.IsEmissionsDataComplete(
              EmissionsCalculation.CalculateGer(scada, standard, waste, id, now))
            <==> scada.methaneDestroyed != 0.0
                 && EmissionsCalculation.CalculateCo2Equivalent(scada.methaneDestroyed) != 0.0
  {
  }

  /** The record of a reading that is sent for verification, then verified, can be minted, and
      the credit carries the record's CO2-equivalent as its units, whatever the verifier and the
      dates. */
  lemma VerifiedReadingMintsItsCo2(scada: ScadaMeasurement, waste: Option<EmissionsCalculation.WasteDetails>,
                                   recordId: string, standard: VerificationStandard,
                                   verifier: string, verificationId: string, sent: int,
                                   addSixMonths: int -> int, certificate: Option<string>,
                                   verifiedAt: int, ids: CarbonCreditLifecycle.MintIdentifiers,
                                   mintedAt: int)
    ensures var r := EmissionsCalculation.CalculateGer(scada, None, waste, recordId, sent);
            var pending := Verification.InitiateVerification(r, standard, verifier, verificationId,
                                                             sent, addSixMonths);
            var verified := Verification.UpdateVerificationStatus(pending, Verified, certificate,
                                                                  None, verifiedAt);
            var c := CarbonCreditLifecycle.MintCarbonCredit(r, verified, ids, mintedAt);
            && c.Success?
            && c.value.units == EmissionsCalculation.CalculateCo2Equivalent(scada.methaneDestroyed)
            && c.value.emissionsDataId == recordId && c.value.verificationRecordId == verificationId
  {
  }

  /** A record still pending verification cannot be minted. */
  lemma PendingRecordDoesNotMint(r: EmissionsRecord, standard: VerificationStandard,
                                 verifier: string, verificationId: string, sent: int,
                                 addSixMonths: int -> int, ids: CarbonCreditLifecycle.MintIdentifiers,
                                 mintedAt: int)
    ensures var pending := Verification.InitiateVerification(r, standard, verifier, verificationId,
                                                             sent, addSixMonths);
            CarbonCreditLifecycle.MintCarbonCredit(r, pending, ids, mintedAt)
            == Failure(CarbonCreditLifecycle.NotVerified)
  {
  }
}
