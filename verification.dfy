/** Third-party verification of emissions records (Verra, Gold Standard, Toitu/Ekos): creating a
    verification record, moving it between statuses, deciding when it is due again, listing what
    each standard requires, and checking a record for completeness. Instants are milliseconds;
    the clock is the parameter `now`. */
module Verification {
  import opened Types
  import opened Checks
  import JsStrings

  /** `initiateVerification`. Calendar arithmetic ("six months after `now`") is the parameter
      `addSixMonths`; `id` stands in for the generated identifier. */
  function InitiateVerification(emissions: EmissionsRecord, standard: VerificationStandard,
                                verifier: string, id: string, now: int,
                                addSixMonths: int -> int): (r: VerificationRecord)
    ensures r.status == Pending
    ensures r.emissionsDataId == emissions.id && r.standard == standard && r.verifiedBy == verifier
    ensures r.verificationDate == now && r.nextVerificationDue == addSixMonths(now)
    ensures r.id == id && r.certificateUrl.None? && r.notes.None?
  {
    VerificationRecord(
      id := id,
      emissionsDataId := emissions.id,
      standard := standard,
      verifiedBy := verifier,
      verificationDate := now,
      status := Pending,
      certificateUrl := None,
      nextVerificationDue := addSixMonths(now),
      notes := None)
  }

  /** `updateVerificationStatus`: any status may follow any other. The certificate and notes are
      replaced by the arguments, so omitting them clears them. */
  function UpdateVerificationStatus(r: VerificationRecord, status: VerificationStatus,
                                    certificateUrl: Option<string>, notes: Option<string>,
                                    now: int): (u: VerificationRecord)
    ensures u.status == status && u.certificateUrl == certificateUrl && u.notes == notes
    ensures u.verificationDate == now
    ensures u.id == r.id && u.emissionsDataId == r.emissionsDataId && u.standard == r.standard
    ensures u.verifiedBy == r.verifiedBy && u.nextVerificationDue == r.nextVerificationDue
  {
    r.(status := status, certificateUrl := certificateUrl, notes := notes, verificationDate := now)
  }

  /** The outcome of an update depends only on its arguments and the fields it keeps, so a
      repeated update changes nothing. */
  lemma UpdateIdempotent(r: VerificationRecord, status: VerificationStatus,
                         certificateUrl: Option<string>, notes: Option<string>, now: int)
    ensures var once := UpdateVerificationStatus(r, status, certificateUrl, notes, now);
            UpdateVerificationStatus(once, status, certificateUrl, notes, now) == once
  {
  }

  /** `isVerificationDue`. */
  predicate IsVerificationDue(r: VerificationRecord, now: int) {
    now >= r.nextVerificationDue
  }

  /** Once due, a record stays due; a freshly initiated record is not yet due when six months
      after `now` lies after `now`, and falls due exactly when that instant is reached. */
  lemma VerificationDueFacts(r: VerificationRecord, emissions: EmissionsRecord,
                             standard: VerificationStandard, verifier: string, id: string,
                             now: int, later: int, addSixMonths: int -> int)
    ensures IsVerificationDue(r, now) && now <= later ==> IsVerificationDue(r, later)
    ensures addSixMonths(now) > now ==>
              !IsVerificationDue(InitiateVerification(emissions, standard, verifier, id, now,
                                                      addSixMonths), now)
    ensures IsVerificationDue(InitiateVerification(emissions, standard, verifier, id, now,
                                                   addSixMonths), later)
            <==> later >= addSixMonths(now)
  {
  }

  /** A status update never moves the due date. */
  lemma UpdateKeepsDueDate(r: VerificationRecord, status: VerificationStatus,
                           certificateUrl: Option<string>, notes: Option<string>,
                           now: int, t: int)
    ensures IsVerificationDue(UpdateVerificationStatus(r, status, certificateUrl, notes, now), t)
            <==> IsVerificationDue(r, t)
  {
  }

  /** `getVerificationRequirements`. */
  function GetVerificationRequirements(standard: VerificationStandard): seq<string> {
    match standard
    case Verra => [
      "VCS (Verified Carbon Standard) compliance",
      "Project documentation including monitoring plan",
      "Baseline and monitoring methodology",
      "Evidence of emissions reductions",
      "Third-party validation report",
      "Stakeholder consultation documentation"]
    case GoldStandard => [
      "Gold Standard certification requirements",
      "Sustainable Development Goals (SDG) impact assessment",
      "Additionality demonstration",
      "Monitoring and verification plan",
      "Environmental and social safeguards",
      "Local stakeholder engagement evidence"]
    case ToituEkos => [
      "Toitū carbonreduce or carbonzero certification",
      "New Zealand emissions factors compliance",
      "Greenhouse gas inventory",
      "Verification to ISO 14064-3",
      "Evidence of emissions reduction activities",
      "Third-party assurance statement"]
  }

  /** Every standard lists exactly six requirements, none of them twice and none empty. */
  lemma RequirementsFacts(standard: VerificationStandard)
    ensures |GetVerificationRequirements(standard)| == 6
    ensures forall i, j :: 0 <= i < j < 6 ==>
              GetVerificationRequirements(standard)[i] != GetVerificationRequirements(standard)[j]
    ensures forall i :: 0 <= i < 6 ==> GetVerificationRequirements(standard)[i] != ""
  {
    var r := GetVerificationRequirements(standard);
    // within each list the requirements already differ in length
    var lengths := match standard
      case Verra => [41, 47, 35, 32, 29, 38]
      case GoldStandard => [40, 53, 27, 32, 35, 37]
      case ToituEkos => [46, 40, 24, 27, 42, 31];
    assert forall i :: 0 <= i < 6 ==> |r[i]| == lengths[i];
    forall i, j | 0 <= i < j < 6 ensures r[i] != r[j] {
      assert |r[i]| == lengths[i] && |r[j]| == lengths[j];
    }
  }

  // ---------------------------------------------------------------- completeness check

  /** 6 x 30 days, the age after which a verification may need renewal. */
  const SixMonthsMs: int := 6 * 30 * 24 * 60 * 60 * 1000

  datatype RecordError =
    | MissingEmissionsDataId | VerifierRequired | CertificateRequired | VerificationStale
  {
    function Message(): string {
      match this
      case MissingEmissionsDataId => "Missing emissions data ID"
      case VerifierRequired => "Verifier name is required"
      case CertificateRequired => "Certificate URL required for verified status"
      case VerificationStale => "Verification is older than 6 months and may need renewal"
    }
  }

  function RecordRank(e: RecordError): nat {
    match e
    case MissingEmissionsDataId => 0
    case VerifierRequired => 1
    case CertificateRequired => 2
    case VerificationStale => 3
  }

  /** When each check of `validateVerificationRecord` fails at instant `now`. */
  predicate RecordCheckFails(r: VerificationRecord, now: int, e: RecordError) {
    match e
    case MissingEmissionsDataId => r.emissionsDataId == ""
    case VerifierRequired => JsStrings.Trim(r.verifiedBy) == ""
    case CertificateRequired => r.status == Verified && !TruthyString(r.certificateUrl)
    case VerificationStale => now - r.verificationDate > SixMonthsMs && r.status == Verified
  }

  /** The error list `validateVerificationRecord` builds, one check after another. */
  function RecordErrors(r: VerificationRecord, now: int): seq<RecordError> {
    var e0 := Push([], RecordCheckFails(r, now, MissingEmissionsDataId), MissingEmissionsDataId);
    var e1 := Push(e0, RecordCheckFails(r, now, VerifierRequired), VerifierRequired);
    var e2 := Push(e1, RecordCheckFails(r, now, CertificateRequired), CertificateRequired);
    Push(e2, RecordCheckFails(r, now, VerificationStale), VerificationStale)
  }

  /** Every failing check is reported once. */
  lemma RecordErrorsReportFailures(r: VerificationRecord, now: int)
    ensures forall e :: e in RecordErrors(r, now) <==> RecordCheckFails(r, now, e)
  {
    forall e ensures e in RecordErrors(r, now) <==> RecordCheckFails(r, now, e) {
      match e
      case MissingEmissionsDataId =>
      case VerifierRequired =>
      case CertificateRequired =>
      case VerificationStale =>
    }
  }

  lemma RecordErrorsInOrder(r: VerificationRecord, now: int)
    ensures InCheckOrder(RecordErrors(r, now), RecordRank)
  {
    var e0 := Push([], RecordCheckFails(r, now, MissingEmissionsDataId), MissingEmissionsDataId);
    var e1 := Push(e0, RecordCheckFails(r, now, VerifierRequired), VerifierRequired);
    var e2 := Push(e1, RecordCheckFails(r, now, CertificateRequired), CertificateRequired);
    PushInCheckOrder([], RecordCheckFails(r, now, MissingEmissionsDataId), MissingEmissionsDataId,
                     RecordRank);
    PushInCheckOrder(e0, RecordCheckFails(r, now, VerifierRequired), VerifierRequired, RecordRank);
    PushInCheckOrder(e1, RecordCheckFails(r, now, CertificateRequired), CertificateRequired,
                     RecordRank);
    PushInCheckOrder(e2, RecordCheckFails(r, now, VerificationStale), VerificationStale,
                     RecordRank);
  }

  /** `validateVerificationRecord` at instant `now`: one error per failing check, in check order;
      valid exactly when nothing failed. A verifier name made only of whitespace counts as
      missing. */
  method ValidateVerificationRecord(r: VerificationRecord, now: int)
    returns (v: Validation<RecordError>)
    ensures v.errors == RecordErrors(r, now)
    ensures forall e :: e in v.errors <==> RecordCheckFails(r, now, e)
    ensures InCheckOrder(v.errors, RecordRank)
    ensures v.valid <==> v.errors == []
  {
    var errors: seq<RecordError> := [];
    if r.emissionsDataId == "" {
      errors := errors + [MissingEmissionsDataId];
    }
    var trimmed := JsStrings.Trim(r.verifiedBy);
    if r.verifiedBy == "" || trimmed == "" {
      errors := errors + [VerifierRequired];
    }
    if r.status == Verified && !TruthyString(r.certificateUrl) {
      errors := errors + [CertificateRequired];
    }
    var age := now - r.verificationDate;
    if age > SixMonthsMs && r.status == Verified {
      errors := errors + [VerificationStale];
    }
    RecordErrorsReportFailures(r, now);
    RecordErrorsInOrder(r, now);
    v := Validation(|errors| == 0, errors);
  }

  /** A freshly initiated record passes the completeness check when its emissions record has an
      id and the verifier's name is not blank (a pending record needs no certificate). */
  lemma InitiatedRecordIsComplete(emissions: EmissionsRecord, standard: VerificationStandard,
                                  verifier: string, id: string, now: int,
                                  addSixMonths: int -> int, checkedAt: int)
    requires emissions.id != "" && JsStrings.Trim(verifier) != ""
    ensures RecordErrors(InitiateVerification(emissions, standard, verifier, id, now,
                                              addSixMonths), checkedAt) == []
  {
  }

  /** A record marked VERIFIED with a certificate at `now` passes the completeness check for the
      next six 30-day months, provided its emissions id and verifier are filled in; without a
      certificate it never does. */
  lemma VerifiedRecordIsComplete(r: VerificationRecord, certificate: string,
                                 notes: Option<string>, now: int, checkedAt: int)
    requires r.emissionsDataId != "" && JsStrings.Trim(r.verifiedBy) != ""
    ensures certificate != "" && checkedAt - now <= SixMonthsMs ==>
              RecordErrors(UpdateVerificationStatus(r, Verified, Some(certificate), notes, now),
                           checkedAt) == []
    ensures CertificateRequired
            in RecordErrors(UpdateVerificationStatus(r, Verified, None, notes, now), checkedAt)
  {
  }

  // ---------------------------------------------------------------- report

  datatype EmissionsSummary = EmissionsSummary(
    methaneDestroyed: Option<real>,
    co2Equivalent: Option<real>,
    grossEmissionsReduction: Option<real>,
    standardUsed: Option<IpccStandard>)

  datatype VerificationReport = VerificationReport(
    reportId: string,
    verificationId: string,
    emissionsDataId: string,
    standard: VerificationStandard,
    verifiedBy: string,
    verificationDate: int,
    status: VerificationStatus,
    emissionsSummary: EmissionsSummary,
    nextVerification: int,
    certificateUrl: Option<string>,
    notes: Option<string>,
    generatedAt: int)

  /** `generateVerificationReport`: the verification fields come from the record, the emissions
      id and summary from the emissions record passed alongside it. */
  function GenerateVerificationReport(r: VerificationRecord, emissions: EmissionsRecord,
                                      reportId: string, now: int): (rep: VerificationReport)
    ensures rep.verificationId == r.id && rep.emissionsDataId == emissions.id
    ensures rep.standard == r.standard && rep.verifiedBy == r.verifiedBy && rep.status == r.status
    ensures rep.verificationDate == r.verificationDate && rep.nextVerification == r.nextVerificationDue
    ensures rep.certificateUrl == r.certificateUrl && rep.notes == r.notes
    ensures rep.emissionsSummary.co2Equivalent == emissions.co2Equivalent
    ensures rep.emissionsSummary.grossEmissionsReduction == emissions.grossEmissionsReduction
    ensures rep.emissionsSummary.methaneDestroyed == emissions.methaneDestroyed
    ensures rep.emissionsSummary.standardUsed == emissions.standardUsed
    ensures rep.reportId == reportId && rep.generatedAt == now
  {
    VerificationReport(
      reportId := reportId,
      verificationId := r.id,
      emissionsDataId := emissions.id,
      standard := r.standard,
      verifiedBy := r.verifiedBy,
      verificationDate := r.verificationDate,
      status := r.status,
      emissionsSummary := EmissionsSummary(emissions.methaneDestroyed, emissions.co2Equivalent,
                                           emissions.grossEmissionsReduction, emissions.standardUsed),
      nextVerification := r.nextVerificationDue,
      certificateUrl := r.certificateUrl,
      notes := r.notes,
      generatedAt := now)
  }

  /** The report names the record's own emissions data exactly when it is given the emissions
      record the verification was initiated for; the report does not check this itself. */
  lemma ReportLinksInitiatedRecord(emissions: EmissionsRecord, other: EmissionsRecord,
                                   standard: VerificationStandard, verifier: string, id: string,
                                   now: int, addSixMonths: int -> int, reportId: string, at: int)
    ensures var r := InitiateVerification(emissions, standard, verifier, id, now, addSixMonths);
            GenerateVerificationReport(r, other, reportId, at).emissionsDataId == r.emissionsDataId
            <==> other.id == emissions.id
  {
  }
}
