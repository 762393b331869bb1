/** Role-based access control: which actions a user may take on which company's data, whom they
    may create, and which fields of a record are hidden from them. The roles here are the
    platform's SYSTEM_ADMIN, COMPANY_ADMIN and OPERATOR; any other role is granted nothing. */
module Permissions {
  import opened Types

  datatype AccessRole = SystemAdmin | CompanyAdmin | Operator | OtherRole(name: string)

  /** What the decisions look at in a user. */
  datatype Principal = Principal(role: AccessRole, companyId: Option<string>)

  const EnergyActions: set<string> := {"view:energy", "view:emissions"}

  /** The actions a company admin may take on their own company's data. */
  const CompanyAdminActions: set<string> := {
    "view:waste_jobs", "create:waste_jobs", "update:waste_jobs", "view:invoices", "view:fees",
    "manage:license_plates", "view:users", "create:operators"}

  /** The actions an operator may take on their own company's data. */
  const OperatorActions: set<string> := {"view:waste_jobs", "create:waste_jobs"}

  /** A company-scoped action is refused when it names an owner other than the user's company;
      an absent or empty owner id names no one. */
  predicate OwnerAllowed(u: Principal, resourceOwnerId: Option<string>) {
    !(TruthyString(resourceOwnerId) && Some(resourceOwnerId.value) != u.companyId)
  }

  /** `hasPermission`. */
  predicate HasPermission(u: Principal, action: string, resourceOwnerId: Option<string>) {
    match u.role
    case SystemAdmin => true
    case CompanyAdmin => action in CompanyAdminActions && OwnerAllowed(u, resourceOwnerId)
    case Operator => action in OperatorActions && OwnerAllowed(u, resourceOwnerId)
    case OtherRole(_) => false
  }

  /** The decision table's promises: the system admin may do anything; nobody else sees energy
      or emissions data, or takes an action the table does not list for their role, or acts on
      another company's resources; a role outside the three is refused everything. */
  lemma PermissionTable(u: Principal, action: string, owner: Option<string>)
    ensures u.role == SystemAdmin ==> HasPermission(u, action, owner)
    ensures u.role != SystemAdmin && action in EnergyActions ==> !HasPermission(u, action, owner)
    ensures u.role == CompanyAdmin ==>
              (HasPermission(u, action, owner) <==>
               action in CompanyAdminActions && (!TruthyString(owner) || owner == u.companyId))
    ensures u.role == Operator ==>
              (HasPermission(u, action, owner) <==>
               (action == "view:waste_jobs" || action == "create:waste_jobs")
               && (!TruthyString(owner) || owner == u.companyId))
    ensures u.role.OtherRole? ==> !HasPermission(u, action, owner)
  {
  }

  /** An operator may do nothing a company admin of the same company may not. */
  lemma OperatorBelowCompanyAdmin(companyId: Option<string>, action: string, owner: Option<string>)
    ensures HasPermission(Principal(Operator, companyId), action, owner) ==>
              HasPermission(Principal(CompanyAdmin, companyId), action, owner)
  {
  }

  /** `canViewEnergyData`. */
  predicate CanViewEnergyData(u: Principal) {
    u.role == SystemAdmin
  }

  /** `canViewAllCompanies`. */
  predicate CanViewAllCompanies(u: Principal) {
    u.role == SystemAdmin
  }

  /** The two shortcut checks agree with the decision table, for any resource owner. */
  lemma ShortcutsAgreeWithTable(u: Principal, owner: Option<string>)
    ensures CanViewEnergyData(u) <==> HasPermission(u, "view:energy", owner)
    ensures CanViewEnergyData(u) <==> HasPermission(u, "view:emissions", owner)
    ensures CanViewAllCompanies(u) <==> HasPermission(u, "view:all_companies", owner)
  {
  }

  /** `canManageLicensePlates`. */
  predicate CanManageLicensePlates(u: Principal, companyId: string) {
    u.role == SystemAdmin || (u.role == CompanyAdmin && u.companyId == Some(companyId))
  }

  /** Managing a company's plates is the table's `manage:license_plates` on that company. */
  lemma LicensePlatesAgreeWithTable(u: Principal, companyId: string)
    requires companyId != ""
    ensures CanManageLicensePlates(u, companyId)
            <==> HasPermission(u, "manage:license_plates", Some(companyId))
  {
  }

  /** At the empty company id the two checks part ways: a company admin without that id passes
      the table, whose owner check ignores an empty owner, but not `canManageLicensePlates`. */
  lemma LicensePlatesDisagreeAtEmptyId(u: Principal)
    requires u.role == CompanyAdmin && u.companyId != Some("")
    ensures HasPermission(u, "manage:license_plates", Some(""))
    ensures !CanManageLicensePlates(u, "")
  {
  }

  /** `canCreateUser`. */
  predicate CanCreateUser(u: Principal, targetRole: AccessRole) {
    u.role == SystemAdmin || (u.role == CompanyAdmin && targetRole == Operator)
  }

  /** A system admin may create any role, a company admin only operators, anyone else nobody. */
  lemma CreateUserRules(u: Principal, targetRole: AccessRole)
    ensures u.role == SystemAdmin ==> CanCreateUser(u, targetRole)
    ensures u.role == CompanyAdmin ==> (CanCreateUser(u, targetRole) <==> targetRole == Operator)
    ensures u.role != SystemAdmin && u.role != CompanyAdmin ==> !CanCreateUser(u, targetRole)
    ensures CanCreateUser(u, Operator) <==> u.role == SystemAdmin || u.role == CompanyAdmin
  {
  }

  /** `getCompanyFilter`: `None` is no filter. */
  function GetCompanyFilter(u: Principal): (f: Option<string>)
    ensures u.role == SystemAdmin ==> f.None?
    ensures u.role != SystemAdmin ==> (f.Some? <==> TruthyString(u.companyId))
    ensures f.Some? ==> f == u.companyId && f.value != ""
  {
    if u.role == SystemAdmin then None
    else if TruthyString(u.companyId) then u.companyId
    else None
  }

  /** `getAccessibleCompanyIds`: `None` is every company. */
  function GetAccessibleCompanyIds(u: Principal): (ids: Option<seq<string>>)
    ensures u.role == SystemAdmin <==> ids.None?
    ensures ids.Some? ==> |ids.value| <= 1
    ensures ids.Some? && TruthyString(u.companyId) ==> ids.value == [u.companyId.value]
  {
    if u.role == SystemAdmin then None
    else if TruthyString(u.companyId) then Some([u.companyId.value])
    else Some([])
  }

  /** `canAccessCompanyData`. */
  predicate CanAccessCompanyData(u: Principal, companyId: string) {
    u.role == SystemAdmin || u.companyId == Some(companyId)
  }

  /** The query filter, the accessible ids and the access check tell the same story: a
      filtered user sees exactly the filter's company; a user without company sees none. */
  lemma CompanyScopesAgree(u: Principal, companyId: string)
    requires companyId != ""
    ensures GetCompanyFilter(u).Some? <==>
              GetAccessibleCompanyIds(u).Some? && |GetAccessibleCompanyIds(u).value| == 1
    ensures GetCompanyFilter(u).Some? ==>
              GetAccessibleCompanyIds(u) == Some([GetCompanyFilter(u).value])
    ensures CanAccessCompanyData(u, companyId) <==>
              GetAccessibleCompanyIds(u).None? || companyId in GetAccessibleCompanyIds(u).value
  {
  }

  /** At the empty company id the access check and the accessible ids part ways: a user whose
      company id is the empty string may access company "", yet has no accessible company. */
  lemma AccessDisagreesAtEmptyId(u: Principal)
    requires u.role != SystemAdmin && u.companyId == Some("")
    ensures CanAccessCompanyData(u, "")
    ensures GetAccessibleCompanyIds(u) == Some([])
  {
  }

  // ---------------------------------------------------------------- redaction

  /** The fields `filterSensitiveData` removes. */
  const SensitiveFields: seq<string> := [
    "energyProduced", "electricityProduced", "processHeatProduced", "methaneGenerated",
    "methaneDestroyed", "co2Equivalent", "grossEmissionsReduction", "defValue",
    "globalWarmingPotential", "scadaMeasurementId", "emissionsDataId"]

  /** `data` without the sensitive fields. */
  function Redacted<V>(data: map<string, V>): map<string, V> {
    map k | k in data && k !in SensitiveFields :: data[k]
  }

  /** Redaction removes exactly the sensitive fields, keeps every other value, and a second
      redaction removes nothing more. */
  lemma RedactedFacts<V>(data: map<string, V>)
    ensures forall k :: k in Redacted(data) <==> k in data && k !in SensitiveFields
    ensures forall k :: k in Redacted(data) ==> Redacted(data)[k] == data[k]
    ensures Redacted(Redacted(data)) == Redacted(data)
    ensures (forall k :: k in data ==> k !in SensitiveFields) ==> Redacted(data) == data
  {
  }

  /** `filterSensitiveData`: a system admin sees the record as it is; everyone else sees it
      without the sensitive fields. */
  method FilterSensitiveData<V>(u: Principal, data: map<string, V>) returns (r: map<string, V>)
    ensures u.role == SystemAdmin ==> r == data
    ensures u.role != SystemAdmin ==> r == Redacted(data)
  {
    if u.role == SystemAdmin {
      return data;
    }
    var filtered := data;
    var i := 0;
    while i < |SensitiveFields|
      invariant 0 <= i <= |SensitiveFields|
      invariant forall k :: k in filtered <==> k in data && k !in SensitiveFields[..i]
      invariant forall k :: k in filtered ==> filtered[k] == data[k]
    {
      var field := SensitiveFields[i];
      if field in filtered {
        filtered := filtered - {field};
      }
      assert SensitiveFields[..i + 1] == SensitiveFields[..i] + [field];
      i := i + 1;
    }
    assert SensitiveFields[..i] == SensitiveFields;
    r := filtered;
  }
}
