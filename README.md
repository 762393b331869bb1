# brrp.io carbon-credit core, modelled in Dafny

brrp.io is a platform for a biogas plant, the Bio-Resource Recovery Plant (BRRP), and its waste
intake. Two flows run through it.

- Intake. Trucks deliver waste streams that are weighed and priced.
- Credits. SCADA readings of methane destroyed become gross-emissions-reduction (GER) records.
  The platform checks those records against an IPCC methodology and has them verified by a third
  party. It then mints them as carbon credits, which can be listed, sold and offset.
- Around both flows sit role-based access control, an in-memory authentication store, reference
  data from New Zealand's Ministry for the Environment (MFE), and small helpers.

This project models the platform's domain services and proves what they promise. One module
stands for each service file:

| module | file |
|---|---|
| `Types` | the record and enum declarations |
| `EmissionsCalculation` | emission reductions, CO2-equivalent, DEF, GER records, the standard validator |
| `ScadaData` | measurement validation |
| `Verification` | verification records, their validator and the report |
| `CarbonCreditLifecycle` | mint, list, sell, offset, registry sync |
| `WasteJobs` | waste streams, prices, jobs |
| `WasteProcessing` | anaerobic-digestion processes |
| `Permissions` | the company-role permission table and redaction |
| `Auth` | the authentication store, a class with the users, companies and session as fields |
| `Helpers` | the pure utilities and CSV import/export |
| `ExternalData` | MFE factors, the WWTP table, the national-budget check |
| `CreditPipeline` | lemmas across the services, from a reading to a minted credit |

Four support modules are shared by the others:

- `Decimal` rounds as `Number(x.toFixed(p))` does: to the nearest multiple of 10^-p, ties away
  from zero, on exact reals.
- `JsStrings` models JavaScript's whitespace, `trim`, `split`/`join`, `slice` and ASCII
  `toLowerCase`.
- `Checks` gives the three validators one notion: "errors listed once, in check order".
- `Types` holds `Option`, `Result` and JavaScript truthiness. An optional number is truthy when
  present and non-zero. An optional string is truthy when present and non-empty.

Conventions that hold throughout:

- Instants are milliseconds since the epoch. Each operation that reads the clock takes `now` as a
  parameter.
- Generated identifiers, hashes and tokens are parameters.
- Calendar arithmetic is a caller-supplied function or instant: "six months later" is an
  `int -> int`, and "one year ago" is an `int`.

The validators that push onto an `errors` array are methods that update the list check by
check. Each is proved against a function that lists the failing checks:

- `ScadaData.ValidateMeasurement`
- `EmissionsCalculation.ValidateAgainstStandard`
- `Verification.ValidateVerificationRecord`

The delete loop of `filterSensitiveData` and the row loop of `exportToCSV` are methods with loop
invariants. The authentication service is a class whose methods reassign its fields.

Where the code's own comments and its behaviour part ways, the model follows the behaviour:

- `offsetAndDestroy` is documented as destroying the credit to prevent reuse, but it returns a
  transaction and leaves the credit as it was. `sellCarbonCredit` likewise leaves the status
  alone. No operation ever sets SOLD, OFFSET or DESTROYED.
- `updateVerificationStatus` accepts any status after any other.

## Model

| member | source | states |
|---|---|---|
| EmissionsCalculation.EmissionFactorFacts | src/services/emissionsCalculation.ts:31-40 | Every MFE factor lies strictly between 0 and 1; food waste has the largest; grape marc uses the garden-waste factor. |
| EmissionsCalculation.CalculateEmissionsReduction | src/services/emissionsCalculation.ts:56-67 | The reduction is Q x F rounded to three decimals, ties away from zero. |
| EmissionsCalculation.EmissionsReductionMonotone | src/services/emissionsCalculation.ts:56-67 | More waste never gives a smaller reduction; a non-negative quantity gives a non-negative reduction. |
| EmissionsCalculation.CalculateCo2Equivalent | src/services/emissionsCalculation.ts:74-85 | The result is the methane's mass in tonnes (density 0.657 kg/m3) times GWP 28, rounded to three decimals, or equally m x 0.018396 rounded. |
| EmissionsCalculation.Co2EquivalentFacts | src/services/emissionsCalculation.ts:74-85 | CO2-eq is 0 at 0; it is non-negative for non-negative m; it is positive exactly when m x 0.018396 reaches 0.0005; it is monotone in m. |
| EmissionsCalculation.Co2EquivalentExample | src/services/emissionsCalculation.ts:74-85 | 2485 m3 of methane gives 45.714 t CO2-eq. |
| EmissionsCalculation.CalculateDef | src/services/emissionsCalculation.ts:95-109 | DEF is exactly 0 when energy is 0, otherwise the methane mass x GWP / energy rounded to six decimals. |
| EmissionsCalculation.EnergyUsed | src/services/emissionsCalculation.ts:126-127 | Energy is electricity if truthy, else heat / 3.6 if truthy, else 0. |
| EmissionsCalculation.EnergyUsedFacts | src/services/emissionsCalculation.ts:126-127 | Energy is non-zero exactly when one of the two readings is truthy; non-negative readings give non-negative energy. |
| EmissionsCalculation.CalculateGer | src/services/emissionsCalculation.ts:119-168 | GER equals the CO2-equivalent; GWP is 28; methane is copied from the reading; energy and DEF come from the reading; without waste data the volume is 0 and the type "UNKNOWN"; the standard defaults to ACM0022. |
| EmissionsCalculation.CalculateBrrpDailyReduction | src/services/emissionsCalculation.ts:176-211 | Each stream's reduction is its quantity (default 3 t sludge, 7 t green waste) times its factor, rounded; the grape-marc term is 0 unless its quantity is positive; the total is the sum of the three; electricity is 1200 kWh. |
| EmissionsCalculation.DefaultDailyReduction | src/services/emissionsCalculation.ts:176-211 | With the BRRP Nelson defaults (3 t sludge, 7 t green waste, no grape marc) a day saves 0.36 + 1.26 = 1.62 t CO2-eq, with 1200 kWh of electricity. |
| EmissionsCalculation.StandardErrorsReportFailures | src/services/emissionsCalculation.ts:219-276 | An error is listed exactly when its check fails: GWP outside [28, 36], CO2-eq 0 or less, GER more than 0.001 from CO2-eq, and each standard's own minimum. |
| EmissionsCalculation.StandardErrorsInOrder | src/services/emissionsCalculation.ts:219-276 | The errors come in the order of the checks, none twice. |
| EmissionsCalculation.ValidateAgainstStandard | src/services/emissionsCalculation.ts:219-276 | The method's error list is the one the checks give, each failure listed once in check order; the record is valid exactly when the list is empty. |
| EmissionsCalculation.GerRecordChecks | src/services/emissionsCalculation.ts:137-243 | A record from calculateGER never fails the GWP-range or the GER-mismatch check. |
| EmissionsCalculation.EstimateMethaneGeneration | src/services/emissionsCalculation.ts:284-295 | Sewerage sludge yields 20 m3 and landfill organics 100 m3 of methane per tonne, so for a non-negative quantity the estimate lies between 20 and 100 times it. |
| ScadaData.MeasurementErrorsReportFailures | src/services/scadaData.ts:237-274 | An error is listed exactly when its check fails: waste processed 0 or less; negative methane generated or destroyed; more destroyed than generated; a negative electricity or heat reading when present. |
| ScadaData.MeasurementErrorsInOrder | src/services/scadaData.ts:244-268 | The errors come in check order, none twice. |
| ScadaData.ValidateMeasurement | src/services/scadaData.ts:237-274 | The method's error list is the checks' list in order; the result is valid exactly when nothing was pushed. |
| ScadaData.ValidIffPlausible | src/services/scadaData.ts:246-260 | A reading passes exactly when some waste was processed, 0 <= methane destroyed <= methane generated, and the optional readings are non-negative. |
| Verification.InitiateVerification | src/services/verification.ts:16-36 | The new record is PENDING, linked to the emissions record and the verifier, dated now and due six months later, with no certificate or notes. |
| Verification.UpdateVerificationStatus | src/services/verification.ts:46-59 | Any status may follow any other; status, certificate, notes (cleared when omitted) and date are replaced; id, emissions link, standard, verifier and due date are kept. |
| Verification.UpdateIdempotent | src/services/verification.ts:46-59 | Repeating the same update changes nothing further. |
| Verification.VerificationDueFacts | src/services/verification.ts:66-69 | A record due at one instant is due at every later one; a fresh record is not due before six months have passed. |
| Verification.UpdateKeepsDueDate | src/services/verification.ts:46-69 | A status update never changes whether a record is due. |
| Verification.RequirementsFacts | src/services/verification.ts:76-105 | Each standard lists six distinct, non-empty requirements. |
| Verification.RecordErrorsReportFailures | src/services/verification.ts:112-140 | An error is listed exactly when its check fails: no emissions link; a verifier blank after trimming; VERIFIED without a certificate; VERIFIED and older than 6 x 30 days. |
| Verification.RecordErrorsInOrder | src/services/verification.ts:112-140 | The errors come in check order. |
| Verification.ValidateVerificationRecord | src/services/verification.ts:112-140 | The method's error list is the checks' list in order; valid exactly when it is empty. |
| Verification.InitiatedRecordIsComplete | src/services/verification.ts:16-127 | A fresh record with an emissions id and a non-blank verifier passes every check. |
| Verification.VerifiedRecordIsComplete | src/services/verification.ts:46-140 | A record marked VERIFIED with a certificate passes for six 30-day months; without a certificate it always fails. |
| Verification.GenerateVerificationReport | src/services/verification.ts:148-171 | The report copies the verification fields from the record and the emissions summary from the emissions record. |
| Verification.ReportLinksInitiatedRecord | src/services/verification.ts:148-171 | A report on an initiated record names that record's own emissions data. |
| CarbonCreditLifecycle.MintCarbonCredit | src/services/carbonCredit.ts:23-59 | Minting fails exactly when the verification is not VERIFIED or belongs to other emissions; a minted credit is MINTED, its budget is not yet validated, its units are the GER or 0, and both ids are linked. |
| CarbonCreditLifecycle.MintedUnits | src/services/carbonCredit.ts:45-56 | A verified match always mints, and the units are the GER or 0. |
| CarbonCreditLifecycle.MakeAvailable | src/services/carbonCredit.ts:68-87 | Listing fails unless the credit is MINTED with its budget validated; on success only status (to AVAILABLE), market value and currency (default USD) change. |
| CarbonCreditLifecycle.TransactionCurrency | src/services/carbonCredit.ts:96-162 | A transaction's currency is the credit's own when it is non-empty, and USD when it is absent or empty. |
| CarbonCreditLifecycle.TransactionsDefaultToUsd | src/services/carbonCredit.ts:68-162 | A sale or offset of a credit without a currency is recorded in USD; a credit listed with no currency sells in USD, one listed in a non-empty currency sells in it. |
| CarbonCreditLifecycle.SellCarbonCredit | src/services/carbonCredit.ts:96-117 | A sale fails exactly when the credit is not AVAILABLE; otherwise it returns a SALE transaction for that credit, buyer and amount. |
| CarbonCreditLifecycle.OffsetAndDestroy | src/services/carbonCredit.ts:126-162 | An offset fails exactly on a DESTROYED credit; otherwise it returns a DESTROY transaction of amount 0. |
| CarbonCreditLifecycle.ValidateAgainstNationalBudget | src/services/carbonCredit.ts:170-181 | The placeholder check accepts every credit, with the fixed NDC message. |
| CarbonCreditLifecycle.SyncToGlobalRegistry | src/services/carbonCredit.ts:188-198 | The registry URL is the fixed OpenEarth prefix followed by the registry id. |
| CarbonCreditLifecycle.RegistryIdOf | src/services/carbonCredit.ts:192 | A URL names a registry id exactly when it starts with the prefix. |
| CarbonCreditLifecycle.RegistryUrlRoundTrip | src/services/carbonCredit.ts:192 | The URL gives back the registry id, so distinct ids get distinct URLs. |
| CarbonCreditLifecycle.ApplyOpStatus | src/services/carbonCredit.ts:68-162 | No single operation moves a credit out of MINTED/AVAILABLE; only listing changes a status, from MINTED to AVAILABLE; id, units and registry id never change. |
| CarbonCreditLifecycle.RunStaysCirculating | src/services/carbonCredit.ts:55-162 | No sequence of operations sets SOLD, OFFSET or DESTROYED. |
| CarbonCreditLifecycle.MintedCreditsCirculate | src/services/carbonCredit.ts:23-162 | Every minted credit reaches only MINTED and AVAILABLE, whatever follows. |
| CarbonCreditLifecycle.ServiceOpsLeaveMintedCredit | src/services/carbonCredit.ts:73-86 | Without the budget flag being set, no service operation changes a new credit at all. |
| CarbonCreditLifecycle.DestroyedIsFinal | src/types/index.ts:429 | A DESTROYED credit cannot be listed, sold or offset, and stays DESTROYED. |
| CarbonCreditLifecycle.OffsetDoesNotRetire | src/services/carbonCredit.ts:126-162 | An offset leaves the credit as it was, so the same credit can be offset again. |
| WasteJobs.GetWasteStreamProperties | src/services/wasteJobs.ts:22-81 | Every stream has an entry, and each entry's type is its key. |
| WasteJobs.StreamPrices | src/services/wasteJobs.ts:22-81 | Every stream costs 210 per Tonne except fish waste at 260. |
| WasteJobs.StreamNamesDistinct | src/services/wasteJobs.ts:86-98 | Every stream has a non-empty name, and no two streams share one. |
| WasteJobs.PriceFacts | src/services/wasteJobs.ts:131-134 | The price is weight x the stream's price; it is non-negative, monotone and additive in the weight. |
| WasteJobs.CreateWasteJob | src/services/wasteJobs.ts:103-126 | A new job is WEIGHED, priced by calculatePrice, and copies the customer, stream, truck, weight and notes. |
| WasteJobs.UpdateJobStatus | src/services/wasteJobs.ts:139-144 | Only the status changes. |
| WasteJobs.UpdateKeepsPrice | src/services/wasteJobs.ts:103-144 | A status update keeps the price a job was created with. |
| WasteJobs.AvailableCustomersFacts | src/services/wasteJobs.ts:149-166 | Two customers with distinct ids, one of each customer type. |
| WasteProcessing.CalculateMethaneYield | src/services/wasteProcessing.ts:73-83 | The yield is quantity x 20 for sewerage sludge and x 100 for landfill organics, and undefined otherwise. |
| WasteProcessing.YieldAgreesWithEmissionsEstimate | src/services/wasteProcessing.ts:73-83 | The yield agrees with the emissions service's methane estimate. |
| WasteProcessing.EnergyOfYield | src/services/wasteProcessing.ts:21-22 | Energy exists exactly when a yield does, and is then the estimate for that yield. |
| WasteProcessing.EstimateEnergyOutput | src/services/wasteProcessing.ts:90-97 | Energy output is 10 kWh/m3 at 35 % efficiency, i.e. 3.5 x volume. |
| WasteProcessing.EnergyOutputFacts | src/services/wasteProcessing.ts:90-97 | The output is monotone, non-negative for a non-negative volume, and gives back the volume. |
| WasteProcessing.StartProcessing | src/services/wasteProcessing.ts:14-35 | A QUEUED anaerobic-digestion process is created for every input, linked to it and started now. Its yield comes from the yield table; it is absent (NaN in the code) exactly for types without a factor. Its energy follows the yield. |
| WasteProcessing.UpdateProcessStatus | src/services/wasteProcessing.ts:44-65 | A non-COMPLETED update changes only the status; COMPLETED sets the end time, and, given an actual yield, replaces yield and recomputed energy. |
| WasteProcessing.CompletionRepairsMissingYield | src/services/wasteProcessing.ts:14-65 | A process started without a yield has no energy; completing it with an actual yield sets that yield and 3.5 times it as energy. |
| WasteProcessing.UpdateKeepsEnergyConsistent | src/services/wasteProcessing.ts:44-65 | Energy stays 3.5 x the yield across updates. |
| WasteProcessing.GetEfficiencyMetrics | src/services/wasteProcessing.ts:104-118 | The duration is end minus start when the process has ended, otherwise absent; both per-tonne figures are 0. |
| WasteProcessing.DurationOfCompletedProcess | src/services/wasteProcessing.ts:14-118 | A started process has no duration until it is completed, and then the time since its start. |
| Permissions.PermissionTable | src/services/permissions.ts:17-90 | System admins may do anything. No one else sees energy or emissions. Company admins and operators take only their listed actions, on their own company or an unnamed owner. Any other role is refused. |
| Permissions.OperatorBelowCompanyAdmin | src/services/permissions.ts:31-85 | An operator may do nothing a company admin of the same company may not. |
| Permissions.ShortcutsAgreeWithTable | src/services/permissions.ts:96-106 | canViewEnergyData and canViewAllCompanies agree with the table. |
| Permissions.LicensePlatesAgreeWithTable | src/services/permissions.ts:111-121 | For a non-empty company id, managing a company's plates is the table's manage:license_plates on that company. |
| Permissions.LicensePlatesDisagreeAtEmptyId | src/services/permissions.ts:111-121 | At the empty company id, a company admin whose company id is absent or non-empty passes the table but not canManageLicensePlates. |
| Permissions.CreateUserRules | src/services/permissions.ts:126-137 | A system admin may create any role, a company admin only operators, anyone else no one. |
| Permissions.GetCompanyFilter | src/services/permissions.ts:144-150 | No filter for a system admin; otherwise the user's company when set. |
| Permissions.GetAccessibleCompanyIds | src/services/permissions.ts:205-215 | Null for a system admin, otherwise the user's company or nothing. |
| Permissions.CompanyScopesAgree | src/services/permissions.ts:144-215 | For a non-empty company id, the filter, the accessible ids and canAccessCompanyData agree. |
| Permissions.AccessDisagreesAtEmptyId | src/services/permissions.ts:194-215 | A user whose company id is the empty string passes canAccessCompanyData for it, yet has no accessible company. |
| Permissions.RedactedFacts | src/services/permissions.ts:156-189 | Redaction removes exactly the sensitive keys, keeps every other value, and is idempotent. |
| Permissions.FilterSensitiveData | src/services/permissions.ts:156-189 | The delete loop leaves a system admin's data as it is and gives everyone else the redacted data. |
| Auth.RoleHierarchy | src/services/auth.ts:138-146 | The role order admin > customer > driver is reflexive, transitive, antisymmetric and total. |
| Auth.FindFirst | src/services/auth.ts:87-99 | `find` gives the first element that matches, or nothing when none does. |
| Auth.LiveSession | src/services/auth.ts:124-130 | The session is kept only while it has not expired. |
| Auth.LoginSession | src/services/auth.ts:87-112 | There is a session exactly when an active user has that name. It carries the first such user, and an expiry eight hours on. It carries a company exactly when the user's company id is non-empty and names a stored company, and then the first such company. |
| Auth.SessionLifetime | src/services/auth.ts:87-130 | A session from login is live for exactly eight hours. |
| Auth.CreateUserRules | src/services/auth.ts:184-218 | Creation needs a session; customers create only drivers of their own company; drivers create no one; a duplicate username or email is refused. |
| Auth.AppendKeepsCredentialsUnique | src/services/auth.ts:211-234 | Appending a user with a fresh username and email keeps usernames and emails unique. |
| Auth.CompanyRuleNotEnforced | src/types/index.ts:155 | An admin may create a customer without a company, though such users are documented as always having one. |
| Auth.UsersOfCompany | src/services/auth.ts:260-266 | The users of a company are exactly the store's users with that company id. |
| Auth.UsersOfCompanyAppend | src/services/auth.ts:260-266 | The filter keeps store order: the users of a concatenation are those of each part in turn. |
| Auth.UsersOfCompanySingle | src/services/auth.ts:260-266 | A single user is kept exactly when its company matches. |
| Auth.VisibleUsers | src/services/auth.ts:254-267 | An admin sees every user, a customer their company's users, a driver none. |
| Auth.StatusUpdateTarget | src/services/auth.ts:279-303 | The user whose status changes is the first one with that id. |
| Auth.StatusUpdateRules | src/services/auth.ts:279-303 | An unknown id gives false; drivers and customers of another company are refused; an admin may update anyone. |
| Auth.StatusUpdateKeepsCredentials | src/services/auth.ts:297-299 | Changing one user's status keeps usernames and emails unique. |
| Auth.SeedFacts | src/services/auth.ts:17-82 | The seed users have unique credentials and follow the company rule. |
| Auth.AuthStore.constructor | src/services/auth.ts:10-82 | The store starts with the seed data and no session. |
| Auth.AuthStore.Initialize | src/services/auth.ts:17-82 | The store holds the seed users and companies. |
| Auth.AuthStore.Login | src/services/auth.ts:87-112 | The session is the one login gives, and it becomes the current session; the users and companies are untouched. |
| Auth.AuthStore.Logout | src/services/auth.ts:117-119 | The session is cleared. |
| Auth.AuthStore.GetCurrentSession | src/services/auth.ts:124-130 | An expired session is cleared; a live one is returned. |
| Auth.AuthStore.CreateCompany | src/services/auth.ts:151-177 | Only an admin creates a company, which is appended. |
| Auth.AuthStore.CreateUser | src/services/auth.ts:184-235 | The method fails with the rules' error, or appends exactly one active user and leaves the others; usernames and emails stay unique. |
| Auth.AuthStore.GetAllCompanies | src/services/auth.ts:240-246 | Only an admin gets the companies. |
| Auth.AuthStore.GetUsers | src/services/auth.ts:254-267 | The users the session's user may see; no session is an error. |
| Auth.AuthStore.GetCompanyById | src/services/auth.ts:272-274 | The first stored company with that id, or nothing when none has it. |
| Auth.AuthStore.UpdateUserStatus | src/services/auth.ts:279-303 | Only the target's active flag and update time change, and only when the rules allow; credentials stay unique. |
| Helpers.CalculatePercentage | src/utils/helpers.ts:45-48 | 0 when the total is 0, otherwise value / total x 100. |
| Helpers.PercentageFacts | src/utils/helpers.ts:45-48 | The total is 100 % of itself, and a part of a positive total lies in [0, 100]. |
| Helpers.GeoLocationFacts | src/utils/helpers.ts:60-62 | The valid range is symmetric and closed, and latitudes beyond 90 degrees are refused. |
| Helpers.TruncateAddressShape | src/utils/helpers.ts:93-96 | An address of at most 2 x chars is kept; a longer one becomes its first and last chars around "..."; with chars 0 the whole address follows "...". |
| Helpers.BlockchainAddressFacts | src/utils/helpers.ts:101-103 | An address is valid exactly when it is "0x" and 40 hex digits; a valid address truncates to 15 characters. |
| Helpers.DaysBetween | src/utils/helpers.ts:108-111 | The day count is the distance in days, rounded to the nearest whole day, halves up. |
| Helpers.DaysBetweenFacts | src/utils/helpers.ts:108-111 | The day count is symmetric, 0 for the same instant, and k for k whole days. |
| Helpers.DueSoonFacts | src/utils/helpers.ts:123-127 | A verification is due soon exactly when it falls due after now and less than the threshold plus half a day ahead; such a record is not yet due. |
| Helpers.ConversionsInverse | src/utils/helpers.ts:132-155 | The conversions kg/tonnes and MJ/kWh are mutual inverses and monotone. |
| Helpers.CreditValueFacts | src/utils/helpers.ts:172-177 | At the default 30 per tonne the value is linear and monotone in the tonnes. |
| Helpers.GetStatusColor | src/utils/helpers.ts:189-204 | A listed status gets its colour, any other the default grey. |
| Helpers.StatusColorFacts | src/utils/helpers.ts:189-204 | Every colour is a seven-character hex code, and MINTED and DESTROYED differ. |
| Helpers.ParseCsv | src/utils/helpers.ts:209-212 | One row per newline-separated line. |
| Helpers.ParsedCellsTrimmed | src/utils/helpers.ts:209-212 | Every cell is trimmed. |
| Helpers.ExportToCsv | src/utils/helpers.ts:217-224 | The loop yields the header line and one line per item, falsy values written as empty cells, joined by newlines. |
| Helpers.CsvLinesParse | src/utils/helpers.ts:209-224 | When there is at least one header and no header or value holds a comma, a newline or surrounding whitespace, each exported line is newline-free and parses back to its cells. |
| Helpers.CsvRoundTrip | src/utils/helpers.ts:209-224 | When there is at least one header and no header or value holds a comma, a newline or surrounding whitespace, parsing an export gives back the header row and every item's row. |
| JsStrings.TrimShape | src/services/verification.ts:120 | trim removes exactly the leading and trailing whitespace. |
| JsStrings.TrimEmptyIff | src/services/verification.ts:120 | A string is blank after trimming exactly when it is all whitespace. |
| JsStrings.SplitJoin | src/utils/helpers.ts:210-211 | Splitting a join of separator-free parts gives back the parts. |
| ExternalData.FetchMfeData | src/services/externalData.ts:14-43 | Among the table's own keys, there is an entry for exactly the three known categories, with its own category, a positive factor and the table's date. |
| ExternalData.MfeFactors | src/services/externalData.ts:18-42 | The factors are 0.45, 28 and 0.35, under distinct ids. |
| ExternalData.WwtpKey | src/services/externalData.ts:83-84 | The lookup key holds no whitespace. |
| ExternalData.FetchWwtpData | src/services/externalData.ts:50-85 | A plant is found exactly when the normalised name is one of the two keys. |
| ExternalData.KeyFormIsOwnKey | src/services/externalData.ts:83-84 | A name already lower-case and without whitespace is its own key. |
| ExternalData.TwoWordKey | src/services/externalData.ts:83-84 | Two words separated by any whitespace run make the lower-cased words joined by one '-'. |
| ExternalData.SpacedNameFindsPlant | src/services/externalData.ts:50-85 | "Auckland   WWTP" finds the Auckland plant. |
| ExternalData.ValidateAgainstMfe | src/services/externalData.ts:93-117 | An unknown category is invalid with variance 0; otherwise the variance is (actual - factor) / factor x 100, valid exactly when it lies within 15 either side. |
| ExternalData.MfeToleranceBand | src/services/externalData.ts:107-108 | Valid exactly when the actual value lies within 85 % to 115 % of the factor. |
| ExternalData.GetWwtpCompliance | src/services/externalData.ts:124-149 | An unknown plant is non-compliant with no standards and no inspection; a known one is compliant exactly when inspected since the cut-off and listing a standard. |
| ExternalData.ComplianceFacts | src/services/externalData.ts:131-142 | A plant's compliance is its inspection date against the cut-off, stays at any earlier cut-off, and needs a cut-off no later than 2024-01-15. |
| ExternalData.ValidateNationalCarbonBudget | src/services/externalData.ts:187-203 | Every amount is accepted, with the country's NDC message and the NDC link. |
| CreditPipeline.PlausibleReadingPassesAcm0022 | src/services/emissionsCalculation.ts:119-276 | A reading that passes validation and is worth at least half a thousandth of a tonne gives a GER record that passes every ACM0022 check. |
| CreditPipeline.GerRecordCompleteness | src/utils/helpers.ts:160-167 | A GER record is complete exactly when its methane and its CO2-equivalent are non-zero. |
| CreditPipeline.VerifiedReadingMintsItsCo2 | src/services/carbonCredit.ts:23-59 | A reading's record, initiated and then verified, mints a credit whose units are its CO2-equivalent, linked to both records. |
| CreditPipeline.PendingRecordDoesNotMint | src/services/carbonCredit.ts:28-30 | A record still pending verification cannot be minted. |

## Left out

- The weighbridge net-weight rule from the type comment is not modelled: it is computed only in the weighbridge HTTP handler, and that handler is not part of this model.
- SCADA immutability is not modelled: the flag is set on ingest, outside this model, and no modelled operation alters a measurement.
- The async database functions of the SCADA service are left out: they are SQL over a pool. So are the HTTP handlers, the UI pages and the persistence services.
- The API handler's own CO2 formula is left out: it uses density 0.717 plus an emission factor, and that handler is not part of this model.
- Identifier, token, hash and job-number generation (`Math.random`, `Date.now`) are left out; their values are parameters.
- `syncToOpenEarth` is left out: its only behaviour is random identifiers. `getTransactionHistory` is left out: it is a placeholder that returns an empty list.
- Formatters are left out as locale and text rendering. This covers formatDate, formatDateTime, formatNumber, formatCurrency, formatCO2eq and the formatter utility file.
- `calculateDistance` (floating-point trigonometry) and `downloadFile` (the browser DOM) are left out.
- `isPastDate` is left out: it only compares a date with the clock.
- `getBRRPConfig` is left out: it returns a copy of the configuration constants, which are modelled as constants.
- `getMFEEmissionFactor` is modelled as the `EmissionFactor` function with `EmissionFactorFacts`; the object-key lookup is not modelled.
- Decimal: rounding is exact on reals. IEEE-754 doubles and the binary representation behind `toFixed` are not modelled, so the results agree with the code only where doubles are exact.
- NaN and `undefined` in arithmetic are not modelled: numeric inputs are reals. Absent readings are `Option`, and so is a process's yield and energy where the code stores NaN.
- Calendar arithmetic (`setMonth`, `setFullYear`) is a parameter: a function for "six months later" and an instant for "one year ago".
- Promise and async semantics are left out: every operation is a sequential computation.
- JsStrings.ToLowerAscii: lower-cases ASCII letters only; the Unicode case mapping of `toLowerCase` is not modelled.
- Strings are sequences of characters, not UTF-16 code units.
- Helpers.GetStatusColor: keys inherited from JavaScript's object prototype (such as "toString") are not modelled; the model gives the default colour for them.
- ExternalData.FetchMfeData: `mockData[category] || null` also finds keys inherited from the object prototype, such as "toString", "constructor" or "__proto__", and returns a truthy value that is no MFE entry. The model finds only the three own keys and returns nothing for those names.
- ExternalData.ValidateAgainstMfe: for a category that is an inherited prototype key, the code computes a NaN variance, so the result is invalid with the message "Emissions outside acceptable range (NaN% variance)". The model reports no MFE data with variance 0 instead.
- ExternalData.FetchWwtpData: a name whose key is an inherited prototype key ("constructor" or "__proto__") finds an inherited value in the code. The model finds no plant, so ExternalData.GetWwtpCompliance reports it non-compliant.
- Helpers.ExportToCsv: items are maps from header to string, so numbers, `0`, `false` and `null` cells are not distinguished from strings.
- CarbonCreditLifecycle.OffsetAndDestroy: returns only the DESTROY transaction, as the code does. The OFFSET transaction it builds and discards is not part of the result.
- ExternalData.ValidateAgainstMfe: the message keeps the variance as a number; its two-decimal text rendering is not modelled.
- Auth.AuthStore.GetUsers: returns a value. The admin's view in the code is the live array, which a caller could then mutate; that aliasing is not modelled.
- Auth.AuthStore.UpdateUserStatus: in the code the session holds the user object itself, so updating the logged-in user also changes the session's user. The model keeps the session's copy as it was.
- Auth.AuthStore.GetAllCompanies: returns a value. The code returns the live companies array, and that aliasing is not modelled.
- Auth.AuthStore.Login: the password is accepted but not checked, as in the code; the seed passwords are not part of the model.
- Default parameters (`daysThreshold = 30`, `chars = 6`, `pricePerTonne = 30`, currency `USD`, country `NZ`, and `gwp = CH4_GWP` of `calculateDEF`) are explicit parameters; `CalculateGer` passes `Ch4Gwp` to `CalculateDef`. The `calculateBRRPDailyReduction` defaults (3 t sludge, 7 t green waste, 0 t grape marc) are `Option` parameters that fall back to those values.
