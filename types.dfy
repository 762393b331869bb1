/** Entities of the emissions-to-carbon-credit pipeline and the waste intake around it.
    Instants are integer milliseconds since the epoch; optional fields are `Option`. */
module Types {

  datatype Option<+T> = None | Some(value: T) {
    function GetOr(default: T): T {
      match this
      case Some(v) => v
      case None => default
    }
  }

  datatype Result<+T, +E> = Success(value: T) | Failure(error: E)

  /** JavaScript truthiness of an optional number: present and non-zero (NaN is not modelled). */
  predicate TruthyNumber(x: Option<real>) {
    x.Some? && x.value != 0.0
  }

  /** JavaScript truthiness of an optional string: present and non-empty. */
  predicate TruthyString(s: Option<string>) {
    s.Some? && s.value != ""
  }

  // ---------------------------------------------------------------- waste intake

  datatype WasteSourceType = SewerageSludge | LandfillOrganic | FoodWaste | GardenWaste | GrapeMarc

  /** The eight waste streams the waste-job service prices (the declared enum lacks HopsResidue). */
  datatype WasteStreamType =
    | CowShedWaste | FoodWasteStream | GreenWaste | SpentGrain
    | ApplePomace | GrapeMarcStream | HopsResidue | FishWaste

  datatype EnergyValue = LowEnergy | MediumEnergy | HighEnergy
  datatype NutrientValue = LowNutrient | MediumNutrient | HighNutrient

  datatype WasteStreamProperties = WasteStreamProperties(
    streamType: WasteStreamType,
    unitOfMeasure: string,
    standardPrice: real,
    energyValue: EnergyValue,
    nutrientValue: NutrientValue)

  datatype CustomerType = WasteManagementNz | EnviroNz

  datatype Customer = Customer(
    id: string,
    name: string,
    customerType: CustomerType,
    contactEmail: Option<string>,
    contactPhone: Option<string>)

  datatype WasteJobStatus =
    | PendingApproval | JobApproved | JobRejected
    | Weighed | Processing | Completed | Invoiced

  datatype WasteJob = WasteJob(
    id: string,
    jobNumber: string,
    customer: Customer,
    wasteStream: WasteStreamType,
    truckRegistration: string,
    weighbridgeWeight: real,
    timestamp: int,
    status: WasteJobStatus,
    totalPrice: Option<real>,
    notes: Option<string>,
    companyId: Option<string>,
    companyName: Option<string>)

  datatype GeoLocation = GeoLocation(latitude: real, longitude: real, address: Option<string>)

  datatype WasteSource = WasteSource(
    id: string,
    sourceType: WasteSourceType,
    source: string,
    location: GeoLocation,
    timestamp: int)

  datatype WasteInput = WasteInput(
    id: string,
    wasteSource: WasteSource,
    quantity: real,
    date: int,
    processedBy: string)

  datatype ProcessStatus = Queued | ProcessInProgress | ProcessCompleted | ProcessFailed

  /** A biogas process. An absent yield or energy output stands for the NaN the source computes
      for a source type without a yield factor. */
  datatype BrrpProcess = BrrpProcess(
    id: string,
    wasteInputId: string,
    processType: string,
    startTime: int,
    endTime: Option<int>,
    status: ProcessStatus,
    methaneYield: Option<real>,
    energyOutput: Option<real>)

  // ---------------------------------------------------------------- users

  datatype UserRole = Admin | CustomerRole | Driver

  datatype User = User(
    id: string,
    username: string,
    email: string,
    role: UserRole,
    companyId: Option<string>,
    firstName: string,
    lastName: string,
    isActive: bool,
    createdAt: int,
    updatedAt: int)

  datatype Company = Company(
    id: string,
    name: string,
    businessNumber: Option<string>,
    contactEmail: string,
    contactPhone: string,
    address: Option<string>,
    isActive: bool,
    createdAt: int,
    updatedAt: int)

  datatype AuthSession = AuthSession(user: User, company: Option<Company>, token: string, expiresAt: int)

  // ---------------------------------------------------------------- measurements and emissions

  /** One SCADA reading. A Dafny datatype value cannot be altered after it is built. */
  datatype ScadaMeasurement = ScadaMeasurement(
    id: string,
    facilityId: string,
    timestamp: int,
    wasteProcessed: real,
    methaneGenerated: real,
    methaneDestroyed: real,
    electricityProduced: Option<real>,
    processHeatProduced: Option<real>,
    location: GeoLocation,
    immutable: bool)

  datatype IpccStandard = ACM0022 | AM0053 | AMS_I_D

  /** The union of the fields of the current and the old emissions record. */
  datatype EmissionsRecord = EmissionsRecord(
    id: string,
    weighbridgeJobId: Option<string>,
    scadaMeasurementId: Option<string>,
    wasteVolumeTonnes: real,
    wasteType: string,
    methaneGeneratedM3: Option<real>,
    methaneDestroyedM3: Option<real>,
    methaneDestroyed: Option<real>,
    co2EquivalentTonnes: Option<real>,
    co2Equivalent: Option<real>,
    emissionFactor: Option<real>,
    globalWarmingPotential: Option<real>,
    energyProduced: Option<real>,
    defValue: Option<real>,
    grossEmissionsReduction: Option<real>,
    scadaReadingTimestamp: Option<int>,
    scadaSource: Option<string>,
    calculatedAt: Option<int>,
    standardUsed: Option<IpccStandard>,
    createdAt: int)

  // ---------------------------------------------------------------- verification and credits

  datatype VerificationStandard = Verra | GoldStandard | ToituEkos

  datatype VerificationStatus = Pending | InProgress | Verified | Rejected

  datatype VerificationRecord = VerificationRecord(
    id: string,
    emissionsDataId: string,
    standard: VerificationStandard,
    verifiedBy: string,
    verificationDate: int,
    status: VerificationStatus,
    certificateUrl: Option<string>,
    nextVerificationDue: int,
    notes: Option<string>)

  datatype CarbonCreditStatus = Minted | Available | Sold | Offset | Destroyed

  datatype CarbonCredit = CarbonCredit(
    id: string,
    tokenId: string,
    emissionsDataId: string,
    verificationRecordId: string,
    units: real,
    mintedAt: int,
    blockchainAddress: string,
    registryId: string,
    nationalCarbonBudgetValidated: bool,
    status: CarbonCreditStatus,
    marketValue: Option<real>,
    currency: Option<string>)

  datatype TransactionType = Mint | Sale | OffsetTx | Destroy

  datatype CarbonCreditTransaction = CarbonCreditTransaction(
    id: string,
    carbonCreditId: string,
    transactionType: TransactionType,
    buyerId: Option<string>,
    sellerId: Option<string>,
    amount: real,
    currency: string,
    timestamp: int,
    blockchainTxHash: string)

  // ---------------------------------------------------------------- external reference data

  datatype MfeEmissionsData = MfeEmissionsData(
    id: string,
    category: string,
    defaultEmissionFactor: real,
    unit: string,
    lastUpdated: int)

  datatype WwtpStandardData = WwtpStandardData(
    id: string,
    plantName: string,
    location: GeoLocation,
    capacity: real,
    emissionsPerformance: real,
    standardCompliance: seq<string>,
    lastInspection: int)
}
