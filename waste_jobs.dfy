/** Waste jobs created from weighbridge input: the price table of the eight waste streams, job
    creation and pricing, and status updates. */
module WasteJobs {
  import opened Types

  function StreamProperties(t: WasteStreamType, price: real, energy: EnergyValue,
                            nutrient: NutrientValue): WasteStreamProperties {
    WasteStreamProperties(t, "Tonne", price, energy, nutrient)
  }

  lemma StreamCases(t: WasteStreamType)
    ensures || t == CowShedWaste || t == FoodWasteStream || t == GreenWaste || t == SpentGrain
            || t == ApplePomace || t == GrapeMarcStream || t == HopsResidue || t == FishWaste
  {
  }

  /** `getWasteStreamProperties`: an entry for every stream, keyed by its own type. */
  function GetWasteStreamProperties(): (m: map<WasteStreamType, WasteStreamProperties>)
    ensures forall t: WasteStreamType :: t in m && m[t].streamType == t
  {
    var m := map[
      CowShedWaste := StreamProperties(CowShedWaste, 210.0, LowEnergy, HighNutrient),
      FoodWasteStream := StreamProperties(FoodWasteStream, 210.0, MediumEnergy, LowNutrient),
      GreenWaste := StreamProperties(GreenWaste, 210.0, LowEnergy, MediumNutrient),
      SpentGrain := StreamProperties(SpentGrain, 210.0, LowEnergy, MediumNutrient),
      ApplePomace := StreamProperties(ApplePomace, 210.0, MediumEnergy, MediumNutrient),
      GrapeMarcStream := StreamProperties(GrapeMarcStream, 210.0, MediumEnergy, MediumNutrient),
      HopsResidue := StreamProperties(HopsResidue, 210.0, MediumEnergy, MediumNutrient),
      FishWaste := StreamProperties(FishWaste, 260.0, MediumEnergy, HighNutrient)];
    assert forall t: WasteStreamType :: t in m && m[t].streamType == t by {
      forall t: WasteStreamType ensures t in m && m[t].streamType == t {
        StreamCases(t);
      }
    }
    m
  }

  /** Every stream is priced per tonne, at 210 except fish waste at 260. */
  lemma StreamPrices(t: WasteStreamType)
    ensures GetWasteStreamProperties()[t].unitOfMeasure == "Tonne"
    ensures GetWasteStreamProperties()[t].standardPrice == if t == FishWaste then 260.0 else 210.0
  {
  }

  /** `getWasteStreamName`. */
  function GetWasteStreamName(t: WasteStreamType): string {
    match t
    case CowShedWaste => "Cow Shed Waste"
    case FoodWasteStream => "Food Waste"
    case GreenWaste => "Green Waste"
    case SpentGrain => "Spent Grain"
    case ApplePomace => "Apple Pomace"
    case GrapeMarcStream => "Grape Marc"
    case HopsResidue => "Hops Residue"
    case FishWaste => "Fish Waste"
  }

  /** Every stream has a name of its own: no two streams share one. */
  lemma StreamNamesDistinct(s: WasteStreamType, t: WasteStreamType)
    ensures GetWasteStreamName(s) != ""
    ensures GetWasteStreamName(s) == GetWasteStreamName(t) ==> s == t
  {
    if GetWasteStreamName(s) == GetWasteStreamName(t) {
      // the first three characters already tell the names apart
      assert GetWasteStreamName(s)[..3] == GetWasteStreamName(t)[..3];
    }
  }

  /** `calculatePrice`. */
  function CalculatePrice(stream: WasteStreamType, weight: real): real {
    weight * GetWasteStreamProperties()[stream].standardPrice
  }

  /** The price is the weight at the stream's rate: it grows with the weight, is never negative
      for a non-negative weight and splits over parts of a load. */
  lemma PriceFacts(stream: WasteStreamType, w1: real, w2: real)
    ensures CalculatePrice(stream, w1) == w1 * (if stream == FishWaste then 260.0 else 210.0)
    ensures w1 >= 0.0 ==> CalculatePrice(stream, w1) >= 0.0
    ensures w1 <= w2 ==> CalculatePrice(stream, w1) <= CalculatePrice(stream, w2)
    ensures CalculatePrice(stream, w1 + w2) == CalculatePrice(stream, w1) + CalculatePrice(stream, w2)
  {
    StreamPrices(stream);
  }

  /** `createWasteJob`; the identifier, job number and instant are parameters. */
  function CreateWasteJob(customer: Customer, wasteStream: WasteStreamType,
                          truckRegistration: string, weighbridgeWeight: real,
                          notes: Option<string>, id: string, jobNumber: string, now: int)
    : (job: WasteJob)
    ensures job.status == Weighed
    ensures job.totalPrice == Some(CalculatePrice(wasteStream, weighbridgeWeight))
    ensures job.customer == customer && job.wasteStream == wasteStream
    ensures job.truckRegistration == truckRegistration
    ensures job.weighbridgeWeight == weighbridgeWeight && job.notes == notes
    ensures job.id == id && job.jobNumber == jobNumber && job.timestamp == now
    ensures job.companyId.None? && job.companyName.None?
  {
    WasteJob(
      id := id,
      jobNumber := jobNumber,
      customer := customer,
      wasteStream := wasteStream,
      truckRegistration := truckRegistration,
      weighbridgeWeight := weighbridgeWeight,
      timestamp := now,
      status := Weighed,
      totalPrice := Some(weighbridgeWeight * GetWasteStreamProperties()[wasteStream].standardPrice),
      notes := notes,
      companyId := None,
      companyName := None)
  }

  /** `updateJobStatus`: only the status changes. */
  function UpdateJobStatus(job: WasteJob, status: WasteJobStatus): (u: WasteJob)
    ensures u.status == status
    ensures u.(status := job.status) == job
  {
    job.(status := status)
  }

  /** A job keeps the price it was created with through any status change, and the last status
      set is the one it has. */
  lemma UpdateKeepsPrice(customer: Customer, wasteStream: WasteStreamType,
                         truckRegistration: string, weight: real, notes: Option<string>,
                         id: string, jobNumber: string, now: int,
                         s1: WasteJobStatus, s2: WasteJobStatus)
    ensures var job := CreateWasteJob(customer, wasteStream, truckRegistration, weight, notes,
                                      id, jobNumber, now);
            var u := UpdateJobStatus(UpdateJobStatus(job, s1), s2);
            u.totalPrice == Some(weight * (if wasteStream == FishWaste then 260.0 else 210.0))
            && u == UpdateJobStatus(job, s2)
  {
    StreamPrices(wasteStream);
  }

  /** `getAvailableCustomers`. */
  function GetAvailableCustomers(): seq<Customer> {
    [ Customer("cust-wmnz", "Waste Management NZ", WasteManagementNz,
               Some("contact@wastemanagement.co.nz"), Some("+64 9 123 4567")),
      Customer("cust-environz", "enviroNZ", EnviroNz,
               Some("info@environz.co.nz"), Some("+64 9 765 4321")) ]
  }

  /** There is exactly one customer of each customer type, with distinct ids. */
  lemma AvailableCustomersFacts(t: CustomerType)
    ensures |GetAvailableCustomers()| == 2
    ensures GetAvailableCustomers()[0].id != GetAvailableCustomers()[1].id
    ensures exists i :: 0 <= i < 2 && GetAvailableCustomers()[i].customerType == t
    ensures GetAvailableCustomers()[0].customerType != GetAvailableCustomers()[1].customerType
  {
    var cs := GetAvailableCustomers();
    if t == WasteManagementNz {
      assert cs[0].customerType == t;
    } else {
      assert cs[1].customerType == t;
    }
  }
}
