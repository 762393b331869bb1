/** The carbon-credit lifecycle: minting a credit from verified emissions, listing it for sale,
    selling it and offsetting it. Every operation builds a new record or a transaction; the
    generated identifiers, hashes and instants are parameters. */
module CarbonCreditLifecycle {
  import opened Types

  datatype CreditError =
    | NotVerified | VerificationMismatch | NotMinted | BudgetNotValidated
    | NotAvailable | AlreadyDestroyed
  {
    function Message(): string {
      match this
      case NotVerified => "Cannot mint carbon credit: Emissions data not verified"
      case VerificationMismatch => "Verification record does not match emissions data"
      case NotMinted => "Only minted credits can be made available"
      case BudgetNotValidated => "Carbon credit must be validated against national carbon budget"
      case NotAvailable => "Carbon credit is not available for sale"
      case AlreadyDestroyed => "Carbon credit already destroyed"
    }
  }

  /** The generated values a new credit carries. */
  datatype MintIdentifiers = MintIdentifiers(
    id: string, tokenId: string, blockchainAddress: string, registryId: string)

  /** `mintCarbonCredit`: the verification must be VERIFIED and be the one of these emissions. */
  function MintCarbonCredit(emissions: EmissionsRecord, verification: VerificationRecord,
                            ids: MintIdentifiers, now: int): (r: Result<CarbonCredit, CreditError>)
    ensures verification.status != Verified <==> r == Failure(NotVerified)
    ensures verification.status == Verified && verification.emissionsDataId != emissions.id
            <==> r == Failure(VerificationMismatch)
    ensures r.Success? <==>
              verification.status == Verified && verification.emissionsDataId == emissions.id
    ensures r.Success? ==>
              && r.value.status == Minted && !r.value.nationalCarbonBudgetValidated
              && r.value.units == (if TruthyNumber(emissions.grossEmissionsReduction)
                                   then emissions.grossEmissionsReduction.value else 0.0)
              && r.value.emissionsDataId == emissions.id
              && r.value.verificationRecordId == verification.id
              && r.value.id == ids.id && r.value.tokenId == ids.tokenId
              && r.value.blockchainAddress == ids.blockchainAddress
              && r.value.registryId == ids.registryId && r.value.mintedAt == now
              && r.value.marketValue.None? && r.value.currency.None?
  {
    if verification.status != Verified then Failure(NotVerified)
    else if verification.emissionsDataId != emissions.id then Failure(VerificationMismatch)
    else
      var units := if TruthyNumber(emissions.grossEmissionsReduction)
                   then emissions.grossEmissionsReduction.value else 0.0;
      Success(CarbonCredit(
        id := ids.id,
        tokenId := ids.tokenId,
        emissionsDataId := emissions.id,
        verificationRecordId := verification.id,
        units := units,
        mintedAt := now,
        blockchainAddress := ids.blockchainAddress,
        registryId := ids.registryId,
        nationalCarbonBudgetValidated := false,
        status := Minted,
        marketValue := None,
        currency := None))
  }

  /** A minted credit carries the gross emissions reduction as its units, or zero without one. */
  lemma MintedUnits(emissions: EmissionsRecord, verification: VerificationRecord,
                    ids: MintIdentifiers, now: int)
    requires verification.status == Verified && verification.emissionsDataId == emissions.id
    ensures MintCarbonCredit(emissions, verification, ids, now).Success?
    ensures MintCarbonCredit(emissions, verification, ids, now).value.units
            == emissions.grossEmissionsReduction.GetOr(0.0)
  {
  }

  /** `makeAvailable`; an omitted currency is "USD". */
  function MakeAvailable(c: CarbonCredit, marketValue: real, currency: Option<string>)
    : (r: Result<CarbonCredit, CreditError>)
    ensures c.status != Minted <==> r == Failure(NotMinted)
    ensures c.status == Minted && !c.nationalCarbonBudgetValidated
            <==> r == Failure(BudgetNotValidated)
    ensures r.Success? <==> c.status == Minted && c.nationalCarbonBudgetValidated
    ensures r.Success? ==>
              r.value == c.(status := Available, marketValue := Some(marketValue),
                            currency := Some(currency.GetOr("USD")))
  {
    if c.status != Minted then Failure(NotMinted)
    else if !c.nationalCarbonBudgetValidated then Failure(BudgetNotValidated)
    else Success(c.(status := Available, marketValue := Some(marketValue),
                    currency := Some(currency.GetOr("USD"))))
  }

  /** The currency a transaction on `c` is recorded in: the credit's own, or "USD". */
  function TransactionCurrency(c: CarbonCredit): (cur: string)
    ensures cur != ""
    ensures TruthyString(c.currency) ==> cur == c.currency.value
    ensures !TruthyString(c.currency) ==> cur == "USD"
  {
    if TruthyString(c.currency) then c.currency.value else "USD"
  }

  /** The generated values a new transaction carries. */
  datatype TransactionStamp = TransactionStamp(id: string, hash: string, at: int)

  /** `sellCarbonCredit`: only an AVAILABLE credit sells. The result is the SALE transaction; the
      credit itself is not changed by the sale. */
  function SellCarbonCredit(c: CarbonCredit, buyerId: string, amount: real,
                            stamp: TransactionStamp): (r: Result<CarbonCreditTransaction, CreditError>)
    ensures r.Failure? <==> c.status != Available
    ensures r.Failure? ==> r.error == NotAvailable
    ensures r.Success? ==>
              && r.value.transactionType == Sale && r.value.carbonCreditId == c.id
              && r.value.buyerId == Some(buyerId) && r.value.amount == amount
              && r.value.currency == TransactionCurrency(c) && r.value.sellerId.None?
              && r.value.id == stamp.id && r.value.blockchainTxHash == stamp.hash
              && r.value.timestamp == stamp.at
  {
    if c.status != Available then Failure(NotAvailable)
    else Success(CarbonCreditTransaction(
      id := stamp.id,
      carbonCreditId := c.id,
      transactionType := Sale,
      buyerId := Some(buyerId),
      sellerId := None,
      amount := amount,
      currency := TransactionCurrency(c),
      timestamp := stamp.at,
      blockchainTxHash := stamp.hash))
  }

  /** `offsetAndDestroy`: fails only on a DESTROYED credit; returns the DESTROY transaction, of
      amount 0, and leaves the credit as it is. */
  function OffsetAndDestroy(c: CarbonCredit, buyerId: string, stamp: TransactionStamp)
    : (r: Result<CarbonCreditTransaction, CreditError>)
    ensures r.Failure? <==> c.status == Destroyed
    ensures r.Failure? ==> r.error == AlreadyDestroyed
    ensures r.Success? ==>
              && r.value.transactionType == Destroy && r.value.carbonCreditId == c.id
              && r.value.buyerId == Some(buyerId) && r.value.amount == 0.0
              && r.value.currency == TransactionCurrency(c) && r.value.sellerId.None?
              && r.value.id == stamp.id && r.value.blockchainTxHash == stamp.hash
              && r.value.timestamp == stamp.at
  {
    if c.status == Destroyed then Failure(AlreadyDestroyed)
    else Success(CarbonCreditTransaction(
      id := stamp.id,
      carbonCreditId := c.id,
      transactionType := Destroy,
      buyerId := Some(buyerId),
      sellerId := None,
      amount := 0.0,
      currency := TransactionCurrency(c),
      timestamp := stamp.at,
      blockchainTxHash := stamp.hash))
  }

  /** A sale or an offset of a credit without a currency of its own (absent or empty) is recorded
      in USD; a credit listed by `makeAvailable` with no currency given trades in USD, and one
      listed in a given non-empty currency trades in that currency. */
  lemma TransactionsDefaultToUsd(c: CarbonCredit, buyerId: string, amount: real,
                                 stamp: TransactionStamp, marketValue: real, listed: Option<string>)
    ensures !TruthyString(c.currency) && SellCarbonCredit(c, buyerId, amount, stamp).Success? ==>
              SellCarbonCredit(c, buyerId, amount, stamp).value.currency == "USD"
    ensures !TruthyString(c.currency) && OffsetAndDestroy(c, buyerId, stamp).Success? ==>
              OffsetAndDestroy(c, buyerId, stamp).value.currency == "USD"
    ensures MakeAvailable(c, marketValue, listed).Success? && (listed.None? || listed.value != "") ==>
              var sale := SellCarbonCredit(MakeAvailable(c, marketValue, listed).value, buyerId, amount, stamp);
              sale.Success? && sale.value.currency == listed.GetOr("USD")
  {
  }

  datatype BudgetValidation = BudgetValidation(valid: bool, message: string)

  /** `validateAgainstNationalBudget`: a placeholder that accepts every credit. */
  function ValidateAgainstNationalBudget(c: CarbonCredit): (r: BudgetValidation)
    ensures r.valid
    ensures r.message == "Carbon credit validated against Nationally Determined Contribution (NDC)"
  {
    BudgetValidation(true, "Carbon credit validated against Nationally Determined Contribution (NDC)")
  }

  // ---------------------------------------------------------------- global registry

  const RegistryPrefix: string := "https://openearth.org/registry/"

  datatype RegistrySync = RegistrySync(success: bool, registryUrl: string)

  /** `syncToGlobalRegistry`, URL construction only. */
  function SyncToGlobalRegistry(c: CarbonCredit): (r: RegistrySync)
    ensures r.success
    ensures |r.registryUrl| == |RegistryPrefix| + |c.registryId|
    ensures r.registryUrl[..|RegistryPrefix|] == RegistryPrefix
  {
    RegistrySync(true, RegistryPrefix + c.registryId)
  }

  /** The registry id named by a registry URL, when it is one. */
  function RegistryIdOf(url: string): (id: Option<string>)
    ensures id.Some? <==> |url| >= |RegistryPrefix| && url[..|RegistryPrefix|] == RegistryPrefix
  {
    if |url| >= |RegistryPrefix| && url[..|RegistryPrefix|] == RegistryPrefix
    then Some(url[|RegistryPrefix|..]) else None
  }

  /** The registry URL gives back the credit's registry id, so distinct registry ids get
      distinct URLs. */
  lemma RegistryUrlRoundTrip(c: CarbonCredit, d: CarbonCredit)
    ensures RegistryIdOf(SyncToGlobalRegistry(c).registryUrl) == Some(c.registryId)
    ensures SyncToGlobalRegistry(c).registryUrl == SyncToGlobalRegistry(d).registryUrl
            <==> c.registryId == d.registryId
  {
    var u := SyncToGlobalRegistry(c).registryUrl;
    assert u[|RegistryPrefix|..] == c.registryId;
    if SyncToGlobalRegistry(c).registryUrl == SyncToGlobalRegistry(d).registryUrl {
      assert SyncToGlobalRegistry(d).registryUrl[|RegistryPrefix|..] == d.registryId;
    }
  }

  // ---------------------------------------------------------------- lifecycle

  /** What can happen to a credit after it is minted. `RecordBudgetValidation` stands for whatever
      sets `nationalCarbonBudgetValidated`; no service operation sets it. */
  datatype CreditOp =
    | RecordBudgetValidation
    | ListForSale(marketValue: real, currency: Option<string>)
    | SellTo(buyerId: string, amount: real, stamp: TransactionStamp)
    | OffsetBy(buyerId: string, stamp: TransactionStamp)

  /** The credit after `op`. A failed operation throws, and the caller keeps the credit it had;
      a sale or an offset returns only a transaction. */
  function ApplyOp(c: CarbonCredit, op: CreditOp): CarbonCredit {
    match op
    case RecordBudgetValidation => c.(nationalCarbonBudgetValidated := true)
    case ListForSale(v, cur) =>
      var r := MakeAvailable(c, v, cur);
      if r.Success? then r.value else c
    case SellTo(_, _, _) => c
    case OffsetBy(_, _) => c
  }

  /** Whether `op` throws on `c`. */
  predicate OpFails(c: CarbonCredit, op: CreditOp) {
    match op
    case RecordBudgetValidation => false
    case ListForSale(v, cur) => MakeAvailable(c, v, cur).Failure?
    case SellTo(b, a, s) => SellCarbonCredit(c, b, a, s).Failure?
    case OffsetBy(b, s) => OffsetAndDestroy(c, b, s).Failure?
  }

  function Run(c: CarbonCredit, ops: seq<CreditOp>): CarbonCredit
    decreases |ops|
  {
    if ops == [] then c else Run(ApplyOp(c, ops[0]), ops[1..])
  }

  predicate Circulating(s: CarbonCreditStatus) {
    s == Minted || s == Available
  }

  /** One operation never moves a credit out of MINTED/AVAILABLE, and only listing changes its
      status at all, from MINTED to AVAILABLE. */
  lemma ApplyOpStatus(c: CarbonCredit, op: CreditOp)
    ensures Circulating(c.status) ==> Circulating(ApplyOp(c, op).status)
    ensures ApplyOp(c, op).status != c.status ==>
              op.ListForSale? && c.status == Minted && ApplyOp(c, op).status == Available
    ensures ApplyOp(c, op).id == c.id && ApplyOp(c, op).units == c.units
    ensures ApplyOp(c, op).registryId == c.registryId
  {
  }

  /** No sequence of operations sets SOLD, OFFSET or DESTROYED: a credit that is MINTED or
      AVAILABLE stays so, and its identity and units never change. */
  lemma {:induction false} RunStaysCirculating(c: CarbonCredit, ops: seq<CreditOp>)
    requires Circulating(c.status)
    ensures Circulating(Run(c, ops).status)
    ensures Run(c, ops).id == c.id && Run(c, ops).units == c.units
    ensures Run(c, ops).registryId == c.registryId
    decreases |ops|
  {
    if ops != [] {
      ApplyOpStatus(c, ops[0]);
      RunStaysCirculating(ApplyOp(c, ops[0]), ops[1..]);
    }
  }

  /** Every credit minted reaches only MINTED and AVAILABLE, whatever follows. */
  lemma MintedCreditsCirculate(emissions: EmissionsRecord, verification: VerificationRecord,
                               ids: MintIdentifiers, now: int, ops: seq<CreditOp>)
    requires MintCarbonCredit(emissions, verification, ids, now).Success?
    ensures Circulating(Run(MintCarbonCredit(emissions, verification, ids, now).value, ops).status)
  {
    RunStaysCirculating(MintCarbonCredit(emissions, verification, ids, now).value, ops);
  }

  /** With the service's operations alone a new credit never leaves MINTED: listing needs the
      budget flag, which only `RecordBudgetValidation` sets, and nothing else changes a credit. */
  lemma {:induction false} ServiceOpsLeaveMintedCredit(c: CarbonCredit, ops: seq<CreditOp>)
    requires c.status == Minted && !c.nationalCarbonBudgetValidated
    requires forall i :: 0 <= i < |ops| ==> !ops[i].RecordBudgetValidation?
    ensures Run(c, ops) == c
    decreases |ops|
  {
    if ops != [] {
      assert ApplyOp(c, ops[0]) == c;
      ServiceOpsLeaveMintedCredit(c, ops[1..]);
    }
  }

  /** A DESTROYED credit cannot be listed, sold or offset, and stays DESTROYED. */
  lemma {:induction false} DestroyedIsFinal(c: CarbonCredit, ops: seq<CreditOp>)
    requires c.status == Destroyed
    ensures forall op: CreditOp :: !op.RecordBudgetValidation? ==> OpFails(c, op)
    ensures Run(c, ops).status == Destroyed
    decreases |ops|
  {
    if ops != [] {
      DestroyedIsFinal(ApplyOp(c, ops[0]), ops[1..]);
    }
  }

  /** Offsetting does not retire the credit: an offset credit can be offset again, and an
      available one sold again. */
  lemma OffsetDoesNotRetire(c: CarbonCredit, buyerId: string, other: string,
                            s1: TransactionStamp, s2: TransactionStamp)
    requires c.status != Destroyed
    ensures var after := ApplyOp(c, OffsetBy(buyerId, s1));
            after == c && OffsetAndDestroy(after, other, s2).Success?
  {
  }
}
