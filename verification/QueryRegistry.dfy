/**
 The static registry of queryable data: tables, datasets, the columns a dataset exposes, the
 re-identification classes of columns, and column names as the agent may write them.
 Follows agent_runtime/query/registry.py.
 */
module QueryRegistry {

  datatype Table = MccTable | CustomerTable | CardTable | MerchantTable | TransactionTable

  datatype Dataset = MccCodes | Merchants | Customers | Transactions

  datatype Column =
    | MccCode | MccName
    | CustomerId | Gender | AgeBand | ResidentRegion | PostalCode | Occupation | AnnualIncomeBand | MaritalStatus
    | CardNumberMasked | CardProductCode | CardIssueMonth | CreditLimitBand | CardStatus | CardStatusChangedMonth
    | SignupChannel
    | MerchantId | MerchantName | BusinessRegistrationNumber | FranchiseHqCode | MerchantRegion | MerchantOpenMonth
    | FeeTierCode | MerchantStatus | MerchantStatusChangedMonth
    | TransactionId | TransactionDatetime | ApprovalStatus | DeclineReasonCode | TransactionAmount | CurrencyCode
    | KrwConvertedAmount | AppliedExchangeRate | MerchantCountryCode | InstallmentMonths | ApprovalChannel
    | PosEntryMode | AuthMethod | IpAddress | DeviceFrequencyBand | TerminalFrequencyBand | TransactionHourBand
    | TransactionWeekday

  function TableColumns(t: Table): set<Column> {
    match t
    case MccTable => {MccCode, MccName}
    case CustomerTable =>
      {CustomerId, Gender, AgeBand, ResidentRegion, PostalCode, Occupation, AnnualIncomeBand, MaritalStatus}
    case CardTable =>
      {CardNumberMasked, CustomerId, CardProductCode, CardIssueMonth, CreditLimitBand, CardStatus,
       CardStatusChangedMonth, SignupChannel}
    case MerchantTable =>
      {MerchantId, MerchantName, BusinessRegistrationNumber, MccCode, FranchiseHqCode, MerchantRegion,
       MerchantOpenMonth, FeeTierCode, MerchantStatus, MerchantStatusChangedMonth}
    case TransactionTable =>
      {TransactionId, CardNumberMasked, MerchantId, MccCode, TransactionDatetime, ApprovalStatus, DeclineReasonCode,
       TransactionAmount, CurrencyCode, KrwConvertedAmount, AppliedExchangeRate, MerchantCountryCode, InstallmentMonths,
       ApprovalChannel, PosEntryMode, AuthMethod, IpAddress, DeviceFrequencyBand, TerminalFrequencyBand,
       TransactionHourBand, TransactionWeekday}
  }

  function TableOf(d: Dataset): Table {
    match d
    case MccCodes => MccTable
    case Merchants => MerchantTable
    case Customers => CustomerTable
    case Transactions => TransactionTable
  }

  function Blocked(d: Dataset): set<Column> {
    match d
    case MccCodes => {}
    case Merchants => {MerchantName, BusinessRegistrationNumber, MerchantOpenMonth}
    case Customers => {PostalCode}
    case Transactions => {CardNumberMasked, IpAddress}
  }

  function AllowedColumns(d: Dataset): set<Column> { TableColumns(TableOf(d)) - Blocked(d) }

  function DefaultColumns(d: Dataset): seq<Column> {
    match d
    case MccCodes => [MccCode, MccName]
    case Merchants => [MerchantId, MccCode, MerchantRegion, FeeTierCode, MerchantStatus]
    case Customers => [CustomerId, AgeBand]
    case Transactions =>
      [TransactionId, MerchantId, MccCode, TransactionDatetime, ApprovalStatus, TransactionAmount, CurrencyCode,
       KrwConvertedAmount, MerchantCountryCode, TransactionHourBand]
  }

  const PERSON_ATTRIBUTES := {Gender, AgeBand, ResidentRegion, PostalCode, Occupation, AnnualIncomeBand, MaritalStatus}

  const ROW_IDENTIFIERS := {
    CustomerId, CardNumberMasked, TransactionId, MerchantId, MerchantName, BusinessRegistrationNumber, IpAddress,
    TransactionDatetime, CardIssueMonth, MerchantOpenMonth, FranchiseHqCode}

  const CONTEXT_DIMENSIONS := {
    CardProductCode, CreditLimitBand, CardStatus, CardStatusChangedMonth, SignupChannel, MccCode, MccName,
    MerchantRegion, FeeTierCode, MerchantStatus, MerchantStatusChangedMonth, ApprovalStatus, DeclineReasonCode,
    CurrencyCode, MerchantCountryCode, InstallmentMonths, ApprovalChannel, PosEntryMode, AuthMethod,
    DeviceFrequencyBand, TerminalFrequencyBand, TransactionHourBand}

  const QUASI_IDENTIFIERS := PERSON_ATTRIBUTES + CONTEXT_DIMENSIONS

  const MEASURE_COLUMNS := {TransactionAmount, KrwConvertedAmount, AppliedExchangeRate}

  /** `max(5, QUERY_K_ANONYMITY)`. */
  function MinimumGroup(configured: int): (k: nat)
    ensures k >= 5 && k >= configured && (k == 5 || k == configured)
  {
    if configured < 5 then 5 else configured
  }

  // ----- column names as written -----

  /** The stripped text of a column name: a column's own name, an alias word, or anything else. */
  datatype Name = Own(column: Column) | Word(word: AliasWord) | Text(text: string)

  datatype AliasWord =
    | GenderWord | AgeWord | AgeBandWord | YearsWord | ResidenceWord | RegionWord | MerchantRegionWord | BusinessWord
    | BusinessCodeWord | PaymentWord | TradeWord | ApprovalWord | CountryWord | HourBandWord | TimeWord | WeekdayWord

  /** `COLUMN_ALIASES`. */
  function AliasOf(word: AliasWord): Column {
    match word
    case GenderWord => Gender
    case AgeWord => AgeBand
    case AgeBandWord => AgeBand
    case YearsWord => AgeBand
    case ResidenceWord => ResidentRegion
    case RegionWord => MerchantRegion
    case MerchantRegionWord => MerchantRegion
    case BusinessWord => MccCode
    case BusinessCodeWord => MccCode
    case PaymentWord => TransactionAmount
    case TradeWord => TransactionAmount
    case ApprovalWord => ApprovalStatus
    case CountryWord => MerchantCountryCode
    case HourBandWord => TransactionHourBand
    case TimeWord => TransactionHourBand
    case WeekdayWord => TransactionWeekday
  }

  function Canonical(name: Name): Name { if name.Word? then Own(AliasOf(name.word)) else name }

  /** `AMBIGUOUS_COLUMN_ALIASES`, or the canonical name; candidates that are no column never match. */
  function Candidates(name: Name): seq<Name> {
    if name == Word(RegionWord) then [Own(MerchantRegion), Own(ResidentRegion), Text("region")]
    else if name == Word(PaymentWord) || name == Word(TradeWord) then
      [Own(TransactionAmount), Own(KrwConvertedAmount), Text("amount")]
    else [Canonical(name), name]
  }

  function FirstAllowed(candidates: seq<Name>, allowed: set<Column>): (r: seq<Name>)
    ensures |r| <= 1 && forall n | n in r :: n in candidates && n.Own? && n.column in allowed
    ensures r == [] ==> forall n | n in candidates :: !(n.Own? && n.column in allowed)
  {
    if candidates == [] then []
    else if candidates[0].Own? && candidates[0].column in allowed then [candidates[0]]
    else FirstAllowed(candidates[1..], allowed)
  }

  /** `resolve_column`. */
  function Resolve(name: Name, allowed: set<Column>): Name {
    var matches := FirstAllowed(Candidates(name), allowed);
    if matches == [] then Canonical(name) else matches[0]
  }

  /** A column's own name resolves to itself. */
  lemma ResolveOwn(c: Column, allowed: set<Column>)
    ensures Resolve(Own(c), allowed) == Own(c)
  {
    assert Candidates(Own(c)) == [Own(c), Own(c)];
    assert [Own(c), Own(c)][1..] == [Own(c)];
  }
}
