/** Shared constants, record types and the page-identifier check of the
    service (src/types.ts). */
module Types {
  import opened Wrappers
  import opened Text

  // ---------------------------------------------------------------
  // Portal constants
  // ---------------------------------------------------------------

  const FINE_BASE_URL: string := "https://fine.fss.or.kr"
  const FINE_PAGE_PATH: string := "/fine/bbs/B0000392/view.do"
  const FINE_ALLOWED_PATH_PREFIX: string := "/fine/cmmn/file/fileDown.do"
  const DEFAULT_NTT_ID: string := "63573"
  /** The query parameters that follow the notice identifier in FINE_PAGE_URL. */
  const PAGE_QUERY_TAIL: string := "&menuNo=900495&pageIndex=1"

  // ---------------------------------------------------------------
  // Limits
  // ---------------------------------------------------------------

  const FETCH_TIMEOUT_MS: nat := 30_000
  const CACHE_TTL_MS: nat := 6 * 60 * 60 * 1000
  const MAX_COMPANY_NAME_LENGTH: nat := 100
  const MAX_DISPLAY: nat := 50

  // ---------------------------------------------------------------
  // Business types, statuses and the filter values accepted for them
  // ---------------------------------------------------------------

  /** The five licensed electronic-finance business categories. */
  datatype BusinessType = Prepaid | Debit | PG | Escrow | EBPP {
    /** The serialized form used in the spreadsheet header and in queries. */
    function Label(): string {
      match this
      case Prepaid => "선불"
      case Debit => "직불"
      case PG => "PG"
      case Escrow => "ESCROW"
      case EBPP => "EBPP"
    }

    /** Position in declaration order, which is also the spreadsheet column
        offset from the first type column. */
    function Index(): (k: nat)
      ensures k < |BUSINESS_TYPES| && BUSINESS_TYPES[k] == this
    {
      match this
      case Prepaid => 0
      case Debit => 1
      case PG => 2
      case Escrow => 3
      case EBPP => 4
    }
  }

  /** Declaration order, which is also the column order of the spreadsheet. */
  const BUSINESS_TYPES: seq<BusinessType> := [Prepaid, Debit, PG, Escrow, EBPP]

  /** The filter value meaning "no restriction". */
  const ALL: string := "전체"

  const VALID_BUSINESS_TYPES: set<string> :=
    {Prepaid.Label(), Debit.Label(), PG.Label(), Escrow.Label(), EBPP.Label(), ALL}

  datatype Status = Registered | Cancelled {
    function Label(): string {
      match this
      case Registered => "등록"
      case Cancelled => "말소"
    }
  }

  const VALID_STATUSES: set<string> := {Registered.Label(), Cancelled.Label(), ALL}

  /** The business type whose label is `s`, if any. */
  function BusinessTypeOf(s: string): (r: Option<BusinessType>)
    ensures r.Some? ==> r.value.Label() == s
    ensures r.None? ==> forall t: BusinessType :: t.Label() != s
  {
    if s == "선불" then Some(Prepaid)
    else if s == "직불" then Some(Debit)
    else if s == "PG" then Some(PG)
    else if s == "ESCROW" then Some(Escrow)
    else if s == "EBPP" then Some(EBPP)
    else None
  }

  /** Labels identify business types: reading a label back gives the type. */
  lemma LabelRoundTrip(t: BusinessType)
    ensures BusinessTypeOf(t.Label()) == Some(t)
  {
  }

  /** The declared order lists every business type exactly once, and the filter
      values are those labels plus "전체" (six values, three statuses). */
  lemma BusinessTypeTables()
    ensures |BUSINESS_TYPES| == 5
    ensures forall t: BusinessType :: t in BUSINESS_TYPES
    ensures forall i, j | 0 <= i < j < |BUSINESS_TYPES| :: BUSINESS_TYPES[i] != BUSINESS_TYPES[j]
    ensures forall s :: s in VALID_BUSINESS_TYPES <==> s == ALL || BusinessTypeOf(s).Some?
    ensures |VALID_BUSINESS_TYPES| == |BUSINESS_TYPES| + 1
    ensures |VALID_STATUSES| == 3
  {
    forall t: BusinessType ensures t in BUSINESS_TYPES {
      match t
      case Prepaid => assert BUSINESS_TYPES[0] == t;
      case Debit => assert BUSINESS_TYPES[1] == t;
      case PG => assert BUSINESS_TYPES[2] == t;
      case Escrow => assert BUSINESS_TYPES[3] == t;
      case EBPP => assert BUSINESS_TYPES[4] == t;
    }
  }

  /** The type declared at position k has index k. */
  lemma IndexOfDeclared(k: nat)
    requires k < |BUSINESS_TYPES|
    ensures BUSINESS_TYPES[k].Index() == k
  {
  }

  // ---------------------------------------------------------------
  // Spreadsheet column contract
  // ---------------------------------------------------------------

  /** Fixed 0-based column positions of one sheet layout; the five business-type
      columns are `typeStart .. typeStart + 4` in declaration order. */
  datatype ColumnLayout = ColumnLayout(no: nat, date: nat, name: nat, typeStart: nat) {
    function TypeColumn(k: nat): nat
      requires k < |BUSINESS_TYPES|
    {
      typeStart + k
    }
  }

  const REG_COL: ColumnLayout := ColumnLayout(1, 2, 3, 4)
  const CAN_COL: ColumnLayout := ColumnLayout(0, 1, 2, 3)
  const DATA_START_ROW: nat := 5

  /** Column positions of a layout never collide: the type columns lie after the
      name column and are disjoint from the number, date and name columns. */
  predicate WellFormedLayout(l: ColumnLayout) {
    && l.no != l.date && l.no != l.name && l.date != l.name
    && l.typeStart > l.name
    && forall k | 0 <= k < |BUSINESS_TYPES| ::
         l.TypeColumn(k) != l.no && l.TypeColumn(k) != l.date && l.TypeColumn(k) != l.name
  }

  lemma LayoutsWellFormed()
    ensures WellFormedLayout(REG_COL) && WellFormedLayout(CAN_COL)
    ensures DATA_START_ROW > 0
  {
  }

  lemma LimitConstants()
    ensures CACHE_TTL_MS == 21_600_000 && CACHE_TTL_MS >= 60 * 60 * 1000
    ensures 10_000 <= FETCH_TIMEOUT_MS <= 60_000
    ensures MAX_DISPLAY > 0 && MAX_COMPANY_NAME_LENGTH > 0
  {
  }

  // ---------------------------------------------------------------
  // Records
  // ---------------------------------------------------------------

  /** One regulatory entry (번호, 업체명, 업종목록, 등록일, 말소일, 상태, 비고). */
  datatype Company = Company(
    no: int,
    name: string,
    types: seq<BusinessType>,
    registeredDate: string,
    cancelledDate: string,
    status: Status,
    remark: string)

  /** The unit cached and returned to callers; `fetchedAt` is a clock reading
      in milliseconds. */
  datatype Snapshot = Snapshot(
    registered: seq<Company>,
    cancelled: seq<Company>,
    dataDate: string,
    fileName: string,
    fetchedAt: int)

  /** The classified failures of the pipeline and of argument checking. */
  datatype Error =
    | PortalUnavailable
    | DownloadFailed
    | LinkNotFound
    | UntrustedDownloadPath
    | UnparseableDocument
    | UnreadableWorkbook
    | InvalidPageId(value: string)
    | CompanyNameTooLong
    | InvalidBusinessType(value: string)
    | InvalidStatus(value: string)

  // ---------------------------------------------------------------
  // Page identifier
  // ---------------------------------------------------------------

  /** `^\d{1,10}$`: one to ten ASCII digits and nothing else. */
  predicate IsPageId(s: string) {
    1 <= |s| <= 10 && AllAsciiDigits(s)
  }

  /** `validateNttId`: a left-to-right scan that accepts the value unchanged when
      it is a page identifier and reports it otherwise. */
  method ValidateNttId(value: string) returns (r: Result<string, Error>)
    ensures r.Success? <==> IsPageId(value)
    ensures r.Success? ==> r.value == value
    ensures r.Failure? ==> r.error == InvalidPageId(value)
  {
    var count := 0;
    while count < |value| && IsAsciiDigit(value[count])
      invariant 0 <= count <= |value|
      invariant AllAsciiDigits(value[..count])
    {
      count := count + 1;
    }
    if count == |value| && 1 <= count <= 10 {
      assert value[..count] == value;
      return Success(value);
    }
    return Failure(InvalidPageId(value));
  }

  /** `process.env.FINE_PAGE_NTT_ID || "63573"`: an unset or empty variable
      selects the default identifier. */
  function ConfiguredNttId(env: Option<string>): (id: string)
    ensures env.Some? && env.value != "" ==> id == env.value
    ensures env.None? || env.value == "" ==> IsPageId(id)
  {
    if env.Some? && env.value != "" then env.value else DEFAULT_NTT_ID
  }

  /** FINE_PAGE_URL: the announcement page on the fixed portal host. */
  function PageUrl(nttId: string): (url: string)
    ensures StartsWith(url, FINE_BASE_URL + FINE_PAGE_PATH + "?nttId=")
    ensures var n := |FINE_BASE_URL + FINE_PAGE_PATH + "?nttId="|;
      && n + |nttId| <= |url| && url[n..n + |nttId|] == nttId
      && url[n + |nttId|..] == PAGE_QUERY_TAIL
  {
    FINE_BASE_URL + FINE_PAGE_PATH + "?nttId=" + nttId + PAGE_QUERY_TAIL
  }

  /** The page address names exactly one identifier: different identifiers
      give different addresses. */
  lemma PageUrlNamesOneId(a: string, b: string)
    ensures PageUrl(a) == PageUrl(b) ==> a == b
  {
    var n := |FINE_BASE_URL + FINE_PAGE_PATH + "?nttId="|;
    if PageUrl(a) == PageUrl(b) {
      var u := PageUrl(a);
      assert |u| == n + |a| + |PAGE_QUERY_TAIL| == n + |b| + |PAGE_QUERY_TAIL|;
      assert a == u[n..n + |a|] == b;
    }
  }
}
