/** Validation of the search tool's arguments: the optional company name is
    bounded in length, the business type and the status default to "전체"
    and must be one of the allowed values, and only a literal `true`
    requests a refresh. */
module Validation {
  import opened Wrappers
  import opened Text
  import opened Types

  /** One argument value as it arrives in the request: JSON null, a boolean,
      an integer or a string. A key that is not present at all is `None` in
      `SearchArgs`. */
  datatype ArgValue = Null | Bool(b: bool) | Num(n: int) | Str(s: string)

  /** The raw arguments record of the search tool. */
  datatype SearchArgs = SearchArgs(
    companyName: Option<ArgValue>,
    businessType: Option<ArgValue>,
    status: Option<ArgValue>,
    refresh: Option<ArgValue>)

  /** `ValidatedSearchArgs`. */
  datatype ValidatedSearchArgs = ValidatedSearchArgs(
    companyName: Option<string>,
    businessType: string,
    status: string,
    refresh: bool)

  /** `String(v)` for the value kinds modelled. */
  function AsString(v: ArgValue): string
    requires !v.Null?
  {
    match v
    case Bool(b) => if b then "true" else "false"
    case Num(n) => IntToDecimal(n)
    case Str(s) => s
  }

  /** `v != null ? String(v) : undefined`: both an absent key and an explicit
      null read as "not given". */
  function Provided(arg: Option<ArgValue>): (r: Option<string>)
    ensures r.None? <==> arg.None? || arg.value.Null?
    ensures forall s :: arg == Some(Str(s)) ==> r == Some(s)
  {
    if arg.None? || arg.value.Null? then None else Some(AsString(arg.value))
  }

  /** A given, non-empty company name longer than the limit, counted in
      UTF-16 code units as the `length` of a string is. */
  predicate NameTooLong(name: Option<string>) {
    name.Some? && name.value != [] && Utf16Length(name.value) > MAX_COMPANY_NAME_LENGTH
  }

  /** `validateSearchArgs`: the name check first, then the business type,
      then the status; the first failing check decides the error. */
  function ValidateSearchArgs(args: SearchArgs): (r: Result<ValidatedSearchArgs, Error>)
    ensures var name := Provided(args.companyName);
      var businessType := Provided(args.businessType).UnwrapOr(ALL);
      var status := Provided(args.status).UnwrapOr(ALL);
      && (r.Success? <==>
            !NameTooLong(name) && businessType in VALID_BUSINESS_TYPES && status in VALID_STATUSES)
      && (r == Failure(CompanyNameTooLong) <==> NameTooLong(name))
      && (r.Failure? && r.error.InvalidBusinessType? <==>
            !NameTooLong(name) && businessType !in VALID_BUSINESS_TYPES)
      && (r.Failure? && r.error.InvalidBusinessType? ==> r.error.value == businessType)
      && (r.Failure? && r.error.InvalidStatus? <==>
            !NameTooLong(name) && businessType in VALID_BUSINESS_TYPES && status !in VALID_STATUSES)
      && (r.Failure? && r.error.InvalidStatus? ==> r.error.value == status)
    ensures r.Success? ==>
      && r.value.companyName == Provided(args.companyName)
      && r.value.businessType == Provided(args.businessType).UnwrapOr(ALL)
      && r.value.status == Provided(args.status).UnwrapOr(ALL)
      && r.value.businessType in VALID_BUSINESS_TYPES
      && r.value.status in VALID_STATUSES
      && (r.value.refresh <==> args.refresh == Some(Bool(true)))
  {
    var name := Provided(args.companyName);
    if name.Some? && name.value != [] && Utf16Length(name.value) > MAX_COMPANY_NAME_LENGTH then
      Failure(CompanyNameTooLong)
    else
      var businessType := if args.businessType.Some? && !args.businessType.value.Null?
        then AsString(args.businessType.value) else ALL;
      if businessType !in VALID_BUSINESS_TYPES then Failure(InvalidBusinessType(businessType))
      else
        var status := if args.status.Some? && !args.status.value.Null?
          then AsString(args.status.value) else ALL;
        if status !in VALID_STATUSES then Failure(InvalidStatus(status))
        else
          Success(ValidatedSearchArgs(name, businessType, status, args.refresh == Some(Bool(true))))
  }

  /** The arguments record that states a validated result explicitly. */
  function Restate(v: ValidatedSearchArgs): SearchArgs {
    SearchArgs(
      if v.companyName.Some? then Some(Str(v.companyName.value)) else None,
      Some(Str(v.businessType)), Some(Str(v.status)), Some(Bool(v.refresh)))
  }

  /** Validation is idempotent: validating the explicit form of a validated
      result gives that result back. */
  lemma RevalidateIsIdentity(args: SearchArgs)
    requires ValidateSearchArgs(args).Success?
    ensures ValidateSearchArgs(Restate(ValidateSearchArgs(args).value)) == ValidateSearchArgs(args)
  {
    var v := ValidateSearchArgs(args).value;
    assert Provided(Restate(v).companyName) == v.companyName;
    assert Provided(Restate(v).businessType) == Some(v.businessType);
    assert Provided(Restate(v).status) == Some(v.status);
  }

  /** With nothing given every default applies. */
  lemma EmptyArgumentsDefault()
    ensures ValidateSearchArgs(SearchArgs(None, None, None, None))
      == Success(ValidatedSearchArgs(None, ALL, ALL, false))
  {
  }

  /** An explicit null is the same as an absent key. */
  lemma NullIsAbsent(args: SearchArgs)
    ensures ValidateSearchArgs(args.(companyName := Some(Null)))
      == ValidateSearchArgs(args.(companyName := None))
    ensures ValidateSearchArgs(args.(businessType := Some(Null)))
      == ValidateSearchArgs(args.(businessType := None))
    ensures ValidateSearchArgs(args.(status := Some(Null)))
      == ValidateSearchArgs(args.(status := None))
  {
  }

  /** The length limit is inclusive: a name of at most 100 code units passes
      the name check and one of 101 is refused, whatever else is given. */
  lemma NameLengthBoundary(args: SearchArgs, name: string)
    requires forall k | 0 <= k < |name| :: name[k] as int <= 0xFFFF
    ensures |name| <= MAX_COMPANY_NAME_LENGTH ==>
      ValidateSearchArgs(args.(companyName := Some(Str(name)))) != Failure(CompanyNameTooLong)
    ensures |name| == MAX_COMPANY_NAME_LENGTH + 1 ==>
      ValidateSearchArgs(args.(companyName := Some(Str(name)))) == Failure(CompanyNameTooLong)
  {
  }

  /** A number given as the company name is searched for as its decimal
      text, and refused only when that text is over the length limit. */
  lemma NumberNameIsDecimal(n: int)
    ensures var r := ValidateSearchArgs(SearchArgs(Some(Num(n)), None, None, None));
      && (r.Success? <==> Utf16Length(IntToDecimal(n)) <= MAX_COMPANY_NAME_LENGTH)
      && (r.Success? ==> r.value == ValidatedSearchArgs(Some(IntToDecimal(n)), ALL, ALL, false))
  {
  }

  /** Only the boolean `true` requests a refresh; the text "true" does not. */
  lemma RefreshNeedsBooleanTrue(args: SearchArgs)
    requires ValidateSearchArgs(args).Success?
    ensures ValidateSearchArgs(args.(refresh := Some(Bool(true)))).value.refresh
    ensures !ValidateSearchArgs(args.(refresh := Some(Str("true")))).value.refresh
  {
  }

  /** An accepted type or status that actually restricts names a real
      business type or status of a company. */
  lemma AcceptedFiltersAreLabels(args: SearchArgs)
    requires ValidateSearchArgs(args).Success?
    ensures var v := ValidateSearchArgs(args).value;
      && (v.businessType != ALL ==> exists t: BusinessType :: t.Label() == v.businessType)
      && (v.status != ALL ==> exists s: Status :: s.Label() == v.status)
  {
    var v := ValidateSearchArgs(args).value;
    BusinessTypeTables();
    if v.businessType != ALL {
      var t := BusinessTypeOf(v.businessType).value;
      assert t.Label() == v.businessType;
    }
    if v.status != ALL {
      if v.status == Registered.Label() {
        assert Registered.Label() == v.status;
      } else {
        assert Cancelled.Label() == v.status;
      }
    }
  }
}
