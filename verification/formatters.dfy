/** The query layer over a snapshot: the combined company list, the three
    optional filters, and the counting and truncation behind the search
    report and the statistics report. The report texts themselves are
    represented by their structure. */
module Formatters {
  import opened Wrappers
  import opened Text
  import opened Types
  import opened Seqs

  // ---------------------------------------------------------------
  // Filtering
  // ---------------------------------------------------------------

  /** `getAllCompanies`: registered entries followed by cancelled ones. */
  function AllCompanies(data: Snapshot): (r: seq<Company>)
    ensures |r| == |data.registered| + |data.cancelled|
    ensures r[..|data.registered|] == data.registered && r[|data.registered|..] == data.cancelled
  {
    data.registered + data.cancelled
  }

  /** `toLowerCase`, whose Unicode case mapping is left abstract. */
  type LowerCase = string -> string

  /** A name filter restricts only when it is present and non-empty. */
  predicate NameFilterActive(name: Option<string>) {
    name.Some? && name.value != []
  }

  /** A type or status filter restricts only when it is present, non-empty
      and not "전체". */
  predicate ValueFilterActive(value: Option<string>) {
    value.Some? && value.value != [] && value.value != ALL
  }

  /** The lower-cased company name contains the lower-cased keyword. */
  predicate NameMatches(lower: LowerCase, keyword: string, c: Company) {
    Includes(lower(c.name), lower(keyword))
  }

  /** `c.업종목록.includes(businessType)`. */
  predicate HasTypeLabel(c: Company, wanted: string) {
    exists i | 0 <= i < |c.types| :: c.types[i].Label() == wanted
  }

  /** `c.상태 === status`. */
  predicate HasStatusLabel(c: Company, wanted: string) {
    c.status.Label() == wanted
  }

  /** A company passes every active filter. */
  predicate Selected(lower: LowerCase, name: Option<string>, businessType: Option<string>,
                     status: Option<string>, c: Company)
  {
    && (NameFilterActive(name) ==> NameMatches(lower, name.value, c))
    && (ValueFilterActive(businessType) ==> HasTypeLabel(c, businessType.value))
    && (ValueFilterActive(status) ==> HasStatusLabel(c, status.value))
  }

  /** The three filters as one selection function. */
  function Selection(lower: LowerCase, name: Option<string>, businessType: Option<string>,
                     status: Option<string>): Company -> bool
  {
    c => Selected(lower, name, businessType, status, c)
  }

  /** `filterCompanies`: the combined list narrowed by the name filter, then
      the type filter, then the status filter, each applied only when
      active. The result is the single order-preserving selection of the
      companies that pass every active filter. */
  function FilterCompanies(data: Snapshot, lower: LowerCase, name: Option<string>,
                           businessType: Option<string>, status: Option<string>)
    : (r: seq<Company>)
    ensures r == Filter(AllCompanies(data), Selection(lower, name, businessType, status))
    ensures forall c | c in r :: c in AllCompanies(data) && Selected(lower, name, businessType, status, c)
    ensures forall c | c in AllCompanies(data) && Selected(lower, name, businessType, status, c) :: c in r
  {
    var all := AllCompanies(data);
    var byName := FilterIf(all, NameFilterActive(name), c => NameMatches(lower, name.UnwrapOr(""), c));
    var byType := FilterIf(byName, ValueFilterActive(businessType), c => HasTypeLabel(c, businessType.UnwrapOr("")));
    var byStatus := FilterIf(byType, ValueFilterActive(status), c => HasStatusLabel(c, status.UnwrapOr("")));
    FiltersCompose(all, lower, name, businessType, status);
    byStatus
  }

  /** The step-by-step filtering of `filterCompanies` equals one filter by
      the combined selection. */
  lemma FiltersCompose(all: seq<Company>, lower: LowerCase, name: Option<string>,
                       businessType: Option<string>, status: Option<string>)
    ensures FilterIf(FilterIf(FilterIf(all, NameFilterActive(name), c => NameMatches(lower, name.UnwrapOr(""), c)),
                              ValueFilterActive(businessType), c => HasTypeLabel(c, businessType.UnwrapOr(""))),
                     ValueFilterActive(status), c => HasStatusLabel(c, status.UnwrapOr("")))
      == Filter(all, Selection(lower, name, businessType, status))
  {
    var p: Company -> bool := c => NameFilterActive(name) ==> NameMatches(lower, name.value, c);
    var q: Company -> bool := c => ValueFilterActive(businessType) ==> HasTypeLabel(c, businessType.value);
    var s: Company -> bool := c => ValueFilterActive(status) ==> HasStatusLabel(c, status.value);
    FilterIfIsFilter(all, NameFilterActive(name), c => NameMatches(lower, name.UnwrapOr(""), c), p);
    var byName := Filter(all, p);
    FilterIfIsFilter(byName, ValueFilterActive(businessType), c => HasTypeLabel(c, businessType.UnwrapOr("")), q);
    var byType := Filter(byName, q);
    FilterIfIsFilter(byType, ValueFilterActive(status), c => HasStatusLabel(c, status.UnwrapOr("")), s);
    FilterThree(all, p, q, s, Selection(lower, name, businessType, status));
  }

  /** With no active filter the result is the whole combined list. */
  lemma NoFilterKeepsAll(data: Snapshot, lower: LowerCase, name: Option<string>,
                         businessType: Option<string>, status: Option<string>)
    requires !NameFilterActive(name) && !ValueFilterActive(businessType) && !ValueFilterActive(status)
    ensures FilterCompanies(data, lower, name, businessType, status) == AllCompanies(data)
  {
    FilterAll(AllCompanies(data), Selection(lower, name, businessType, status));
  }

  /** The result keeps the combined list's order: it is the image of an
      increasing sequence of positions in that list. */
  lemma FilterKeepsOrder(data: Snapshot, lower: LowerCase, name: Option<string>,
                         businessType: Option<string>, status: Option<string>)
    ensures var all := AllCompanies(data);
      var r := FilterCompanies(data, lower, name, businessType, status);
      var s := Survivors(all, Selection(lower, name, businessType, status), 0, |all|);
      |r| == |s| && (forall k | 0 <= k < |s| :: s[k] < |all| && r[k] == all[s[k]])
      && (forall k, l | 0 <= k < l < |s| :: s[k] < s[l])
  {
    FilterIsImageOfSurvivors(AllCompanies(data), Selection(lower, name, businessType, status));
  }

  // ---------------------------------------------------------------
  // Search report
  // ---------------------------------------------------------------

  /** `types.join(", ")`. */
  function JoinLabels(types: seq<BusinessType>): (r: string)
    ensures types == [] <==> r == []
    ensures |types| == 1 ==> r == types[0].Label()
  {
    if types == [] then []
    else if |types| == 1 then types[0].Label()
    else types[0].Label() + ", " + JoinLabels(types[1..])
  }

  /** Joining grows at the end too: one more type appends the separator and
      its label. */
  lemma {:induction false} JoinLabelsSnoc(ts: seq<BusinessType>, t: BusinessType)
    requires ts != []
    ensures JoinLabels(ts + [t]) == JoinLabels(ts) + ", " + t.Label()
    decreases |ts|
  {
    if |ts| > 1 {
      assert (ts + [t])[1..] == ts[1..] + [t];
      JoinLabelsSnoc(ts[1..], t);
    } else {
      assert (ts + [t])[1..] == [t];
    }
  }

  /** The labels of a PG and prepaid company are shown as "PG, 선불". */
  lemma JoinLabelsExample()
    ensures JoinLabels([PG, Prepaid]) == "PG, 선불"
  {
    JoinLabelsSnoc([PG], Prepaid);
  }

  /** One listed company: its 1-based position, name, status, the joined
      type labels (or "-"), and the date lines that are printed. */
  datatype Entry = Entry(
    position: nat,
    name: string,
    status: string,
    typesText: string,
    registeredLine: Option<string>,
    cancelledLine: Option<string>)

  /** The structure of `formatSearchResult`: the header values, the listed
      entries, the no-match notice, and the count of unlisted matches. */
  datatype SearchReport = SearchReport(
    dataDate: string,
    count: nat,
    entries: seq<Entry>,
    noMatch: bool,
    more: Option<nat>)

  /** The entry printed for company `c` at 1-based position `position`. */
  function EntryOf(position: nat, c: Company): (e: Entry)
    ensures e.position == position && e.name == c.name && e.status == c.status.Label()
    ensures e.typesText == "-" <==> c.types == []
    ensures c.types != [] ==> e.typesText == JoinLabels(c.types)
    ensures e.registeredLine.Some? <==> c.registeredDate != []
    ensures e.cancelledLine.Some? <==> c.cancelledDate != []
    ensures e.registeredLine.Some? ==> e.registeredLine.value == c.registeredDate
    ensures e.cancelledLine.Some? ==> e.cancelledLine.value == c.cancelledDate
  {
    Entry(
      position,
      c.name,
      c.status.Label(),
      if c.types == [] then "-" else JoinLabels(c.types),
      if c.registeredDate != [] then Some(c.registeredDate) else None,
      if c.cancelledDate != [] then Some(c.cancelledDate) else None)
  }

  /** `formatSearchResult`: no matches give the notice alone; otherwise the
      first `MAX_DISPLAY` companies are listed in order, and a trailing line
      counts the rest exactly when there are more. */
  function FormatSearchResult(companies: seq<Company>, data: Snapshot): (r: SearchReport)
    ensures r.dataDate == data.dataDate && r.count == |companies|
    ensures r.noMatch <==> companies == []
    ensures r.noMatch ==> r.entries == [] && r.more == None
    ensures |r.entries| <= MAX_DISPLAY && |r.entries| <= |companies|
    ensures |r.entries| == if |companies| < MAX_DISPLAY then |companies| else MAX_DISPLAY
    ensures forall i | 0 <= i < |r.entries| :: r.entries[i] == EntryOf(i + 1, companies[i])
    ensures r.more.Some? <==> |companies| > MAX_DISPLAY
    ensures r.more.Some? ==> r.more.value + MAX_DISPLAY == |companies|
  {
    if companies == [] then SearchReport(data.dataDate, 0, [], true, None)
    else
      var display := if |companies| > MAX_DISPLAY then companies[..MAX_DISPLAY] else companies;
      var entries := seq(|display|, i requires 0 <= i < |display| => EntryOf(i + 1, display[i]));
      SearchReport(data.dataDate, |companies|, entries, false,
                   if |companies| > MAX_DISPLAY then Some(|companies| - MAX_DISPLAY) else None)
  }

  // ---------------------------------------------------------------
  // Statistics report
  // ---------------------------------------------------------------

  /** How often type `t` occurs in the type lists of `cs`. */
  function TypeCount(cs: seq<Company>, t: BusinessType): nat {
    if cs == [] then 0
    else TypeCount(cs[..|cs| - 1], t) + multiset(cs[|cs| - 1].types)[t]
  }

  /** The total length of the type lists of `cs`. */
  function TypeInstances(cs: seq<Company>): nat {
    if cs == [] then 0
    else TypeInstances(cs[..|cs| - 1]) + |cs[|cs| - 1].types|
  }

  /** The sum of a sequence of counts. */
  function Sum(xs: seq<nat>): nat {
    if xs == [] then 0 else Sum(xs[..|xs| - 1]) + xs[|xs| - 1]
  }

  /** The count of every type in declaration order. */
  function CountsByType(cs: seq<Company>): (r: seq<nat>)
    ensures |r| == |BUSINESS_TYPES|
    ensures forall k | 0 <= k < |r| :: r[k] == TypeCount(cs, BUSINESS_TYPES[k])
  {
    seq(|BUSINESS_TYPES|, k requires 0 <= k < |BUSINESS_TYPES| => TypeCount(cs, BUSINESS_TYPES[k]))
  }

  /** The sum of five counts. */
  lemma SumOfFive(xs: seq<nat>)
    requires |xs| == 5
    ensures Sum(xs) == xs[0] + xs[1] + xs[2] + xs[3] + xs[4]
  {
    assert xs[..1][..0] == [];
    assert Sum(xs[..1]) == xs[0];
    assert xs[..2][..1] == xs[..1];
    assert Sum(xs[..2]) == xs[0] + xs[1];
    assert xs[..3][..2] == xs[..2];
    assert Sum(xs[..3]) == xs[0] + xs[1] + xs[2];
    assert xs[..4][..3] == xs[..3];
    assert Sum(xs[..4]) == xs[0] + xs[1] + xs[2] + xs[3];
    assert xs[..4] == xs[..|xs| - 1];
  }

  /** A list of business types is as long as its five multiplicities add up to. */
  lemma {:induction false} MultisetOfTypes(types: seq<BusinessType>)
    ensures |types| == multiset(types)[Prepaid] + multiset(types)[Debit] + multiset(types)[PG]
                       + multiset(types)[Escrow] + multiset(types)[EBPP]
  {
    if types != [] {
      var init, x := types[..|types| - 1], types[|types| - 1];
      MultisetOfTypes(init);
      assert types == init + [x];
      assert multiset(types) == multiset(init) + multiset{x};
      match x
      case Prepaid =>
      case Debit =>
      case PG =>
      case Escrow =>
      case EBPP =>
    }
  }

  /** Adding one company's list to the counts. */
  lemma CountStep(cs: seq<Company>, i: nat, k: nat)
    requires i < |cs| && k < |BUSINESS_TYPES|
    ensures TypeCount(cs[..i + 1], BUSINESS_TYPES[k])
      == TypeCount(cs[..i], BUSINESS_TYPES[k]) + multiset(cs[i].types)[BUSINESS_TYPES[k]]
    ensures TypeInstances(cs[..i + 1]) == TypeInstances(cs[..i]) + |cs[i].types|
  {
    assert cs[..i + 1][..i] == cs[..i];
  }

  /** The per-type counts add up to the total length of the type lists:
      every listed type is one of the five. */
  lemma {:induction false} CountsAddUp(cs: seq<Company>)
    ensures Sum(CountsByType(cs)) == TypeInstances(cs)
  {
    if cs != [] {
      var i := |cs| - 1;
      var before, after, added := CountsByType(cs[..i]), CountsByType(cs), multiset(cs[i].types);
      assert cs[..i + 1] == cs;
      CountsAddUp(cs[..i]);
      SumOfFive(before);
      SumOfFive(after);
      forall k | 0 <= k < |BUSINESS_TYPES|
        ensures after[k] == before[k] + added[BUSINESS_TYPES[k]]
      {
        CountStep(cs, i, k);
      }
      CountStep(cs, i, 0);
      MultisetOfTypes(cs[i].types);
      assert Sum(after) == Sum(before) + |cs[i].types|;
    } else {
      SumOfFive(CountsByType(cs));
    }
  }

  /** The structure of `formatStatistics`: company counts and type-instance
      totals of both collections and one row per type in declaration order. */
  datatype Statistics = Statistics(
    dataDate: string,
    registeredCompanies: nat,
    cancelledCompanies: nat,
    registeredTypes: nat,
    cancelledTypes: nat,
    rows: seq<(BusinessType, nat, nat)>)

  /** The counting loop of `formatStatistics`: every type starts at zero and
      each type of each company's list adds one to its own count. */
  method CountTypes(cs: seq<Company>) returns (counts: seq<nat>)
    ensures counts == CountsByType(cs)
  {
    counts := [0, 0, 0, 0, 0];
    var i := 0;
    while i < |cs|
      invariant 0 <= i <= |cs| && |counts| == |BUSINESS_TYPES|
      invariant forall k | 0 <= k < |BUSINESS_TYPES| :: counts[k] == TypeCount(cs[..i], BUSINESS_TYPES[k])
    {
      var before := counts;
      counts := AddTypes(counts, cs[i].types);
      forall k | 0 <= k < |BUSINESS_TYPES|
        ensures counts[k] == TypeCount(cs[..i + 1], BUSINESS_TYPES[k])
      {
        CountStep(cs, i, k);
      }
      i := i + 1;
    }
    assert cs[..i] == cs;
  }

  /** The inner loop: one company's types each add one to their count. */
  method AddTypes(counts: seq<nat>, types: seq<BusinessType>) returns (r: seq<nat>)
    requires |counts| == |BUSINESS_TYPES|
    ensures |r| == |BUSINESS_TYPES|
    ensures forall k | 0 <= k < |BUSINESS_TYPES| :: r[k] == counts[k] + multiset(types)[BUSINESS_TYPES[k]]
  {
    r := counts;
    var j := 0;
    while j < |types|
      invariant 0 <= j <= |types| && |r| == |BUSINESS_TYPES|
      invariant forall k | 0 <= k < |BUSINESS_TYPES| :: r[k] == counts[k] + multiset(types[..j])[BUSINESS_TYPES[k]]
    {
      var k := types[j].Index();
      assert types[..j + 1] == types[..j] + [types[j]];
      r := r[k := r[k] + 1];
      j := j + 1;
    }
    assert types[..j] == types;
  }

  /** `formatStatistics`: the counts of both collections, their totals, and
      the per-type table. */
  method FormatStatistics(data: Snapshot) returns (r: Statistics)
    ensures r.dataDate == data.dataDate
    ensures r.registeredCompanies == |data.registered| && r.cancelledCompanies == |data.cancelled|
    ensures r.registeredTypes == TypeInstances(data.registered)
    ensures r.cancelledTypes == TypeInstances(data.cancelled)
    ensures |r.rows| == |BUSINESS_TYPES|
    ensures forall k | 0 <= k < |r.rows| ::
      r.rows[k] == (BUSINESS_TYPES[k], TypeCount(data.registered, BUSINESS_TYPES[k]),
                    TypeCount(data.cancelled, BUSINESS_TYPES[k]))
  {
    var reg := CountTypes(data.registered);
    var can := CountTypes(data.cancelled);
    CountsAddUp(data.registered);
    CountsAddUp(data.cancelled);
    var rows := seq(|BUSINESS_TYPES|, k requires 0 <= k < |BUSINESS_TYPES| =>
      (BUSINESS_TYPES[k], reg[k], can[k]));
    r := Statistics(data.dataDate, |data.registered|, |data.cancelled|, Sum(reg), Sum(can), rows);
  }
}
