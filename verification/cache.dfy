/** The in-memory single-slot cache and the collection pipeline behind it.
    The slot is either empty or holds the last snapshot; the clock reading
    and every collaborator that performs I/O are passed in. */
module Cache {
  import opened Wrappers
  import opened Text
  import opened Types
  import opened ExcelParser
  import opened FinePortal

  /** The downloaded workbook file. */
  type Buffer = seq<bv8>

  /** What the pipeline consults besides the pure steps: the fetched notice
      page (or the failure of fetching it), the download of a URL, the
      workbook decoder, the numeric coercion of text cells, and the clock
      reading taken when the snapshot is built. */
  datatype Environment = Environment(
    pageHtml: Result<string, Error>,
    download: string -> Result<Buffer, Error>,
    readWorkbook: Buffer -> Result<Workbook, Error>,
    coerce: NumberCoercion,
    parsedAt: int)

  /** `cachedData`: nothing yet, or the snapshot of the last successful
      collection. */
  datatype CacheState = Empty | Populated(snapshot: Snapshot)

  /** The result of one `getEFinanceData` call: the slot afterwards and what
      the caller receives. */
  datatype Outcome = Outcome(state: CacheState, result: Result<Snapshot, Error>)

  /** `isCacheValid` at clock reading `now`: a snapshot is held and it is
      younger than the time-to-live, strictly. */
  predicate IsCacheValid(state: CacheState, now: int) {
    state.Populated? && now - state.snapshot.fetchedAt < CACHE_TTL_MS
  }

  /** The collection pipeline: fetch the page, extract the link, download the
      file at the extracted URL, decode it, and parse it under the extracted
      file name. The first failing step decides the error. */
  function Pipeline(env: Environment): (r: Result<Snapshot, Error>)
    ensures env.pageHtml.Failure? ==> r == Failure(env.pageHtml.error)
    ensures r.Success? ==>
      && env.pageHtml.Success?
      && ExtractExcelDownloadUrl(env.pageHtml.value).Success?
      && var link := ExtractExcelDownloadUrl(env.pageHtml.value).value;
      && env.download(link.url).Success?
      && env.readWorkbook(env.download(link.url).value).Success?
      && r == ParseWorkbook(env.readWorkbook(env.download(link.url).value).value,
                            link.fileName, env.coerce, env.parsedAt)
    ensures env.pageHtml.Success? ==>
      var link := ExtractExcelDownloadUrl(env.pageHtml.value);
      && (link.Failure? ==> r == Failure(link.error))
      && (link.Success? ==>
            var buffer := env.download(link.value.url);
            && (buffer.Failure? ==> r == Failure(buffer.error))
            && (buffer.Success? ==>
                  var wb := env.readWorkbook(buffer.value);
                  && (wb.Failure? ==> r == Failure(wb.error))
                  && (wb.Success? ==> r == ParseWorkbook(wb.value, link.value.fileName, env.coerce, env.parsedAt))))
    ensures r.Success? ==>
      r.value.fetchedAt == env.parsedAt && (r.value.registered != [] || r.value.cancelled != [])
  {
    var html :- env.pageHtml;
    var link :- ExtractExcelDownloadUrl(html);
    var buffer :- env.download(link.url);
    var wb :- env.readWorkbook(buffer);
    ParseWorkbook(wb, link.fileName, env.coerce, env.parsedAt)
  }

  /** `getEFinanceData(forceRefresh)` at clock reading `now`: a valid slot is
      answered from, unless a refresh is forced; otherwise the pipeline runs,
      and only its success replaces the slot. */
  function GetEFinanceData(state: CacheState, forceRefresh: bool, now: int, env: Environment)
    : (o: Outcome)
    ensures !forceRefresh && IsCacheValid(state, now) ==>
      o == Outcome(state, Success(state.snapshot))
    ensures forceRefresh || !IsCacheValid(state, now) ==> o.result == Pipeline(env)
    ensures o.result.Success? ==> o.state == Populated(o.result.value)
    ensures o.result.Failure? ==> o.state == state
  {
    if !forceRefresh && IsCacheValid(state, now) then Outcome(state, Success(state.snapshot))
    else
      match Pipeline(env)
      case Success(snapshot) => Outcome(Populated(snapshot), Success(snapshot))
      case Failure(e) => Outcome(state, Failure(e))
  }

  /** A hit does not consult the environment at all: any two environments
      give the same outcome. */
  lemma HitIgnoresEnvironment(state: CacheState, now: int, env1: Environment, env2: Environment)
    requires IsCacheValid(state, now)
    ensures GetEFinanceData(state, false, now, env1) == GetEFinanceData(state, false, now, env2)
  {
  }

  /** The age bound is strict: one millisecond before the time-to-live the
      snapshot is served, at the time-to-live the pipeline runs again. */
  lemma TtlBoundary(snapshot: Snapshot, env: Environment)
    ensures GetEFinanceData(Populated(snapshot), false, snapshot.fetchedAt + CACHE_TTL_MS - 1, env).result
      == Success(snapshot)
    ensures GetEFinanceData(Populated(snapshot), false, snapshot.fetchedAt + CACHE_TTL_MS, env).result
      == Pipeline(env)
  {
  }

  /** After a successful collection, a call within the time-to-live of the
      snapshot's clock reading returns that same snapshot, whatever the
      environment then is. */
  lemma CollectedThenServed(state: CacheState, forceRefresh: bool, now: int, env: Environment,
                            later: int, laterEnv: Environment)
    requires GetEFinanceData(state, forceRefresh, now, env).result.Success?
    requires later - GetEFinanceData(state, forceRefresh, now, env).result.value.fetchedAt < CACHE_TTL_MS
    ensures var first := GetEFinanceData(state, forceRefresh, now, env);
      GetEFinanceData(first.state, false, later, laterEnv) == Outcome(first.state, first.result)
  {
  }

  /** A failed collection leaves the slot as it was, so a held snapshot
      survives a failed forced refresh. */
  lemma FailureKeepsSlot(state: CacheState, forceRefresh: bool, now: int, env: Environment)
    requires Pipeline(env).Failure?
    ensures forceRefresh || !IsCacheValid(state, now) ==>
      GetEFinanceData(state, forceRefresh, now, env) == Outcome(state, Pipeline(env))
  {
  }

  /** A snapshot served or stored always came through the link check, so the
      file it was parsed from was downloaded from the portal's download
      endpoint. */
  lemma PipelineDownloadsFromPortal(env: Environment)
    requires Pipeline(env).Success?
    ensures env.pageHtml.Success?
    ensures var link := ExtractExcelDownloadUrl(env.pageHtml.value);
      link.Success? && StartsWith(link.value.url, FINE_BASE_URL + FINE_ALLOWED_PATH_PREFIX)
  {
  }
}
