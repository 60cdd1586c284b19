/**
 * Query-string helpers of the API (gadm-api/main/url-utils.go; the older
 * gadm-api/url-utils.go holds identical copies of
 * getFilterUrlQueryParameterForFilterableColumnName, getSqlFilterParamsFromUrl
 * and expectIntParamInQuery, modelled by the same members).
 *
 * A request's query is its `url.Values`, a map from key to the list of values.
 * Integer parsing (`strconv.Atoi`) is the parameter `atoi`; `fmt.Sprintf("%d")`
 * is FormatInt.
 */
module UrlUtils {
  import opened Wrappers

  type Values = map<string, seq<string>>

  /** `url.Values.Get`: the first value for `key`, or "" when there is none. */
  function Get(values: Values, key: string): string
  {
    if key in values && |values[key]| > 0 then values[key][0] else ""
  }

  datatype SqlFilterParams = SqlFilterParams(FilterColName: string, FilterVal: string)
  datatype QueryParam = QueryParam(Key: string, Value: string)
  datatype PaginationParams = PaginationParams(Limit: int, StartAtFid: int)

  datatype UrlError =
    | UnsupportedFilterableColumnName(colName: string)
    | InvalidParameter(paramName: string)
    | FailedToParseQueryParameter(paramName: string, cause: UrlError)
    | FilterQueryParameterUnavailable(colName: string, cause: UrlError)

  const PageSizeQueryKey: string := "page-size"
  const StartAtQueryKey: string := "start-at"

  /**
   * `getFilterUrlQueryParameterForFilterableColumnName`: the columns gid_0 to
   * gid_5 are filtered through the URL parameters gid-0 to gid-5.
   */
  function GetFilterUrlQueryParameterForFilterableColumnName(filterableColName: string): (r: Result<string, UrlError>)
    ensures r.Success? <==>
      |filterableColName| == 5 && filterableColName[..4] == "gid_" && '0' <= filterableColName[4] <= '5'
    ensures r.Success? ==> r.value == "gid-" + [filterableColName[4]]
    ensures r.Failure? ==> r.error == UnsupportedFilterableColumnName(filterableColName)
  {
    var c := filterableColName;
    assert |c| == 5 && c[..4] == "gid_" ==> c == "gid_" + [c[4]];
    if c == "gid_0" then Success("gid-0")
    else if c == "gid_1" then Success("gid-1")
    else if c == "gid_2" then Success("gid-2")
    else if c == "gid_3" then Success("gid-3")
    else if c == "gid_4" then Success("gid-4")
    else if c == "gid_5" then Success("gid-5")
    else Failure(UnsupportedFilterableColumnName(c))
  }

  /** Distinct supported columns are filtered through distinct URL parameters. */
  lemma FilterParameterInjective(a: string, b: string)
    requires GetFilterUrlQueryParameterForFilterableColumnName(a).Success?
    requires GetFilterUrlQueryParameterForFilterableColumnName(b).Success?
    requires GetFilterUrlQueryParameterForFilterableColumnName(a) == GetFilterUrlQueryParameterForFilterableColumnName(b)
    ensures a == b
  {
    assert ("gid-" + [a[4]])[4] == a[4];
    assert ("gid-" + [b[4]])[4] == b[4];
    assert a == a[..4] + [a[4]];
    assert b == b[..4] + [b[4]];
  }

  /** The empty name and any name outside gid_0..gid_5 are unsupported. */
  lemma UnsupportedColumnNames(name: string)
    requires name == "" || name == "gid_6" || name == "GID_0" || name == "gid-0"
    ensures GetFilterUrlQueryParameterForFilterableColumnName(name) == Failure(UnsupportedFilterableColumnName(name))
  {
    if name == "GID_0" {
      assert name[..4] != "gid_" by { assert name[0] != "gid_"[0]; }
    } else if name == "gid-0" {
      assert name[..4] != "gid_" by { assert name[3] != "gid_"[3]; }
    }
  }

  /** A column selects a filter when it is supported and its URL parameter has a non-empty value. */
  predicate Matches(colName: string, urlValues: Values)
  {
    var p := GetFilterUrlQueryParameterForFilterableColumnName(colName);
    p.Success? && Get(urlValues, p.value) != ""
  }

  /**
   * `getSqlFilterParamsFromUrl`: the first listed column whose URL parameter
   * has a non-empty value, with that value; unsupported names are skipped; the
   * empty filter when nothing matches.
   */
  method GetSqlFilterParamsFromUrl(filterableColNames: seq<string>, urlValues: Values) returns (result: SqlFilterParams)
    ensures result.FilterColName == "" <==> forall i :: 0 <= i < |filterableColNames| ==> !Matches(filterableColNames[i], urlValues)
    ensures result.FilterColName == "" ==> result.FilterVal == ""
    ensures result.FilterColName != "" ==>
      exists i ::
        && 0 <= i < |filterableColNames|
        && (forall j :: 0 <= j < i ==> !Matches(filterableColNames[j], urlValues))
        && Matches(filterableColNames[i], urlValues)
        && result.FilterColName == filterableColNames[i]
        && result.FilterVal == Get(urlValues, GetFilterUrlQueryParameterForFilterableColumnName(filterableColNames[i]).value)
    ensures result.FilterVal != "" <==> result.FilterColName != ""
  {
    result := SqlFilterParams("", "");
    var i := 0;
    while i < |filterableColNames|
      invariant 0 <= i <= |filterableColNames|
      invariant forall j :: 0 <= j < i ==> !Matches(filterableColNames[j], urlValues)
      invariant result == SqlFilterParams("", "")
    {
      var filterColName := filterableColNames[i];
      var filterUrlParamName := GetFilterUrlQueryParameterForFilterableColumnName(filterColName);
      if filterUrlParamName.Failure? {
        i := i + 1;
        continue;
      }
      var paramStrVal := Get(urlValues, filterUrlParamName.value);
      if paramStrVal != "" {
        result := SqlFilterParams(filterColName, paramStrVal);
        return;
      }
      i := i + 1;
    }
  }

  /**
   * `expectIntParamInQuery`: the parsed value of the parameter; when it does
   * not parse, the first default if one is given, otherwise an error.
   */
  function ExpectIntParamInQuery(query: Values, paramName: string, atoi: string -> Option<int>, defaultValue: seq<int>): (r: Result<int, UrlError>)
    ensures |defaultValue| > 0 ==> r.Success?
    ensures r.Failure? <==> defaultValue == [] && atoi(Get(query, paramName)).None?
    ensures r.Failure? ==> r.error == InvalidParameter(paramName)
    ensures r.Success? ==> r.value == match atoi(Get(query, paramName))
      case Some(v) => v
      case None => defaultValue[0]
  {
    match atoi(Get(query, paramName))
    case Some(value) => Success(value)
    case None =>
      if |defaultValue| > 0 then Success(defaultValue[0])
      else Failure(InvalidParameter(paramName))
  }

  /** `getPaginationParams`: page size and start fid, each falling back to -1. */
  function GetPaginationParams(query: Values, atoi: string -> Option<int>): (r: Result<PaginationParams, UrlError>)
    ensures r.Success?
    ensures r.value.Limit == atoi(Get(query, PageSizeQueryKey)).GetOr(-1)
    ensures r.value.StartAtFid == atoi(Get(query, StartAtQueryKey)).GetOr(-1)
  {
    match ExpectIntParamInQuery(query, PageSizeQueryKey, atoi, [-1])
    case Failure(e) => Failure(FailedToParseQueryParameter("take", e))
    case Success(pageSize) =>
      match ExpectIntParamInQuery(query, StartAtQueryKey, atoi, [-1])
      case Failure(e) => Failure(FailedToParseQueryParameter(StartAtQueryKey, e))
      case Success(startAtFid) => Success(PaginationParams(pageSize, startAtFid))
  }

  function DigitChar(d: nat): char
    requires d < 10
  {
    "0123456789"[d]
  }

  function FormatNat(n: nat): (s: string)
    ensures |s| > 0 && forall i :: 0 <= i < |s| ==> '0' <= s[i] <= '9'
    decreases n
  {
    if n < 10 then [DigitChar(n)] else FormatNat(n / 10) + [DigitChar(n % 10)]
  }

  /** `fmt.Sprintf("%d", n)`: decimal digits, with a leading '-' for a negative number. */
  function FormatInt(n: int): (s: string)
    ensures |s| > 0
    ensures (s[0] == '-') <==> n < 0
    ensures forall i :: (if n < 0 then 1 else 0) <= i < |s| ==> '0' <= s[i] <= '9'
  {
    if n < 0 then "-" + FormatNat(-n) else FormatNat(n)
  }

  /**
   * `getNextPageUrlQueryParams`: page-size, start-at and the filter's URL
   * parameter, in that order; an error when the filter column is unsupported,
   * which includes the empty filter.
   */
  function GetNextPageUrlQueryParams(nextStartAtFid: int, pageSize: int, filterParams: SqlFilterParams): (r: Result<seq<QueryParam>, UrlError>)
    ensures r.Success? <==> GetFilterUrlQueryParameterForFilterableColumnName(filterParams.FilterColName).Success?
    ensures r.Success? ==> r.value == [
      QueryParam(PageSizeQueryKey, FormatInt(pageSize)),
      QueryParam(StartAtQueryKey, FormatInt(nextStartAtFid)),
      QueryParam("gid-" + [filterParams.FilterColName[4]], filterParams.FilterVal)]
  {
    var nextUrlQueryParams := [
      QueryParam(PageSizeQueryKey, FormatInt(pageSize)),
      QueryParam(StartAtQueryKey, FormatInt(nextStartAtFid))];
    match GetFilterUrlQueryParameterForFilterableColumnName(filterParams.FilterColName)
    case Success(nextFilterQueryParamColName) =>
      Success(nextUrlQueryParams + [QueryParam(nextFilterQueryParamColName, filterParams.FilterVal)])
    case Failure(err) =>
      Failure(FilterQueryParameterUnavailable(filterParams.FilterColName, err))
  }

  /** As written, a page without a filter gets no next-page parameters at all. */
  lemma NextPageWithoutFilterFails(nextStartAtFid: int, pageSize: int)
    ensures GetNextPageUrlQueryParams(nextStartAtFid, pageSize, SqlFilterParams("", "")).Failure?
  {
  }

  /**
   * The next-page parameters as the rest of the code base treats the empty
   * filter column (no filter): page-size and start-at alone.
   */
  function NextPageUrlQueryParamsIntended(nextStartAtFid: int, pageSize: int, filterParams: SqlFilterParams): (r: Result<seq<QueryParam>, UrlError>)
    ensures r.Success? <==> (filterParams.FilterColName == ""
      || GetFilterUrlQueryParameterForFilterableColumnName(filterParams.FilterColName).Success?)
    ensures r.Success? ==> 2 <= |r.value| <= 3 && r.value[..2] == [
      QueryParam(PageSizeQueryKey, FormatInt(pageSize)),
      QueryParam(StartAtQueryKey, FormatInt(nextStartAtFid))]
    ensures r.Success? ==> (|r.value| == 3 <==> filterParams.FilterColName != "")
    ensures r.Success? && |r.value| == 3 ==>
      r.value[2] == QueryParam("gid-" + [filterParams.FilterColName[4]], filterParams.FilterVal)
  {
    if filterParams.FilterColName == "" then
      Success([
        QueryParam(PageSizeQueryKey, FormatInt(pageSize)),
        QueryParam(StartAtQueryKey, FormatInt(nextStartAtFid))])
    else GetNextPageUrlQueryParams(nextStartAtFid, pageSize, filterParams)
  }

  /** Wherever the code as written succeeds, the intended version gives the same parameters. */
  lemma IntendedAgreesWhereWrittenSucceeds(nextStartAtFid: int, pageSize: int, filterParams: SqlFilterParams)
    requires GetNextPageUrlQueryParams(nextStartAtFid, pageSize, filterParams).Success?
    ensures NextPageUrlQueryParamsIntended(nextStartAtFid, pageSize, filterParams)
      == GetNextPageUrlQueryParams(nextStartAtFid, pageSize, filterParams)
  {
  }

  /**
   * Every filter that GetSqlFilterParamsFromUrl can return (none, or a matched
   * supported column) gets its next-page parameters from the intended version:
   * page-size and start-at, then the filter's gid-k parameter exactly when
   * there is a filter.
   */
  lemma IntendedNextPageAlwaysSucceeds(nextStartAtFid: int, pageSize: int, filterableColNames: seq<string>, urlValues: Values, filterParams: SqlFilterParams)
    requires filterParams == SqlFilterParams("", "") ||
      exists i :: 0 <= i < |filterableColNames| && Matches(filterableColNames[i], urlValues)
        && filterParams.FilterColName == filterableColNames[i]
    ensures var r := NextPageUrlQueryParamsIntended(nextStartAtFid, pageSize, filterParams);
      var pages := [QueryParam(PageSizeQueryKey, FormatInt(pageSize)), QueryParam(StartAtQueryKey, FormatInt(nextStartAtFid))];
      && r.Success?
      && r.value == if filterParams.FilterColName == "" then pages
        else pages + [QueryParam("gid-" + [filterParams.FilterColName[4]], filterParams.FilterVal)]
  {
  }
}
