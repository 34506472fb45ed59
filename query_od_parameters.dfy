/** The decoding of the origin-destination query parameters of
    query_od_parameters.py. Dates are ordinal day numbers (only their order is
    used); the H3 library's text-to-cell conversion and resolution query are
    parameters. */
module QueryOdParameters {
  import opened Wrappers
  import opened Text

  /** The two ways decoding fails: an `HTTPException` with a status code and
      detail text, or a `KeyError` for a token the lookup table lacks. */
  datatype ParameterError = HttpError(statusCode: int, detail: string) | KeyError(key: string)

  /** The decoded filter criteria; each list holds a sentinel when its
      `dontFilterOn...` flag is set. */
  datatype QueryOdParameters = QueryOdParameters(
    startDate: int,
    endDate: int,
    modalities: seq<string>,
    dontFilterOnModality: bool,
    daysOfWeek: seq<int>,
    dontFilterOnDaysOfWeek: bool,
    timePeriods: seq<int>,
    dontFilterOnTimePeriods: bool)

  /** Python truthiness of an optional text parameter: present and non-empty. */
  predicate Given(param: Option<string>)
  {
    param.Some? && param.value != ""
  }

  /** The weekday table: "mo" ... "su" to ISO 8601 day numbers 1 ... 7. */
  function DayNumber(token: string): Option<int>
  {
    match token
    case "mo" => Some(1)
    case "tu" => Some(2)
    case "we" => Some(3)
    case "th" => Some(4)
    case "fr" => Some(5)
    case "sa" => Some(6)
    case "su" => Some(7)
    case _ => None
  }

  /** The label of an ISO 8601 day number. */
  function DayLabel(n: int): string
    requires 1 <= n <= 7
  {
    ["mo", "tu", "we", "th", "fr", "sa", "su"][n - 1]
  }

  /** The weekday table is a bijection between the seven labels and 1 ... 7. */
  lemma DayTableIsBijection(token: string, n: int)
    ensures DayNumber(token) == Some(n) <==> 1 <= n <= 7 && token == DayLabel(n)
  {
  }

  /** The time-period table: each four-hour bucket label to its start hour. */
  function PeriodStart(token: string): Option<int>
  {
    match token
    case "2-6" => Some(2)
    case "6-10" => Some(6)
    case "10-14" => Some(10)
    case "14-18" => Some(14)
    case "18-22" => Some(18)
    case "22-2" => Some(22)
    case _ => None
  }

  predicate IsPeriodStart(h: int)
  {
    h == 2 || h == 6 || h == 10 || h == 14 || h == 18 || h == 22
  }

  /** The label of the bucket starting at hour `h`: `h` to `h + 4` modulo 24. */
  function PeriodLabel(h: int): string
    requires IsPeriodStart(h)
  {
    match h
    case 2 => "2-6"
    case 6 => "6-10"
    case 10 => "10-14"
    case 14 => "14-18"
    case 18 => "18-22"
    case 22 => "22-2"
  }

  /** The time-period table is a bijection between the six labels and the six start hours. */
  lemma PeriodTableIsBijection(token: string, h: int)
    ensures PeriodStart(token) == Some(h) <==> IsPeriodStart(h) && token == PeriodLabel(h)
  {
  }

  /** `[table[t] for t in tokens]`: every token looked up in order; the first
      token missing from the table raises `KeyError`. */
  function LookUpAll(tokens: seq<string>, table: string -> Option<int>): (r: Result<seq<int>, ParameterError>)
    ensures r.Success? <==> forall i :: 0 <= i < |tokens| ==> table(tokens[i]).Some?
    ensures r.Success? ==> |r.value| == |tokens| && forall i :: 0 <= i < |tokens| ==> table(tokens[i]) == Some(r.value[i])
    ensures r.Failure? ==> r.error.KeyError? && r.error.key in tokens && table(r.error.key).None?
  {
    if tokens == [] then Success([])
    else
      match table(tokens[0])
      case None => Failure(KeyError(tokens[0]))
      case Some(v) =>
        var rest :- LookUpAll(tokens[1..], table);
        Success([v] + rest)
  }

  /** `convert_days_of_week`: the comma-separated labels as day numbers, in
      order and with repetitions; any other token, the empty one included, is
      a `KeyError`. */
  function ConvertDaysOfWeek(daysOfWeek: string): (r: Result<seq<int>, ParameterError>)
    ensures var tokens := Split(daysOfWeek, ',');
      && (r.Success? <==> forall i :: 0 <= i < |tokens| ==> DayNumber(tokens[i]).Some?)
      && (r.Success? ==> |r.value| == |tokens| &&
                         forall i :: 0 <= i < |tokens| ==> 1 <= r.value[i] <= 7 && DayLabel(r.value[i]) == tokens[i])
      && (r.Failure? ==> r.error.KeyError? && r.error.key in tokens)
  {
    var r := LookUpAll(Split(daysOfWeek, ','), DayNumber);
    assert r.Success? ==> forall i :: 0 <= i < |r.value| ==> DayNumber(Split(daysOfWeek, ',')[i]) == Some(r.value[i]);
    r
  }

  /** `convert_time_periods`: the comma-separated bucket labels as start
      hours, in order; an unknown token is a `KeyError`. */
  function ConvertTimePeriods(timePeriods: string): (r: Result<seq<int>, ParameterError>)
    ensures var tokens := Split(timePeriods, ',');
      && (r.Success? <==> forall i :: 0 <= i < |tokens| ==> PeriodStart(tokens[i]).Some?)
      && (r.Success? ==> |r.value| == |tokens| &&
                         forall i :: 0 <= i < |tokens| ==> IsPeriodStart(r.value[i]) && PeriodLabel(r.value[i]) == tokens[i])
      && (r.Failure? ==> r.error.KeyError? && r.error.key in tokens)
  {
    var r := LookUpAll(Split(timePeriods, ','), PeriodStart);
    assert r.Success? ==> forall i :: 0 <= i < |r.value| ==> PeriodStart(Split(timePeriods, ',')[i]) == Some(r.value[i]);
    r
  }

  function DayLabels(days: seq<int>): (labels: seq<string>)
    requires forall i :: 0 <= i < |days| ==> 1 <= days[i] <= 7
    ensures |labels| == |days| && forall i :: 0 <= i < |days| ==> labels[i] == DayLabel(days[i])
  {
    seq(|days|, i requires 0 <= i < |days| => DayLabel(days[i]))
  }

  /** Looking up tokens whose table values are known gives those values. */
  lemma {:induction false} LookUpAllKnown(tokens: seq<string>, table: string -> Option<int>, values: seq<int>)
    requires |tokens| == |values| && forall i :: 0 <= i < |tokens| ==> table(tokens[i]) == Some(values[i])
    ensures LookUpAll(tokens, table) == Success(values)
  {
    if tokens != [] {
      LookUpAllKnown(tokens[1..], table, values[1..]);
      assert values == [values[0]] + values[1..];
    }
  }

  lemma DayLabelDecodes(n: int)
    requires 1 <= n <= 7
    ensures DayNumber(DayLabel(n)) == Some(n) && ',' !in DayLabel(n)
  {
  }

  /** Encoding day numbers as a comma list and decoding it gives them back. */
  lemma DaysOfWeekRoundTrip(days: seq<int>)
    requires |days| >= 1 && forall i :: 0 <= i < |days| ==> 1 <= days[i] <= 7
    ensures ConvertDaysOfWeek(Join(DayLabels(days), ',')) == Success(days)
  {
    var labels := DayLabels(days);
    forall i | 0 <= i < |labels| ensures ',' !in labels[i] && DayNumber(labels[i]) == Some(days[i]) {
      DayLabelDecodes(days[i]);
    }
    SplitJoin(labels, ',');
    LookUpAllKnown(labels, DayNumber, days);
  }

  function PeriodLabels(starts: seq<int>): (labels: seq<string>)
    requires forall i :: 0 <= i < |starts| ==> IsPeriodStart(starts[i])
    ensures |labels| == |starts| && forall i :: 0 <= i < |starts| ==> labels[i] == PeriodLabel(starts[i])
  {
    seq(|starts|, i requires 0 <= i < |starts| => PeriodLabel(starts[i]))
  }

  lemma PeriodLabelDecodes(h: int)
    requires IsPeriodStart(h)
    ensures PeriodStart(PeriodLabel(h)) == Some(h) && ',' !in PeriodLabel(h)
  {
  }

  /** Encoding start hours as a comma list and decoding it gives them back. */
  lemma TimePeriodsRoundTrip(starts: seq<int>)
    requires |starts| >= 1 && forall i :: 0 <= i < |starts| ==> IsPeriodStart(starts[i])
    ensures ConvertTimePeriods(Join(PeriodLabels(starts), ',')) == Success(starts)
  {
    var labels := PeriodLabels(starts);
    forall i | 0 <= i < |labels| ensures ',' !in labels[i] && PeriodStart(labels[i]) == Some(starts[i]) {
      PeriodLabelDecodes(starts[i]);
    }
    SplitJoin(labels, ',');
    LookUpAllKnown(labels, PeriodStart, starts);
  }

  /** A trailing comma leaves an empty last token, which is no weekday. */
  lemma TrailingCommaRejected()
    ensures ConvertDaysOfWeek("mo,").Failure?
  {
    assert "mo," == "mo" + [','] + "";
    SplitAfterField("mo", ',', "");
    assert Split("mo,", ',') == ["mo", ""];
    assert DayNumber("") == None;
  }

  /** `prepare_query`: a start after the end is refused with status 422; each
      filter left out (absent or empty) becomes its sentinel with the
      `dontFilterOn...` flag set; a given one is decoded and the flag cleared.
      Modalities are split on commas without further checks. */
  function PrepareQuery(startDate: int, endDate: int, daysOfWeek: Option<string>, timePeriods: Option<string>, modalities: Option<string>)
    : (r: Result<QueryOdParameters, ParameterError>)
    ensures startDate > endDate <==> r == Failure(HttpError(422, "start_date is after end_date"))
    ensures startDate <= endDate ==>
      (r.Success? <==> (!Given(daysOfWeek) || ConvertDaysOfWeek(daysOfWeek.value).Success?) &&
                       (!Given(timePeriods) || ConvertTimePeriods(timePeriods.value).Success?))
    ensures r.Success? ==>
      && r.value.startDate == startDate && r.value.endDate == endDate
      && r.value.dontFilterOnDaysOfWeek == !Given(daysOfWeek)
      && r.value.dontFilterOnTimePeriods == !Given(timePeriods)
      && r.value.dontFilterOnModality == !Given(modalities)
      && r.value.daysOfWeek == (if Given(daysOfWeek) then ConvertDaysOfWeek(daysOfWeek.value).value else [-1])
      && r.value.timePeriods == (if Given(timePeriods) then ConvertTimePeriods(timePeriods.value).value else [-1])
      && r.value.modalities == (if Given(modalities) then Split(modalities.value, ',') else ["undefined"])
    ensures startDate <= endDate && Given(daysOfWeek) && ConvertDaysOfWeek(daysOfWeek.value).Failure? ==>
      r == Failure(ConvertDaysOfWeek(daysOfWeek.value).error)
    ensures startDate <= endDate && (!Given(daysOfWeek) || ConvertDaysOfWeek(daysOfWeek.value).Success?) &&
            Given(timePeriods) && ConvertTimePeriods(timePeriods.value).Failure? ==>
      r == Failure(ConvertTimePeriods(timePeriods.value).error)
  {
    if startDate > endDate then Failure(HttpError(422, "start_date is after end_date"))
    else
      var queryDaysOfWeek :- if Given(daysOfWeek) then ConvertDaysOfWeek(daysOfWeek.value) else Success([-1]);
      var queryTimePeriods :- if Given(timePeriods) then ConvertTimePeriods(timePeriods.value) else Success([-1]);
      var queryModalities := if Given(modalities) then Split(modalities.value, ',') else ["undefined"];
      Success(QueryOdParameters(
        startDate, endDate,
        queryModalities, !Given(modalities),
        queryDaysOfWeek, !Given(daysOfWeek),
        queryTimePeriods, !Given(timePeriods)))
  }

  /** With no filters and ordered dates, every flag is set and every list is its sentinel. */
  lemma NoFiltersGiveSentinels(startDate: int, endDate: int)
    requires startDate <= endDate
    ensures PrepareQuery(startDate, endDate, None, None, Some("")) ==
      Success(QueryOdParameters(startDate, endDate, ["undefined"], true, [-1], true, [-1], true))
  {
  }

  /** Every cell token is at the given resolution. */
  predicate AllAtResolution(tokens: seq<string>, h3Resolution: int, resolutionOf: string -> int)
  {
    forall i :: 0 <= i < |tokens| ==> resolutionOf(tokens[i]) == h3Resolution
  }

  /** `convert_h3_cells`: no parameter gives no cells; otherwise every
      comma-separated cell is converted in order, and one whose resolution is
      not `h3Resolution` is refused with status 422. */
  method ConvertH3Cells(cells: Option<string>, h3Resolution: int, stringToH3: string -> int, resolutionOf: string -> int)
    returns (r: Result<seq<int>, ParameterError>)
    ensures cells.None? ==> r == Success([])
    ensures cells.Some? ==>
      var tokens := Split(cells.value, ',');
      && (r.Success? <==> AllAtResolution(tokens, h3Resolution, resolutionOf))
      && (r.Success? ==> |r.value| == |tokens| && forall i :: 0 <= i < |tokens| ==> r.value[i] == stringToH3(tokens[i]))
      && (r.Failure? ==> r.error == HttpError(422, "h3_level doesn't match with origin and destination cells."))
  {
    if cells.None? {
      return Success([]);
    }
    var tokens := Split(cells.value, ',');
    var result: seq<int> := [];
    var k := 0;
    while k < |tokens|
      invariant 0 <= k <= |tokens|
      invariant |result| == k
      invariant forall i :: 0 <= i < k ==> result[i] == stringToH3(tokens[i])
      invariant forall i :: 0 <= i < k ==> resolutionOf(tokens[i]) == h3Resolution
    {
      var h3Cell := stringToH3(tokens[k]);
      if resolutionOf(tokens[k]) != h3Resolution {
        assert !AllAtResolution(tokens, h3Resolution, resolutionOf);
        return Failure(HttpError(422, "h3_level doesn't match with origin and destination cells."));
      }
      result := result + [h3Cell];
      k := k + 1;
    }
    return Success(result);
  }
}
