/**
 * The forecast extraction of the weather app: from a parsed forecast
 * response and the current wall-clock hour, pick the samples that cover
 * tomorrow and reduce them to one `Weather` summary; and the batch loop that
 * does this for every requested city.
 */
module QueryUtils {
  import opened Optional
  import opened JavaText
  import opened ForecastJson
  import opened WeatherValue

  /** Base of the details-page link of a city. */
  const BASE_URL: string := "https://openweathermap.org/city/"

  /** Starting value of the running minimum of `temp_min`. */
  const MIN_SENTINEL: real := 1000.0

  /** Starting value of the running maximum of `temp_max`. */
  const MAX_SENTINEL: real := -1000.0

  /** Decimal places the mean wind speed is rounded to. */
  const WIND_PLACES: int := 2

  // ---------------------------------------------------------------------
  // Window selection

  /**
   * Inclusive bounds `(counterFrom, counterTo)` of the samples read for
   * tomorrow, one pair per three-hour band of the day. An hour outside
   * 0..23 matches no case and leaves both counters at 0.
   */
  function Window(hour: int): (w: (int, int))
    ensures 0 <= hour < 24 ==> w.0 == 8 - hour / 3 && w.1 == w.0 + 7
    ensures 0 <= hour < 24 ==> 1 <= w.0 && w.1 <= 15
    ensures !(0 <= hour < 24) ==> w == (0, 0)
  {
    if 0 <= hour <= 2 then (8, 15)
    else if 3 <= hour <= 5 then (7, 14)
    else if 6 <= hour <= 8 then (6, 13)
    else if 9 <= hour <= 11 then (5, 12)
    else if 12 <= hour <= 14 then (4, 11)
    else if 15 <= hour <= 17 then (3, 10)
    else if 18 <= hour <= 20 then (2, 9)
    else if 21 <= hour <= 23 then (1, 8)
    else (0, 0)
  }

  /**
   * The divisor of the means is `counterTo`, which equals the number of
   * samples in the window (8) only for the hours 21..23.
   */
  lemma DivisorIsSampleCountOnlyLateInDay(hour: int)
    requires 0 <= hour < 24
    ensures Window(hour).1 - Window(hour).0 + 1 == 8
    ensures Window(hour).1 >= 8
    ensures Window(hour).1 == 8 <==> 21 <= hour
  {
  }

  /**
   * Before 21:00 the divisor `counterTo` exceeds the 8 samples summed, so a
   * positive sum is reported as less than its mean over the window.
   */
  lemma DivisorUnderstatesMean(hour: int, sum: real)
    requires 0 <= hour < 21
    requires sum > 0.0
    ensures sum / Window(hour).1 as real < sum / 8.0
  {
    var counterTo := Window(hour).1 as real;
    assert counterTo > 8.0;
    assert sum / counterTo * counterTo == sum;
    assert sum / 8.0 * 8.0 == sum;
  }

  // ---------------------------------------------------------------------
  // Reading the samples of the window

  /** The values the loop reads from one sample, all of them present. */
  datatype Reading = Reading(
    tempMin: real,
    tempMax: real,
    humidity: real,
    id: string,
    description: string,
    windSpeed: real)

  /** The field reads of one sample; `None` when any getter would throw. */
  function ReadSample(s: Sample): Option<Reading> {
    if s.tempMin.Some? && s.tempMax.Some? && s.humidity.Some?
       && s.weather.Some? && |s.weather.value| > 0
       && s.weather.value[0].id.Some? && s.weather.value[0].description.Some?
       && s.windSpeed.Some?
    then
      Some(Reading(s.tempMin.value, s.tempMax.value, s.humidity.value,
                   s.weather.value[0].id.value, s.weather.value[0].description.value,
                   s.windSpeed.value))
    else None
  }

  /**
   * The readings of `list[lo..hi]`, in order; `None` when an index is past
   * the end of the list or a sample lacks a field (the JSONException path).
   */
  function ReadRange(list: seq<Sample>, lo: nat, hi: nat): (r: Option<seq<Reading>>)
    requires lo <= hi
    ensures r.Some? <==> (lo < hi ==> hi <= |list|) && forall k :: lo <= k < hi ==> ReadSample(list[k]).Some?
    ensures r.Some? ==> |r.value| == hi - lo && (lo < hi ==> hi <= |list|)
    ensures r.Some? ==> forall k :: 0 <= k < hi - lo ==> ReadSample(list[lo + k]) == Some(r.value[k])
    decreases hi - lo
  {
    if lo == hi then Some([])
    else
      match ReadRange(list, lo, hi - 1)
      case None => None
      case Some(rs) =>
        if hi - 1 < |list| then
          match ReadSample(list[hi - 1])
          case None => None
          case Some(reading) => Some(rs + [reading])
        else None
  }

  // ---------------------------------------------------------------------
  // What the aggregation loop computes

  function Min(a: real, b: real): real {
    if a <= b then a else b
  }

  function Max(a: real, b: real): real {
    if a >= b then a else b
  }

  /** Running minimum of `temp_min`, from `MIN_SENTINEL`, in window order. */
  function LowestMin(rs: seq<Reading>): real
    decreases |rs|
  {
    if rs == [] then MIN_SENTINEL else Min(rs[|rs| - 1].tempMin, LowestMin(rs[..|rs| - 1]))
  }

  /** Running maximum of `temp_max`, from `MAX_SENTINEL`, in window order. */
  function HighestMax(rs: seq<Reading>): real
    decreases |rs|
  {
    if rs == [] then MAX_SENTINEL else Max(rs[|rs| - 1].tempMax, HighestMax(rs[..|rs| - 1]))
  }

  function HumiditySum(rs: seq<Reading>): real
    decreases |rs|
  {
    if rs == [] then 0.0 else HumiditySum(rs[..|rs| - 1]) + rs[|rs| - 1].humidity
  }

  function WindSpeedSum(rs: seq<Reading>): real
    decreases |rs|
  {
    if rs == [] then 0.0 else WindSpeedSum(rs[..|rs| - 1]) + rs[|rs| - 1].windSpeed
  }

  /** The condition ids of the window, taken from `weather[0]` of each sample. */
  function Ids(rs: seq<Reading>): set<string> {
    set k | 0 <= k < |rs| :: rs[k].id
  }

  /** The descriptions of the window, taken from `weather[0]` of each sample. */
  function Descriptions(rs: seq<Reading>): set<string> {
    set k | 0 <= k < |rs| :: rs[k].description
  }

  /** A tally whose keys are exactly `keys`, each counted once. */
  predicate CountsOnce(tally: map<string, int>, keys: set<string>) {
    tally.Keys == keys && forall key :: key in tally ==> tally[key] == 1
  }

  /** The folded minimum is `min(1000, least temp_min of the window)`. */
  lemma {:induction false} LowestMinIsMinimum(rs: seq<Reading>)
    ensures LowestMin(rs) <= MIN_SENTINEL
    ensures forall k :: 0 <= k < |rs| ==> LowestMin(rs) <= rs[k].tempMin
    ensures LowestMin(rs) == MIN_SENTINEL || exists k :: 0 <= k < |rs| && LowestMin(rs) == rs[k].tempMin
    decreases |rs|
  {
    if rs != [] {
      var init := rs[..|rs| - 1];
      LowestMinIsMinimum(init);
      assert forall k :: 0 <= k < |init| ==> init[k] == rs[k];
    }
  }

  /** The folded maximum is `max(-1000, greatest temp_max of the window)`. */
  lemma {:induction false} HighestMaxIsMaximum(rs: seq<Reading>)
    ensures HighestMax(rs) >= MAX_SENTINEL
    ensures forall k :: 0 <= k < |rs| ==> HighestMax(rs) >= rs[k].tempMax
    ensures HighestMax(rs) == MAX_SENTINEL || exists k :: 0 <= k < |rs| && HighestMax(rs) == rs[k].tempMax
    decreases |rs|
  {
    if rs != [] {
      var init := rs[..|rs| - 1];
      HighestMaxIsMaximum(init);
      assert forall k :: 0 <= k < |init| ==> init[k] == rs[k];
    }
  }

  lemma IdsOfSnoc(rs: seq<Reading>, r: Reading)
    ensures Ids(rs + [r]) == Ids(rs) + {r.id}
    ensures Descriptions(rs + [r]) == Descriptions(rs) + {r.description}
  {
    var t := rs + [r];
    assert t[|rs|] == r;
    assert forall k :: 0 <= k < |rs| ==> t[k] == rs[k];
  }

  /** The accumulators of the loop after the last sample. */
  datatype Accumulator = Accumulator(
    minTemp: real,
    maxTemp: real,
    humiditySum: real,
    windSpeedSum: real,
    idMap: map<string, int>,
    descriptionMap: map<string, int>)

  /** `Accumulator` of the readings `rs`, as the loop leaves it. */
  predicate Accumulates(acc: Accumulator, rs: seq<Reading>) {
    && acc.minTemp == LowestMin(rs)
    && acc.maxTemp == HighestMax(rs)
    && acc.humiditySum == HumiditySum(rs)
    && acc.windSpeedSum == WindSpeedSum(rs)
    && CountsOnce(acc.idMap, Ids(rs))
    && CountsOnce(acc.descriptionMap, Descriptions(rs))
  }

  /**
   * One pass of the loop body on `sample`: the field reads in the order the
   * loop makes them, stopping with `None` at the first that throws. A count
   * read back from a tally is never used: an existing key is stored again
   * with `0 + 1`, so every count stays 1.
   */
  method AddSample(acc: Accumulator, sample: Sample, ghost rs: seq<Reading>)
    returns (next: Option<Accumulator>)
    requires Accumulates(acc, rs)
    ensures next.Some? <==> ReadSample(sample).Some?
    ensures next.Some? ==> Accumulates(next.value, rs + [ReadSample(sample).value])
  {
    var minTemp, maxTemp := acc.minTemp, acc.maxTemp;
    var humiditySum, windSpeedSum := acc.humiditySum, acc.windSpeedSum;
    var idMap, descriptionMap := acc.idMap, acc.descriptionMap;
    if sample.tempMin.None? {
      return None;
    }
    minTemp := Min(sample.tempMin.value, minTemp);
    if sample.tempMax.None? {
      return None;
    }
    maxTemp := Max(sample.tempMax.value, maxTemp);
    if sample.humidity.None? {
      return None;
    }
    humiditySum := humiditySum + sample.humidity.value;
    if sample.weather.None? || |sample.weather.value| == 0 {
      return None;
    }
    var zeroObject := sample.weather.value[0];
    if zeroObject.id.None? {
      return None;
    }
    var idObject := zeroObject.id.value;
    var countId := 0;
    if idObject in idMap {
      idMap := idMap[idObject := countId + 1];
    } else {
      idMap := idMap[idObject := 1];
    }
    if zeroObject.description.None? {
      return None;
    }
    var descriptionObject := zeroObject.description.value;
    var countDescription := 0;
    if descriptionObject in descriptionMap {
      descriptionMap := descriptionMap[descriptionObject := countDescription + 1];
    } else {
      descriptionMap := descriptionMap[descriptionObject := 1];
    }
    if sample.windSpeed.None? {
      return None;
    }
    windSpeedSum := windSpeedSum + sample.windSpeed.value;
    ghost var reading := ReadSample(sample).value;
    assert (rs + [reading])[..|rs|] == rs;
    IdsOfSnoc(rs, reading);
    next := Some(Accumulator(minTemp, maxTemp, humiditySum, windSpeedSum, idMap, descriptionMap));
  }

  /**
   * The loop over `counterFrom..counterTo`: folds the temperatures, sums
   * humidity and wind speed and tallies ids and descriptions. Returns `None`
   * when an index is past the end of `list` or a read throws.
   */
  method AccumulateWindow(list: seq<Sample>, counterFrom: nat, counterTo: nat)
    returns (acc: Option<Accumulator>)
    requires counterFrom <= counterTo
    ensures acc.Some? <==> ReadRange(list, counterFrom, counterTo + 1).Some?
    ensures acc.Some? ==> Accumulates(acc.value, ReadRange(list, counterFrom, counterTo + 1).value)
  {
    var current := Accumulator(MIN_SENTINEL, MAX_SENTINEL, 0.0, 0.0, map[], map[]);
    var i := counterFrom;
    while i <= counterTo
      invariant counterFrom <= i <= counterTo + 1
      invariant ReadRange(list, counterFrom, i).Some?
      invariant Accumulates(current, ReadRange(list, counterFrom, i).value)
    {
      if i >= |list| {
        return None;
      }
      var next := AddSample(current, list[i], ReadRange(list, counterFrom, i).value);
      if next.None? {
        return None;
      }
      current := next.value;
      i := i + 1;
    }
    acc := Some(current);
  }

  // ---------------------------------------------------------------------
  // Picking the most frequent id and description

  /** No key occurs twice among `entries`. */
  predicate DistinctKeys(entries: seq<(string, int)>) {
    forall j, k :: 0 <= j < k < |entries| ==> entries[j].0 != entries[k].0
  }

  /**
   * `HashMap.entrySet()` walked by a for-each loop: every entry of `m` once,
   * in an order the model leaves open.
   */
  method EntrySet(m: map<string, int>) returns (entries: seq<(string, int)>)
    ensures |entries| == |m| && DistinctKeys(entries)
    ensures forall k :: 0 <= k < |entries| ==> entries[k].0 in m && m[entries[k].0] == entries[k].1
    ensures forall key :: key in m ==> exists k :: 0 <= k < |entries| && entries[k].0 == key
  {
    var remaining := m.Keys;
    entries := [];
    while remaining != {}
      invariant remaining <= m.Keys
      invariant |entries| + |remaining| == |m|
      invariant DistinctKeys(entries)
      invariant forall k :: 0 <= k < |entries| ==>
                  entries[k].0 in m && m[entries[k].0] == entries[k].1 && entries[k].0 !in remaining
      invariant forall key :: key in m && key !in remaining ==>
                  exists k :: 0 <= k < |entries| && entries[k].0 == key
      decreases remaining
    {
      var key :| key in remaining;
      ghost var before := entries;
      entries := entries + [(key, m[key])];
      assert entries[|before|].0 == key;
      assert forall k :: 0 <= k < |before| ==> entries[k] == before[k];
      remaining := remaining - {key};
    }
  }

  /** `entries[k]` has the highest count and no earlier entry has it. */
  predicate IsFirstMax(entries: seq<(string, int)>, k: int) {
    && 0 <= k < |entries|
    && (forall j :: 0 <= j < |entries| ==> entries[j].1 <= entries[k].1)
    && (forall j :: 0 <= j < k ==> entries[j].1 < entries[k].1)
  }

  /**
   * The entry scan: the current best is replaced only by a strictly greater
   * count, so the result is the first entry, in iteration order, among
   * those with the highest count; `None` (Java's `null`) when there are no
   * entries.
   */
  method MaxEntry(entries: seq<(string, int)>) returns (best: Option<(string, int)>)
    ensures best.None? <==> entries == []
    ensures best.Some? ==> exists k :: IsFirstMax(entries, k) && entries[k] == best.value
  {
    best := None;
    ghost var bestIndex := -1;
    for i := 0 to |entries|
      invariant best.None? <==> i == 0
      invariant best.Some? ==> 0 <= bestIndex < i && entries[bestIndex] == best.value
      invariant best.Some? ==> forall j :: 0 <= j < i ==> entries[j].1 <= best.value.1
      invariant best.Some? ==> forall j :: 0 <= j < bestIndex ==> entries[j].1 < best.value.1
    {
      var entry := entries[i];
      if best.None? || entry.1 > best.value.1 {
        best := Some(entry);
        bestIndex := i;
      }
    }
    if best.Some? {
      assert IsFirstMax(entries, bestIndex);
    }
  }

  /** With every count equal, as the tally leaves them, the scan keeps the first entry. */
  lemma EqualCountsKeepFirstEntry(entries: seq<(string, int)>)
    requires |entries| > 0
    requires forall j :: 0 <= j < |entries| ==> entries[j].1 == 1
    ensures IsFirstMax(entries, 0)
    ensures forall k :: 0 < k < |entries| ==> !IsFirstMax(entries, k)
  {
    forall k | 0 < k < |entries|
      ensures !IsFirstMax(entries, k)
    {
      assert entries[0].1 == entries[k].1;
    }
  }

  // ---------------------------------------------------------------------
  // Rounding

  /** `(int) Math.round(x)`: the nearest integer, halves rounded up. */
  function MathRound(x: real): (r: int)
    ensures r as real - 0.5 <= x < r as real + 0.5
  {
    (x + 0.5).Floor
  }

  /** `10^n`, the number of rounding units in 1. */
  function Pow10(n: nat): (p: real)
    ensures p >= 1.0
  {
    if n == 0 then 1.0 else 10.0 * Pow10(n - 1)
  }

  /**
   * The whole number of `1 / scale` units that `value` rounds to under
   * HALF_UP: the nearest one, a tie going away from zero.
   */
  function HalfUpUnits(value: real, scale: real): (units: int)
    ensures value >= 0.0 ==> units as real - 0.5 <= value * scale < units as real + 0.5
    ensures value < 0.0 ==> units as real - 0.5 < value * scale <= units as real + 0.5
  {
    if value >= 0.0 then (value * scale + 0.5).Floor else -((-(value * scale) + 0.5).Floor)
  }

  /**
   * `round(value, places)`: BigDecimal HALF_UP rounding to `places` decimals.
   * The result is a whole number of units of `10^-places`, the one nearest
   * to `value`. A negative `places` is the IllegalArgumentException.
   */
  function RoundHalfUp(value: real, places: int): (r: Option<real>)
    ensures r.Some? <==> places >= 0
    ensures r.Some? ==> r.value * Pow10(places) == HalfUpUnits(value, Pow10(places)) as real
  {
    if places < 0 then None
    else Some(HalfUpUnits(value, Pow10(places)) as real / Pow10(places))
  }

  // ---------------------------------------------------------------------
  // Building the summary

  /** The city label `name + ", " + country`. */
  function CityLabel(name: string, country: string): (text: string)
    ensures |text| == |name| + 2 + |country|
    ensures text[..|name|] == name && text[|name|..|name| + 2] == ", "
    ensures text[|name| + 2..] == country
  {
    name + ", " + country
  }

  /** The details link `BASE_URL + cityId`; the city id can be read back from it. */
  function DetailsUrl(cityId: int): (url: string)
    ensures |url| > |BASE_URL| && url[..|BASE_URL|] == BASE_URL
    ensures url[|BASE_URL|..] == IntToString(cityId)
    ensures ParseInt(url[|BASE_URL|..]) == Some(cityId)
  {
    IntToStringRoundTrip(cityId);
    var url := BASE_URL + IntToString(cityId);
    assert url[|BASE_URL|..] == IntToString(cityId);
    url
  }

  /** The temperature text `minTemp + "/" + maxTemp`; `show` is `Double.toString`. */
  function TemperatureString(minTemp: real, maxTemp: real, show: real -> string): (text: string)
    ensures |text| == |show(minTemp)| + 1 + |show(maxTemp)|
    ensures text[..|show(minTemp)|] == show(minTemp) && text[|show(minTemp)|] == '/'
    ensures text[|show(minTemp)| + 1..] == show(maxTemp)
  {
    show(minTemp) + "/" + show(maxTemp)
  }

  /** `w` is the summary of the readings `rs` of a well-formed window ending at `counterTo`. */
  predicate DescribesWindow(w: Weather, cityId: int, name: string, country: string,
                            rs: seq<Reading>, counterTo: int, show: real -> string)
    requires counterTo > 0
  {
    && w.city == CityLabel(name, country)
    && w.temperature == TemperatureString(LowestMin(rs), HighestMax(rs), show)
    && w.url == DetailsUrl(cityId)
    && w.humidity == MathRound(HumiditySum(rs) / counterTo as real)
    && RoundHalfUp(WindSpeedSum(rs) / counterTo as real, WIND_PLACES) == Some(w.windSpeed)
    && w.id in Ids(rs)
    && w.description in Descriptions(rs)
  }

  /**
   * What extracting `response` at `hour` yields: `None` when the response is
   * absent or empty, a city field or `list` is missing, the window runs past
   * the end of `list` or a sample in it lacks a field; otherwise a summary
   * of exactly the samples `counterFrom..counterTo`.
   */
  predicate Summarizes(response: Option<Response>, hour: int, show: real -> string, w: Option<Weather>)
    requires 0 <= hour < 24
  {
    var (counterFrom, counterTo) := Window(hour);
    match response
    case None => w.None?
    case Some(resp) =>
      if resp.cityId.None? || resp.cityName.None? || resp.cityCountry.None? || resp.list.None? then
        w.None?
      else
        match ReadRange(resp.list.value, counterFrom, counterTo + 1)
        case None => w.None?
        case Some(rs) =>
          w.Some? && DescribesWindow(w.value, resp.cityId.value, resp.cityName.value,
                                     resp.cityCountry.value, rs, counterTo, show)
  }

  /** A list with no sample at index `counterTo` gives no summary. */
  lemma ShortListYieldsNull(resp: Response, hour: int, show: real -> string, w: Option<Weather>)
    requires 0 <= hour < 24
    requires resp.list.Some? && |resp.list.value| <= Window(hour).1
    requires Summarizes(Some(resp), hour, show, w)
    ensures w.None?
  {
    var (counterFrom, counterTo) := Window(hour);
    assert ReadRange(resp.list.value, counterFrom, counterTo + 1).None?;
  }

  /**
   * `extractFeatureFromJson`: the summary of tomorrow's samples, or `None`
   * (Java's `null`) on any failure. `hour` is the wall-clock hour of day.
   */
  method ExtractFeature(response: Option<Response>, hour: int, show: real -> string)
    returns (weather: Option<Weather>)
    requires 0 <= hour < 24
    ensures Summarizes(response, hour, show, weather)
  {
    if response.None? {
      return None;
    }
    var resp := response.value;
    if resp.cityId.None? || resp.cityName.None? || resp.cityCountry.None? || resp.list.None? {
      return None;
    }
    var cityId := resp.cityId.value;
    var cityName := resp.cityName.value;
    var cityCountry := resp.cityCountry.value;
    var weatherArray := resp.list.value;

    var (counterFrom, counterTo) := Window(hour);
    var acc := AccumulateWindow(weatherArray, counterFrom, counterTo);
    if acc.None? {
      return None;
    }
    ghost var rs := ReadRange(weatherArray, counterFrom, counterTo + 1).value;
    var a := acc.value;
    assert rs[0].id in a.idMap && rs[0].description in a.descriptionMap;

    var humidityValue := a.humiditySum / counterTo as real;

    var idEntries := EntrySet(a.idMap);
    var maxIdEntry := MaxEntry(idEntries);
    var descriptionEntries := EntrySet(a.descriptionMap);
    var maxDescEntry := MaxEntry(descriptionEntries);

    var windSpeedValue := a.windSpeedSum / counterTo as real;

    var forecastCity := CityLabel(cityName, cityCountry);
    var forecastTemperature := TemperatureString(a.minTemp, a.maxTemp, show);
    var url := DetailsUrl(cityId);
    var humidity := MathRound(humidityValue);
    var id := maxIdEntry.value.0;
    var description := maxDescEntry.value.0;
    var windSpeed := RoundHalfUp(windSpeedValue, WIND_PLACES).value;

    weather := Some(Weather(forecastCity, forecastTemperature, url, humidity, id, description, windSpeed));
  }

  /**
   * `fetchForecastData`: one result per request URL, in the order of the
   * URLs, failed cities included as `None`. `fetch` stands for building the
   * URL, the HTTP request and the JSON parse; `hours[i]` is the hour the
   * clock shows when the i-th response is extracted.
   */
  method FetchForecastData(requestUrls: seq<string>, fetch: string -> Option<Response>,
                           hours: seq<int>, show: real -> string)
    returns (weatherList: seq<Option<Weather>>)
    requires |hours| == |requestUrls|
    requires forall k :: 0 <= k < |hours| ==> 0 <= hours[k] < 24
    ensures |weatherList| == |requestUrls|
    ensures forall k :: 0 <= k < |requestUrls| ==>
              Summarizes(fetch(requestUrls[k]), hours[k], show, weatherList[k])
  {
    weatherList := [];
    for i := 0 to |requestUrls|
      invariant |weatherList| == i
      invariant forall k :: 0 <= k < i ==> Summarizes(fetch(requestUrls[k]), hours[k], show, weatherList[k])
    {
      var weather := ExtractFeature(fetch(requestUrls[i]), hours[i], show);
      ghost var before := weatherList;
      weatherList := weatherList + [weather];
      assert forall k :: 0 <= k < i ==> weatherList[k] == before[k];
      assert weatherList[i] == weather;
    }
  }
}
