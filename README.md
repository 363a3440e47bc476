# WeatherTomorrow forecast extraction, modelled in Dafny

WeatherTomorrow is an Android app. It fetches the OpenWeatherMap 5-day/3-hour
forecast for each tracked city and shows one summary line per city for
tomorrow. This project models the core of that app:

- **Window selection.** `QueryUtils.Window` maps the wall-clock hour to the
  inclusive index range `counterFrom..counterTo` of the forecast list that
  covers tomorrow.
- **Aggregation.** `QueryUtils.AccumulateWindow` and `QueryUtils.AddSample`
  are the loop over that range. The loop folds a running minimum of
  `temp_min` (starting at 1000) and a running maximum of `temp_max` (starting
  at -1000). It sums humidity and wind speed. It tallies condition ids and
  descriptions in two maps.
- **Mode scan.** `QueryUtils.EntrySet` and `QueryUtils.MaxEntry` walk each
  map and keep the entry with the highest count.
- **Summary.** `QueryUtils.ExtractFeature` builds the `Weather` value:
  - the label `name + ", " + country`;
  - the text `min + "/" + max`;
  - the link `BASE_URL + cityId`;
  - the two means, rounded.
  Any missing field, or a window past the end of the list, gives `None`.
  `None` is Java's `null`.
- **Batch.** `QueryUtils.FetchForecastData` does this for every request URL.
- **Display rules.** The `WeatherAdapter` module holds the colour and sign
  formatting and the split of the temperature text.

The model follows the code as written, including these behaviours:

- The means divide by `counterTo`, not by the 8 samples summed. The two agree
  only from 21:00 to 23:59 (`DivisorIsSampleCountOnlyLateInDay`,
  `DivisorUnderstatesMean`).
- The tally never counts past 1. An existing key is stored again as `0 + 1`.
  So every count is 1, and the scan reports the first key the map's
  iteration yields (`CountsOnce`, `EqualCountsKeepFirstEntry`). The model
  leaves that iteration order open: `EntrySet` picks keys in an unspecified
  order. So `ExtractFeature` promises only that the reported id and
  description occur in the window.
- The minimum and maximum start from the fixed sentinels 1000 and -1000. So
  the minimum is `min(1000, least temp_min)` and the maximum is
  `max(-1000, greatest temp_max)`.
- A failed city is a `None` entry of the batch result, in its place. It is
  not dropped, and there is no error value.

The clock is read inside every extraction call, so the batch takes the hour
of each call as input (`hours[i]` for the i-th URL).

Two things come in as parameters:

- `fetch` stands for building the URL, the HTTP request and the JSON parse.
- `show` stands for Java's `Double.toString`.

The parsed JSON is given as the datatypes of `ForecastJson`. A field the
code reads is an `Option` there, and `None` means the getter would throw a
JSONException.

## Model

| member | source | states |
|---|---|---|
| QueryUtils.Window | WeatherTomorrow/app/src/main/java/com/liondevhq/weathertomorrow/QueryUtils.java:213-268 | For every hour 0..23, `counterFrom = 8 - hour/3` and `counterTo = counterFrom + 7`, inside 1..15. Any other hour leaves both counters at 0. |
| QueryUtils.DivisorIsSampleCountOnlyLateInDay | WeatherTomorrow/app/src/main/java/com/liondevhq/weathertomorrow/QueryUtils.java:349-368 | Every window holds exactly 8 indices and `counterTo >= 8`, so the divisor is never zero. The divisor `counterTo` equals the sample count 8 iff the hour is 21..23. |
| QueryUtils.DivisorUnderstatesMean | WeatherTomorrow/app/src/main/java/com/liondevhq/weathertomorrow/QueryUtils.java:349-368 | Before 21:00, a positive sum divided by `counterTo` is strictly less than the sum divided by the 8 samples. |
| QueryUtils.ReadRange | WeatherTomorrow/app/src/main/java/com/liondevhq/weathertomorrow/QueryUtils.java:286-346 | The window reads succeed iff every index is inside the list and every sample in the window has all its fields. If they do, the readings are those samples, in order, one per index. |
| QueryUtils.LowestMinIsMinimum | WeatherTomorrow/app/src/main/java/com/liondevhq/weathertomorrow/QueryUtils.java:271-298 | The folded minimum is at most 1000 and at most every `temp_min` of the window. It is 1000 or one of those values, so it is `min(1000, least temp_min)`. |
| QueryUtils.HighestMaxIsMaximum | WeatherTomorrow/app/src/main/java/com/liondevhq/weathertomorrow/QueryUtils.java:272-305 | The folded maximum is `max(-1000, greatest temp_max)`. It is folded independently of the minimum. |
| QueryUtils.IdsOfSnoc | WeatherTomorrow/app/src/main/java/com/liondevhq/weathertomorrow/QueryUtils.java:313-336 | One more sample adds exactly its `weather[0]` id and description to the sets of tallied keys. |
| QueryUtils.AddSample | WeatherTomorrow/app/src/main/java/com/liondevhq/weathertomorrow/QueryUtils.java:287-345 | One pass of the loop body succeeds iff the sample has all its fields. On success the accumulators are those of the readings so far plus this one: fold, sums, and both tallies keyed by exactly the ids and descriptions seen, each counted 1. |
| QueryUtils.AccumulateWindow | WeatherTomorrow/app/src/main/java/com/liondevhq/weathertomorrow/QueryUtils.java:270-346 | The loop finishes iff the window reads succeed. It then holds the min/max fold, the humidity and wind sums, and tallies whose keys are exactly the window's ids and descriptions, every count 1. |
| QueryUtils.EntrySet | WeatherTomorrow/app/src/main/java/com/liondevhq/weathertomorrow/QueryUtils.java:353-361 | The entry walk visits every entry of the map exactly once, with its stored count, in an order left open. |
| QueryUtils.MaxEntry | WeatherTomorrow/app/src/main/java/com/liondevhq/weathertomorrow/QueryUtils.java:352-365 | The scan gives null iff there are no entries. Otherwise it gives an entry with the highest count, with no earlier entry having that count: the first maximum in iteration order. |
| QueryUtils.EqualCountsKeepFirstEntry | WeatherTomorrow/app/src/main/java/com/liondevhq/weathertomorrow/QueryUtils.java:321-365 | When every count is 1, as the tally leaves them, the first entry is the first maximum and no later entry is. |
| QueryUtils.MathRound | WeatherTomorrow/app/src/main/java/com/liondevhq/weathertomorrow/QueryUtils.java:384 | The rounded humidity is the integer nearest the mean, a half rounding up. |
| QueryUtils.HalfUpUnits | WeatherTomorrow/app/src/main/java/com/liondevhq/weathertomorrow/QueryUtils.java:166-167 | The unit count is the one nearest `value * scale`. A tie rounds up for non-negative values and down for negative ones, that is away from zero. |
| QueryUtils.RoundHalfUp | WeatherTomorrow/app/src/main/java/com/liondevhq/weathertomorrow/QueryUtils.java:163-169 | `round` fails iff `places < 0`. Otherwise the result is exactly the HALF_UP unit count times `10^-places`. |
| QueryUtils.CityLabel | WeatherTomorrow/app/src/main/java/com/liondevhq/weathertomorrow/QueryUtils.java:375 | The label is the name, then ", ", then the country. |
| QueryUtils.DetailsUrl | WeatherTomorrow/app/src/main/java/com/liondevhq/weathertomorrow/QueryUtils.java:381 | The link is `https://openweathermap.org/city/` followed by exactly `Integer.toString` of the city id, so it has no leading zeros, and that suffix parses back to the id. |
| QueryUtils.TemperatureString | WeatherTomorrow/app/src/main/java/com/liondevhq/weathertomorrow/QueryUtils.java:378 | The temperature text is the minimum's text, then '/', then the maximum's text, by position. `WeatherAdapter.TemperatureTextRoundTrip` shows that the list view's split undoes it. |
| QueryUtils.ShortListYieldsNull | WeatherTomorrow/app/src/main/java/com/liondevhq/weathertomorrow/QueryUtils.java:286-288 | A list with no element at index `counterTo` yields no summary. |
| QueryUtils.ExtractFeature | WeatherTomorrow/app/src/main/java/com/liondevhq/weathertomorrow/QueryUtils.java:175-413 | The result is null iff: the response is absent or empty; `city.id`, `city.name`, `city.country` or `list` is missing; the window passes the end of `list`; or a window sample lacks a field. Otherwise it is a summary built from exactly the window samples: label, `min/max` text from the folds, link, humidity and wind means divided by `counterTo` and rounded, and an id and description that occur in the window. |
| QueryUtils.FetchForecastData | WeatherTomorrow/app/src/main/java/com/liondevhq/weathertomorrow/QueryUtils.java:53-80 | The result has exactly one entry per request URL, in URL order. Entry i is the extraction of the i-th response, null entries included. |
| WeatherValue.GettersReturnConstructorArguments | WeatherTomorrow/app/src/main/java/com/liondevhq/weathertomorrow/Weather.java:23-48 | `getCity`, `getTemperature` and `getUrl` return the city, temperature text and url passed to the constructor. |
| JavaText.IntToString | WeatherTomorrow/app/src/main/java/com/liondevhq/weathertomorrow/WeatherAdapter.java:122 | `Integer.toString` starts with '-' iff the value is negative and is digits otherwise. It is "0" for zero, and a nonzero value has no leading zero. |
| JavaText.IntToStringRoundTrip | WeatherTomorrow/app/src/main/java/com/liondevhq/weathertomorrow/WeatherAdapter.java:122 | Parsing `Integer.toString(n)` gives back `n`. |
| JavaText.Split | WeatherTomorrow/app/src/main/java/com/liondevhq/weathertomorrow/WeatherAdapter.java:66 | `split` gives the whole string when the separator is absent. Otherwise it gives the parts between separators with the trailing empty ones dropped: a prefix of `Pieces`, every dropped part empty, and the last kept part not empty. No part holds the separator. |
| JavaText.Pieces | WeatherTomorrow/app/src/main/java/com/liondevhq/weathertomorrow/WeatherAdapter.java:66 | The parts between separators contain no separator, and joining them with it rebuilds the string. |
| WeatherAdapter.TextColor | WeatherTomorrow/app/src/main/java/com/liondevhq/weathertomorrow/WeatherAdapter.java:104-114 | Accent iff negative, dark grey iff zero, deep orange iff positive, so exactly one colour applies. |
| WeatherAdapter.FormatMinTemp | WeatherTomorrow/app/src/main/java/com/liondevhq/weathertomorrow/WeatherAdapter.java:119-128 | The text starts with '+' iff the value is positive and with '-' iff it is negative. It is "0" iff the value is zero. A value <= 0 gives exactly `Integer.toString` of it; a positive value gives '+' and then `Integer.toString` of it, so there are no leading zeros. |
| WeatherAdapter.FormatMaxTemp | WeatherTomorrow/app/src/main/java/com/liondevhq/weathertomorrow/WeatherAdapter.java:133-142 | `formatMaxTemp` returns the same text as `formatMinTemp` for every value. |
| WeatherAdapter.FormatRoundTrip | WeatherTomorrow/app/src/main/java/com/liondevhq/weathertomorrow/WeatherAdapter.java:119-142 | Parsing the formatted text (a leading '+' allowed) gives back the value. |
| WeatherAdapter.ColorMatchesText | WeatherTomorrow/app/src/main/java/com/liondevhq/weathertomorrow/WeatherAdapter.java:78-91 | The colour is accent iff the text starts with '-', deep orange iff it starts with '+', and dark grey iff the text is "0". |
| WeatherAdapter.TemperatureParts | WeatherTomorrow/app/src/main/java/com/liondevhq/weathertomorrow/WeatherAdapter.java:62-68 | The two parts exist only when the text holds '/'. Neither part holds '/'. |
| WeatherAdapter.SplitRecoversParts | WeatherTomorrow/app/src/main/java/com/liondevhq/weathertomorrow/WeatherAdapter.java:66-68 | Splitting `min + "/" + max` recovers `min` as `parts[0]` and `max` as `parts[1]` when neither holds '/' and `max` is not empty. |
| WeatherAdapter.TemperatureTextRoundTrip | WeatherTomorrow/app/src/main/java/com/liondevhq/weathertomorrow/WeatherAdapter.java:55-68 | The list view's split undoes the `minTemp + "/" + maxTemp` text of the extraction, given that number texts hold no '/' and are not empty. |
| WeatherAdapter.MissingMaximumFails | WeatherTomorrow/app/src/main/java/com/liondevhq/weathertomorrow/WeatherAdapter.java:66-68 | A text `min` or `min + "/"` has no `parts[1]`, because split drops a trailing empty part. |

## Left out

- HTTP and streams (`createUrl`, `makeHttpRequest`, `readFromStream`, the timeouts and the status-200 check) are the `fetch` parameter. An empty or null body, and text that is not a JSON object, both make `fetch` give `None`.
- The org.json parser is replaced by the `ForecastJson` datatypes. A missing `main` or `wind` object is modelled as all of its fields missing.
- `Calendar.getInstance()` is not modelled. The hour of each extraction is an input.
- ExtractFeature: requires an hour in 0..23, the range of `Calendar.HOUR_OF_DAY`. For any other hour `counterTo` is 0 and the code divides doubles by zero and passes NaN or Infinity to `BigDecimal`. That floating-point behaviour is not modelled. `Window` itself is total.
- ExtractFeature: states only that the reported id and description occur in the window, because `HashMap`'s iteration order is not modelled. With every count 1 the code reports the first key the iteration yields.
- Floating point is not modelled. Temperatures, humidity and wind are exact reals, and the means are exact real division. `round` is HALF_UP on the exact value. `Math.round` is `floor(x + 0.5)`, and its cast from `long` to `int` is not modelled.
- `Double.toString` is the `show` parameter, so the exact digits of the temperature text are not modelled.
- `Double.parseDouble` and `Math.round` in `getView`, which turn the split parts back into integers, are not modelled (floating point). The display rules are stated on the rounded integer.
- `getView`'s view code (inflation, `findViewById`, `setText`, `setTextColor`) is not modelled. When `parts[1]` is missing the code throws an uncaught ArrayIndexOutOfBoundsException; `TemperatureParts` gives `None` for it.
- Java's 32-bit `int` is not modelled. City ids, rounded humidity and display temperatures are unbounded, and `Integer.parseInt` has no overflow error.
- Weather.java declares only a 3-argument constructor and three getters, but QueryUtils.java calls a 7-argument constructor. `WeatherValue.Weather` has the seven fields QueryUtils supplies. Getters exist only for the three fields that have them.
- The Android activity, the background loader, the content provider, the SQLite helper and their contracts are not part of this model.
