/**
 * The parsed shape of one OpenWeatherMap 5-day/3-hour forecast response,
 * as far as the weather code reads it. Every field the code asks for is an
 * `Option`: `None` is a field that is absent (or of the wrong type), which
 * makes the org.json getter throw a JSONException.
 */
module ForecastJson {
  import opened Optional

  /** One entry of a sample's `weather` array. */
  datatype Condition = Condition(id: Option<string>, description: Option<string>)

  /**
   * One element of `list`: `main.temp_min`, `main.temp_max`, `main.humidity`,
   * the `weather` array and `wind.speed`. A missing `main` or `wind` object
   * is the same as all of its fields missing.
   */
  datatype Sample = Sample(
    tempMin: Option<real>,
    tempMax: Option<real>,
    humidity: Option<real>,
    weather: Option<seq<Condition>>,
    windSpeed: Option<real>)

  /** The top-level object: `city.id`, `city.name`, `city.country` and `list`. */
  datatype Response = Response(
    cityId: Option<int>,
    cityName: Option<string>,
    cityCountry: Option<string>,
    list: Option<seq<Sample>>)
}
