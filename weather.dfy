/**
 * The forecast summary for one city. It is a value: every field is set once
 * when it is built and only read afterwards.
 */
module WeatherValue {

  datatype Weather = Weather(
    city: string,          // "<name>, <country>"
    temperature: string,   // "<min>/<max>"
    url: string,           // details page of the city
    humidity: int,
    id: string,            // dominant weather condition id
    description: string,   // dominant weather description
    windSpeed: real)
  {
    function GetCity(): string {
      city
    }

    function GetTemperature(): string {
      temperature
    }

    function GetUrl(): string {
      url
    }
  }

  /** Each getter returns what was passed to the constructor. */
  lemma GettersReturnConstructorArguments(city: string, temperature: string, url: string,
                                          humidity: int, id: string, description: string,
                                          windSpeed: real)
    ensures var w := Weather(city, temperature, url, humidity, id, description, windSpeed);
            w.GetCity() == city && w.GetTemperature() == temperature && w.GetUrl() == url
  {
  }
}
