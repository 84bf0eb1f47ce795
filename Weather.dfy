/**
 * The weather lookup behind the resolver's weather answers
 * (`fetchWeatherData`): geocode the city (or use the default location),
 * read the current conditions there, and map the weather code to a
 * condition and a rain outlook. The two HTTP requests are oracle inputs.
 */
module Weather {
  import opened Wrappers

  /** The first geocoding result: coordinates, its name and its first-level region ("" when absent). */
  datatype Place = Place(lat: real, lon: real, name: string, admin1: string)

  /** The `current` block of a forecast response; the temperature is already rounded. */
  datatype Current = Current(temperature: int, humidity: int, windSpeed: real, weatherCode: int)

  /** The outcome of the forecast request: a reading, or a request or response that failed. */
  datatype Forecast = Reading(current: Current) | RequestFailed

  /**
   * The geocoding request. `getCoordinates` catches its own errors, so a
   * failed request and an empty result are both `None`.
   */
  type Geocoder = string -> Option<Place>

  /** The forecast request at given coordinates. */
  type ForecastService = (real, real) -> Forecast

  /** The weather record `fetchWeatherData` resolves with; `error` is set only for an unknown city. */
  datatype WeatherReport = WeatherReport(
    temp: int, humidity: int, windSpeed: real,
    condition: string, rainInfo: string, location: string, error: bool)

  datatype Conditions = Conditions(condition: string, rainInfo: string)

  const DefaultLat: real := 3.0738
  const DefaultLon: real := 101.5183
  const DefaultLocation: string := "Subang Jaya"

  /** The weather-code table, tried in the source's order. */
  function CodeConditions(code: int): (c: Conditions)
    ensures c.condition == "Rainy" <==> 61 <= code <= 77 || 80 <= code <= 99
    ensures c.rainInfo == "Rain expected today" <==> 80 <= code <= 99
    ensures c.rainInfo == "Light rain possible" <==> 61 <= code <= 77
    ensures c.rainInfo == "No rain expected today" <==> c.condition != "Rainy"
    ensures c.condition == "Partly cloudy" <==> 2 <= code <= 3
    ensures c.condition == "Foggy" <==> 45 <= code <= 48
    ensures c.condition == "Clear" <==> !(2 <= code <= 3 || 45 <= code <= 48 || 61 <= code <= 77 || 80 <= code <= 99)
  {
    if 80 <= code <= 99 then Conditions("Rainy", "Rain expected today")
    else if 61 <= code <= 77 then Conditions("Rainy", "Light rain possible")
    else if 2 <= code <= 3 then Conditions("Partly cloudy", "No rain expected today")
    else if 45 <= code <= 48 then Conditions("Foggy", "No rain expected today")
    else Conditions("Clear", "No rain expected today")
  }

  /** `name, admin1` when the result has a region, else just `name`. */
  function LocationName(p: Place): (s: string)
    ensures |p.name| <= |s| && s[..|p.name|] == p.name
    ensures s == p.name <==> p.admin1 == ""
    ensures p.admin1 != "" ==> |s| == |p.name| + 2 + |p.admin1| && s[|s| - |p.admin1|..] == p.admin1
  {
    if p.admin1 != "" then p.name + ", " + p.admin1 else p.name
  }

  function NotFoundMessage(city: string): string
  {
    "Could not find weather data for \"" + city + "\". Please try another city name."
  }

  /** The record for a city the geocoder does not know. */
  function NotFound(city: string): WeatherReport
  {
    WeatherReport(0, 0, 0.0, "Unknown", NotFoundMessage(city), "Unknown", true)
  }

  /** The hard-coded record the `catch` returns when the forecast request fails. */
  const Snapshot: WeatherReport :=
    WeatherReport(32, 80, 0.8, "Partly cloudy", "Weather data unavailable", "Subang Jaya", false)

  /** The record built from a forecast outcome for the named location. */
  function Observe(f: Forecast, location: string): (w: WeatherReport)
    ensures !w.error
    ensures f.RequestFailed? ==> w == Snapshot
    ensures f.Reading? ==>
              w.location == location && w.temp == f.current.temperature && w.humidity == f.current.humidity &&
              w.windSpeed == f.current.windSpeed &&
              Conditions(w.condition, w.rainInfo) == CodeConditions(f.current.weatherCode)
    // The snapshot's outlook is never one of a reading, so a failed request can be told apart.
    ensures w.rainInfo == Snapshot.rainInfo <==> f.RequestFailed?
  {
    match f
    case RequestFailed => Snapshot
    case Reading(cur) =>
      var c := CodeConditions(cur.weatherCode);
      WeatherReport(cur.temperature, cur.humidity, cur.windSpeed, c.condition, c.rainInfo, location, false)
  }

  /** `if (cityName)`: JavaScript treats both `null` and `""` as no city. */
  predicate HasCity(cityName: Option<string>)
  {
    cityName.Some? && cityName.value != ""
  }

  /** `fetchWeatherData(cityName)` with both requests given as oracles. */
  function FetchWeatherData(cityName: Option<string>, geocode: Geocoder, forecast: ForecastService): (w: WeatherReport)
    // The error record is returned exactly when a city is named and the geocoder does not know it.
    ensures w.error <==> HasCity(cityName) && geocode(cityName.value).None?
    ensures w.error ==> w.rainInfo == NotFoundMessage(cityName.value) && w.location == "Unknown"
    // Without a city the report is for the default location.
    ensures !HasCity(cityName) ==> w.location == DefaultLocation
    // Without a city the forecast is read at the default coordinates: a failed request yields
    // the snapshot, a reading is reported with the condition and outlook of its weather code.
    ensures !HasCity(cityName) && forecast(DefaultLat, DefaultLon).RequestFailed? ==> w == Snapshot
    ensures !HasCity(cityName) && forecast(DefaultLat, DefaultLon).Reading? ==>
              var cur := forecast(DefaultLat, DefaultLon).current;
              w.temp == cur.temperature && w.humidity == cur.humidity && w.windSpeed == cur.windSpeed &&
              Conditions(w.condition, w.rainInfo) == CodeConditions(cur.weatherCode)
    // A known city is read at its own coordinates: a failed request yields the snapshot, whatever
    // city was asked for; a reading is reported under the city's own name.
    ensures HasCity(cityName) && geocode(cityName.value).Some? ==>
              var p := geocode(cityName.value).value;
              (forecast(p.lat, p.lon).RequestFailed? ==> w == Snapshot) &&
              (forecast(p.lat, p.lon).Reading? ==>
                 var cur := forecast(p.lat, p.lon).current;
                 w.location == LocationName(p) &&
                 w.temp == cur.temperature && w.humidity == cur.humidity && w.windSpeed == cur.windSpeed &&
                 Conditions(w.condition, w.rainInfo) == CodeConditions(cur.weatherCode))
  {
    if HasCity(cityName) then
      match geocode(cityName.value)
      case None => NotFound(cityName.value)
      case Some(p) => Observe(forecast(p.lat, p.lon), LocationName(p))
    else
      Observe(forecast(DefaultLat, DefaultLon), DefaultLocation)
  }
}
