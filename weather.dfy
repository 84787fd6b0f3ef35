/**
 * Weather gate (aurora.py, `is_clear_weather`).
 *
 * The OpenWeather request is outside the model: the cloud cover arrives
 * as the integer `clouds.all` of its reply.
 */
module Weather {

  /** Cloud cover at or above this percentage skips the run. */
  const CloudThreshold := 100

  /** The pair `(cloud_coverage, clear)` the gate returns. */
  datatype WeatherReading = WeatherReading(cloudCover: int, clear: bool)

  /** The cloud cover is passed through unchanged and is clear iff below 100. */
  function CheckWeather(cloudCover: int): (r: WeatherReading)
    ensures r.cloudCover == cloudCover
    ensures r.clear <==> cloudCover < CloudThreshold
  {
    WeatherReading(cloudCover, cloudCover < CloudThreshold)
  }

  /** 99 % is clear and 100 % is not: the bound is exclusive on the clear side. */
  lemma ThresholdBoundary()
    ensures CheckWeather(99).clear
    ensures !CheckWeather(100).clear
  {
  }

  /** Less cloud never turns a clear sky cloudy. */
  lemma ClearIsDownwardClosed(c: int, d: int)
    requires d <= c
    ensures CheckWeather(c).clear ==> CheckWeather(d).clear
  {
  }
}
