/**
 * The main flow of aurora.py (`main`): dark -> clear -> probable -> fetch
 * image -> analyse -> interpret, each failed gate returning early.
 *
 * Every outside reading the run can consult is an input (`Observations`);
 * the run reports the outside effects it performs, in order, as a trace.
 */
module Pipeline {
  import opened Optional
  import opened Json
  import Forecast
  import Darkness
  import Weather
  import Notifier
  import Interpreter

  /** A forecast probability below this skips the run. */
  const ProbabilityThreshold := 10

  /** What the outside world would answer if asked: the clock and the
      day's sunrise and sunset (minutes), OpenWeather's cloud cover, NOAA's
      grid, the vision model's reply and what `json.loads` makes of it, and
      the HTTP status Telegram replies with. */
  datatype Observations = Observations(
    now: int, sunrise: int, sunset: int,
    cloudCover: int,
    grid: seq<Forecast.GridCell>,
    analysisText: string, parsed: ParseResult,
    telegramStatus: int)

  /** The outside effects of a run. */
  datatype Effect =
    | FetchWeather
    | FetchForecast
    | FetchImage
    | Analyse(probability: int, cloudCover: int)
    | Notify(delivery: Notifier.Delivery)

  /** How a run ends: one of the three early returns, a normal end (alert
      or no alert), or an exception out of the interpreter. */
  datatype Outcome = TooBright | TooCloudy | ProbabilityTooLow | Finished | Raised

  predicate Dark(obs: Observations)
  {
    Darkness.IsDark(obs.now, obs.sunrise, obs.sunset)
  }

  predicate Clear(obs: Observations)
  {
    Weather.CheckWeather(obs.cloudCover).clear
  }

  function Probability(obs: Observations): int
  {
    Forecast.AuroraProbability(obs.grid)
  }

  /** Every effect a run with all gates open would perform, in order. */
  function Stages(obs: Observations): seq<Effect>
  {
    var d := Interpreter.Interpret(obs.parsed, obs.analysisText);
    [FetchWeather, FetchForecast, FetchImage, Analyse(Probability(obs), obs.cloudCover)]
    + if d.Alert?
      then [Notify(Notifier.SendTelegramAlert(d.message, Some(d.imagePaths), obs.telegramStatus))]
      else []
  }

  /** One run of `main`. */
  method Run(obs: Observations) returns (trace: seq<Effect>, outcome: Outcome)
    // effects happen in pipeline order and stop at the first closed gate
    ensures trace <= Stages(obs)
    ensures !Dark(obs) ==> outcome == TooBright && trace == []
    ensures Dark(obs) && !Clear(obs) ==> outcome == TooCloudy && trace == [FetchWeather]
    ensures Dark(obs) && Clear(obs) && Probability(obs) < ProbabilityThreshold ==>
      outcome == ProbabilityTooLow && trace == [FetchWeather, FetchForecast]
    ensures Dark(obs) && Clear(obs) && Probability(obs) >= ProbabilityThreshold ==>
      |trace| >= 4 &&
      (outcome == Raised <==> Interpreter.Interpret(obs.parsed, obs.analysisText).Raises?) &&
      (outcome == Raised ==> |trace| == 4) &&
      (outcome != Raised ==> outcome == Finished && trace == Stages(obs))
    // the gate properties, one by one
    ensures FetchForecast in trace <==> Dark(obs) && Clear(obs)
    ensures FetchImage in trace <==>
      Dark(obs) && Clear(obs) && Probability(obs) >= ProbabilityThreshold
    ensures Analyse(Probability(obs), obs.cloudCover) in trace <==> FetchImage in trace
    ensures (exists i :: 0 <= i < |trace| && trace[i].Notify?) <==>
      FetchImage in trace && Interpreter.Interpret(obs.parsed, obs.analysisText).Alert?
  {
    trace := [];
    if !Darkness.IsDark(obs.now, obs.sunrise, obs.sunset) {
      return [], TooBright;
    }

    trace := trace + [FetchWeather];
    var weather := Weather.CheckWeather(obs.cloudCover);
    if !weather.clear {
      return trace, TooCloudy;
    }

    trace := trace + [FetchForecast];
    var probability := Forecast.AuroraProbability(obs.grid);
    if probability < ProbabilityThreshold {
      return trace, ProbabilityTooLow;
    }

    trace := trace + [FetchImage];
    trace := trace + [Analyse(probability, weather.cloudCover)];
    assert forall i :: 0 <= i < |trace| ==> !trace[i].Notify?;
    var decision := Interpreter.Interpret(obs.parsed, obs.analysisText);
    match decision
    case Alert(message, imagePaths) =>
      var delivery := Notifier.SendTelegramAlert(message, Some(imagePaths), obs.telegramStatus);
      trace := trace + [Notify(delivery)];
      assert trace[4].Notify?;
      outcome := Finished;
    case NoAlert =>
      outcome := Finished;
    case Raises =>
      outcome := Raised;
  }
}
