# aurora_watch decision logic, in Dafny

aurora_watch is a one-shot alert script for aurora watchers in Fairbanks,
Alaska. A run checks three gates in order. First it checks that it is dark:
the current time must lie outside the day's sunrise-to-sunset window padded
by two hours on each side. Next it checks that the sky is clear: cloud cover
must be below 100 %. Last it checks that aurora is likely: the largest NOAA
OVATION forecast probability in a 3x3 grid box around Fairbanks must be at
least 10 %. If all three gates pass, the run downloads a Poker Flat sky
image and asks a vision language model for a JSON assessment. It then reads
the reply, falling back to a keyword search when the reply is not valid
JSON, and may post a Telegram alert.

This project models that decision logic:

- `Forecast`: the grid filter and `max(..., default=0)`.
- `Darkness`: the padded daylight window.
- `Weather`: the cloud threshold.
- `Json` and `Interpreter`: the parse outcome and the alert decision with
  its keyword fallback.
- `Text`: ASCII lower-casing and the substring test.
- `Notifier`: choosing among `sendPhoto`, `sendMediaGroup` and
  `sendMessage`, and the status-200 success test.
- `Pipeline`: `main` as a method that returns the trace of outside effects
  it performs, plus how the run ended.

The pure parts are functions. `main` is a method with early returns.
Everything the script asks the outside world is a parameter: the clock,
sunrise and sunset, the weather, the forecast grid, the model's reply and
its parse outcome, and Telegram's HTTP status.

## Behaviour worth knowing

- The gates run in the order dark, then weather, then forecast.
- The cloud threshold is fixed at 100: only a fully overcast sky skips the run.
- A media-group post attaches only the first image.
- A reply that parses to a non-object, or whose `aurora_detected` is not a
  string, raises an uncaught `AttributeError` that ends the run (`Raises` /
  `Raised` in the model).

## Model

| member | source | states |
|---|---|---|
| Forecast.FairbanksCells | aurora.py:41-45 | a cell is kept iff it is in the grid and 211 <= x <= 213 and 64 <= y <= 66 |
| Forecast.Max | aurora.py:47 | `max` of a non-empty list is at least every element and equal to one of them |
| Forecast.InFairbanksBox | aurora.py:44 | the inclusive bounds select exactly the 3x3 block x in {211, 212, 213}, y in {64, 65, 66} |
| Forecast.Probabilities | aurora.py:47 | one value per cell, and a value occurs iff some cell carries it as its third element |
| Forecast.MaxOrZero | aurora.py:47 | `max(..., default=0)`: 0 for an empty list, otherwise an upper bound of the list that is one of its elements |
| Forecast.AuroraProbability | aurora.py:36-49 | the probability is 0 when no cell is in the box; otherwise it is at least every in-box cell's value and equal to one of them |
| Forecast.MaximumNotFirstNorAverage | aurora.py:47 | for in-box values 5 and 30 (and an out-of-box 90) the result is 30, not the first match, the average or the global maximum |
| Forecast.BoxBoundsInclusive | aurora.py:44 | all four box bounds are inclusive and one step outside each is excluded |
| Darkness.IsDark | aurora.py:57-67 | dark iff now < sunrise - 2h or now > sunset + 2h |
| Darkness.WindowEndsInclusive | aurora.py:64-67 | sunrise - 2h and sunset + 2h are not dark; one minute beyond either is dark |
| Weather.CheckWeather | aurora.py:74-76 | the cloud value is returned unchanged, paired with clear iff cloud < 100 |
| Weather.ThresholdBoundary | aurora.py:76 | 99 is clear, 100 is not |
| Weather.ClearIsDownwardClosed | aurora.py:76 | if a cloud value is clear, every smaller value is clear |
| Notifier.SelectEndpoint | aurora.py:144-179 | sendPhoto iff exactly 1 path; sendMediaGroup iff exactly 2; sendMessage iff None, 0 or >= 3 paths |
| Notifier.SendTelegramAlert | aurora.py:141-184 | one post to the selected endpoint with the message; a photo post attaches the first path, a text post none; delivered iff status == 200 |
| Notifier.SingleImageGoesToSendPhoto | aurora.py:144-150 | one image: a sendPhoto post with that image attached and the message as caption |
| Notifier.OtherCountsEndpoints | aurora.py:152-179 | two images: sendMediaGroup with the first attached; None, 0 or >= 3: sendMessage with nothing attached |
| Interpreter.DetectedFlag | aurora.py:191 | the flag reads "yes" iff `aurora_detected` is missing or is "yes" in any case; `.lower` is missing (None) iff the flag is not a string |
| Interpreter.Summary | aurora.py:192 | the reply's `analysis_summary` whenever present, of whatever JSON type, else "Aurora detected — check the sky!" |
| Interpreter.Interpret | aurora.py:187-204 | parsed object: alert iff aurora_detected is absent or lower-cases to "yes", caption is analysis_summary or the default text, exception iff the flag is not a string; non-object: exception; decode error: alert with the default text iff the lower-cased text contains `"aurora_detected": "yes"`; every alert carries exactly `/root/poker_flat.jpg` |
| Interpreter.DetectionIsCaseInsensitive | aurora.py:191-194 | a string flag alerts iff it is y/Y, e/E, s/S in that order and nothing else |
| Interpreter.MissingFlagAlerts | aurora.py:191-196 | a reply without aurora_detected alerts with its summary (or the default text) |
| Interpreter.FallbackFindsMarkerInAnyCase | aurora.py:199-204 | on a decode error the run alerts iff the marker occurs somewhere in the reply in any mixture of cases |
| Interpreter.ScenarioNoDetection | aurora.py:194-198 | `{"aurora_detected": "no"}` sends nothing |
| Interpreter.ScenarioDetectionWithSummary | aurora.py:191-196 | `{"aurora_detected": "yes", "analysis_summary": "Bright green arc overhead"}` alerts with that caption and the one image |
| Text.LowerEqualsIff | aurora.py:191 | for the model's ASCII lower-casing, `Lower(s) == w` for a lower-case word w iff s has w's length and each character is w's letter or its capital (Python agrees for words without 'k' or 'i', such as "yes") |
| Text.Contains | aurora.py:201 | `needle in hay` holds iff the needle occurs at some index of hay |
| Text.Lower | aurora.py:191 | `lower()` keeps the length, leaves no capital A-Z, and changes only capitals, each to its lower-case letter |
| Pipeline.Run | aurora.py:208-227 | effects follow the pipeline order and stop at the first closed gate; not dark: nothing happens; not clear: no forecast fetch; probability < 10: no image or analysis (10 proceeds); an alert is posted iff all gates pass and the interpreter alerts |

## Left out

- HTTP requests to NOAA, OpenWeather, the image URL and Telegram, and the multipart encoding. These are network I/O. Their answers are parameters, and the requests are trace events.
- The astral sunrise/sunset computation and the pytz time zones. These are a foreign library doing floating-point astronomy. Sunrise, sunset and the current time are integer minutes on one time line.
- The OpenAI call, its prompt text and the base64 encoding. These are a foreign service and string templating. The reply text is a parameter.
- `json.loads` itself. It is a foreign parser, abstracted as `ParseResult`. The model does not tie the parse outcome to the reply text: both are parameters.
- File writes and reads, and the closing of file handles after the media-group post. The image is downloaded to the relative path `poker_flat.jpg` but read from `/root/poker_flat.jpg`. The two are the same file only when the working directory is `/root`. The model does not check this.
- The media-group `media` JSON, which puts the caption in unescaped and refers to an unattached `photo1`. This is payload formatting for an external API. Only the endpoint and the attached file are modelled.
- `load_dotenv`, the environment configuration and all `print` logging. None of them affects a decision.
- Text.Lower: lower-cases ASCII letters only. For the two comparisons it feeds, this gives the same answer as Python's Unicode `str.lower`.
- Forecast.GridCell: models a grid entry as exactly three integers. A shorter entry would raise an `IndexError` in Python. The model does not capture that.
