/**
 * Darkness gate (aurora.py, `is_dark_in_fairbanks`).
 *
 * The clock and the astral sunrise/sunset computation are outside the
 * model: `now`, `sunrise` and `sunset` arrive as integer minutes on one
 * common time line.
 */
module Darkness {

  /** The padding around daylight: two hours, in minutes. */
  const Margin := 120

  /** Dark unless `now` lies in the padded daylight window
      `[sunrise - 2h, sunset + 2h]` (both ends inside the window). */
  function IsDark(now: int, sunrise: int, sunset: int): (dark: bool)
    ensures dark <==> now < sunrise - Margin || sunset + Margin < now
  {
    if sunrise - Margin <= now <= sunset + Margin then false else true
  }

  /** Both ends of the padded window count as daylight; one minute beyond
      either end is dark. */
  lemma WindowEndsInclusive(sunrise: int, sunset: int)
    requires sunrise <= sunset
    ensures !IsDark(sunrise - Margin, sunrise, sunset)
    ensures !IsDark(sunset + Margin, sunrise, sunset)
    ensures IsDark(sunrise - Margin - 1, sunrise, sunset)
    ensures IsDark(sunset + Margin + 1, sunrise, sunset)
  {
  }
}
