/** The detector's fixed configuration. */
module Settings {

  /** An hour is flagged when its price lies strictly more than this many
      standard deviations from the mean of the window before it. */
  const StdThreshold: real := 1.0

  /** Number of hourly prices in each trailing window. */
  const WindowSize: nat := 24

  /** At most this many candles are kept from the exchange's response. */
  const TotalHours: nat := 48
}
