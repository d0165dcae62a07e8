/** The JSON record `log_info` prints for an alert: its log level, the
    trading pair, and the figures of the hour with the price change derived
    from them. */
module AlertLog {
  import opened Settings
  import opened Stats
  import opened Detector

  datatype LogData = LogData(
    message: string,
    currentPrice: real,
    averagePrice: real,
    standardDeviation: real,
    priceChangeValue: real,
    deviationValue: real)

  datatype LogRecord = LogRecord(
    timestamp: string,
    logLevel: string,
    tradingPair: string,
    deviation: bool,
    data: LogData)

  /** `log_info(info)` with the wall-clock time `timestamp`: the level is
      "INFO" exactly for alerts and "DEBUG" otherwise, and the price change
      is the deviation value scaled back by the standard deviation. */
  function LogInfo(info: AlertInfo, timestamp: string): (r: LogRecord)
    ensures r.logLevel == "INFO" <==> info.alert
    ensures r.logLevel == "INFO" || r.logLevel == "DEBUG"
    ensures r.timestamp == timestamp
  {
    LogRecord(
      timestamp,
      if info.alert then "INFO" else "DEBUG",
      info.pair,
      info.alert,
      LogData(info.message, info.currentPrice, info.avgPrice, info.stdDev,
              info.deviationValue * info.stdDev, info.deviationValue))
  }

  /** The alert record read back from a printed log record (the hour is not
      printed, so it is supplied). */
  function InfoOf(r: LogRecord, hourIndex: nat): AlertInfo
  {
    AlertInfo(r.data.message, r.tradingPair, r.deviation, r.data.currentPrice,
              r.data.averagePrice, r.data.standardDeviation, r.data.deviationValue, hourIndex)
  }

  /** The printed record loses nothing of the alert record but its hour. */
  lemma LogInfoKeepsInfo(info: AlertInfo, timestamp: string)
    ensures InfoOf(LogInfo(info, timestamp), info.hourIndex) == info
  {
  }

  /** For a scored hour the printed price change is the distance of the
      hour's price from the window average. */
  lemma PriceChangeIsDistanceFromAverage(pair: string, o: Observation, timestamp: string)
    requires o.stdDev != 0.0
    ensures LogInfo(AlertRecord(pair, o), timestamp).data.priceChangeValue == Abs(o.currentPrice - o.avgPrice)
  {
    DeviationScalesBack(o);
  }

  /** Every record a run of `calculate_alert` logs is printed at level
      "INFO", with a price change equal to the distance of its price from
      its window's average. */
  lemma LoggedAlertsPrintAsInfo(pair: string, prices: seq<real>, sqrt: real -> real, timestamp: string)
    requires WindowSize <= |prices|
    ensures var a := Scan(pair, prices, sqrt, |prices|).alerts;
      forall k :: 0 <= k < |a| ==>
        LogInfo(a[k], timestamp).logLevel == "INFO" &&
        LogInfo(a[k], timestamp).data.priceChangeValue == Abs(a[k].currentPrice - a[k].avgPrice)
  {
    var a := Scan(pair, prices, sqrt, |prices|).alerts;
    ScanLogsOnlyAlerts(pair, prices, sqrt, |prices|);
    forall k | 0 <= k < |a|
      ensures LogInfo(a[k], timestamp).logLevel == "INFO"
      ensures LogInfo(a[k], timestamp).data.priceChangeValue == Abs(a[k].currentPrice - a[k].avgPrice)
    {
      var o := Observe(prices, a[k].hourIndex, sqrt);
      assert a[k] == AlertRecord(pair, o) && a[k].alert;
      PriceChangeIsDistanceFromAverage(pair, o, timestamp);
    }
  }
}
