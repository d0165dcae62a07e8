/** The windowed z-score alert rule of `calculate_alert`: every hour from
    WindowSize on is compared with the mean and the sample standard deviation
    of the WindowSize hours before it, and the hours that lie strictly more
    than StdThreshold deviations away are logged as alerts. */
module Detector {
  import opened Optional
  import opened Settings
  import opened Stats
  import Candles

  /** The record `calculate_alert` hands to `log_info`, together with the
      hour it was computed for. */
  datatype AlertInfo = AlertInfo(
    message: string,
    pair: string,
    alert: bool,
    currentPrice: real,
    avgPrice: real,
    stdDev: real,
    deviationValue: real,
    hourIndex: nat)

  /** How a run of `calculate_alert` ends, with the alerts it logged.
      InsufficientPrices: the prices were missing or fewer than WindowSize,
      and "Insufficient prices fetched" was logged as an error.
      Completed: every hour was evaluated.
      ZeroStdDev: the window before `hourIndex` had a standard deviation of
      zero, the division by it raised, and the run ended there. */
  datatype AlertOutcome =
    | InsufficientPrices
    | Completed(alerts: seq<AlertInfo>)
    | ZeroStdDev(hourIndex: nat, alerts: seq<AlertInfo>)

  /** The prices of the WindowSize hours before `hourIndex`. */
  function Window(prices: seq<real>, hourIndex: nat): (w: seq<real>)
    requires WindowSize <= hourIndex <= |prices|
    ensures |w| == WindowSize
    ensures forall k :: 0 <= k < |w| ==> w[k] == prices[hourIndex - WindowSize + k]
  {
    prices[hourIndex - WindowSize..hourIndex]
  }

  /** The quantities computed for one hour before the division. */
  datatype Observation = Observation(hourIndex: nat, currentPrice: real, avgPrice: real, stdDev: real)

  /** The hour's own price with the average and the standard deviation of
      the window before it. Through a true square root the standard
      deviation is never negative; ObservationMeaning states the rest. */
  function Observe(prices: seq<real>, hourIndex: nat, sqrt: real -> real): (o: Observation)
    requires WindowSize <= hourIndex < |prices|
    ensures o.hourIndex == hourIndex && o.currentPrice == prices[hourIndex]
    ensures IsSquareRoot(sqrt) ==> 0.0 <= o.stdDev
  {
    var w := Window(prices, hourIndex);
    RootNonNegative(sqrt, SampleVariance(w));
    Observation(hourIndex, prices[hourIndex], Mean(w), sqrt(SampleVariance(w)))
  }

  /** `abs(curr_price - avg_price) / std_dev`: the distance of the price from
      the average in units of the standard deviation. It is zero when the
      price equals the average and, with a positive standard deviation,
      never negative; DeviationScalesBack states that scaling it back by the
      standard deviation gives the distance. */
  function DeviationValue(o: Observation): (d: real)
    requires o.stdDev != 0.0
    ensures o.currentPrice == o.avgPrice ==> d == 0.0
    ensures 0.0 < o.stdDev ==> 0.0 <= d
  {
    Abs(o.currentPrice - o.avgPrice) / o.stdDev
  }

  /** `dev_value > STD_THRESHOLD`: only a price away from the average can
      alert. AlertRule states the rule in terms of the distance and the
      standard deviation. */
  function IsAlert(o: Observation): (alert: bool)
    requires o.stdDev != 0.0
    ensures alert ==> o.currentPrice != o.avgPrice
  {
    DeviationValue(o) > StdThreshold
  }

  /** The record logged for a scored hour, the dictionary passed to
      `log_info`: it is for the hour and pair given, and an alert in it is
      for a price away from the average. */
  function AlertRecord(pair: string, o: Observation): (info: AlertInfo)
    requires o.stdDev != 0.0
    ensures info.hourIndex == o.hourIndex && info.pair == pair && info.message == "Alert generated"
    ensures info.alert ==> info.currentPrice != info.avgPrice
  {
    AlertInfo("Alert generated", pair, IsAlert(o), o.currentPrice, o.avgPrice, o.stdDev, DeviationValue(o), o.hourIndex)
  }

  /** The outcome after evaluating the hours WindowSize .. n-1 in order;
      once past the length check, the prices are never insufficient. */
  function Scan(pair: string, prices: seq<real>, sqrt: real -> real, n: nat): (r: AlertOutcome)
    requires WindowSize <= n <= |prices|
    ensures !r.InsufficientPrices?
    decreases n
  {
    if n == WindowSize then Completed([])
    else
      var before := Scan(pair, prices, sqrt, n - 1);
      if !before.Completed? then before
      else
        var o := Observe(prices, n - 1, sqrt);
        if o.stdDev == 0.0 then ZeroStdDev(n - 1, before.alerts)
        else if IsAlert(o) then Completed(before.alerts + [AlertRecord(pair, o)])
        else Completed(before.alerts)
  }

  /** The outcome of `calculate_alert` on the fetched prices. It reports
      insufficient prices exactly when the prices are missing or fewer than
      WindowSize; exactly WindowSize prices pass the check and complete with
      no evaluation and no alert. */
  function CalculateAlertOutcome(pair: string, prices: Option<seq<real>>, sqrt: real -> real): (r: AlertOutcome)
    ensures r.InsufficientPrices? <==> prices.None? || |prices.value| < WindowSize
    ensures prices.Some? && |prices.value| == WindowSize ==> r == Completed([])
  {
    if prices.None? || |prices.value| < WindowSize then InsufficientPrices
    else Scan(pair, prices.value, sqrt, |prices.value|)
  }

  /** `calculate_alert`: the loop over the hours, logging each alert as it
      is found. */
  method CalculateAlert(pair: string, prices: Option<seq<real>>, sqrt: real -> real) returns (outcome: AlertOutcome)
    ensures outcome == CalculateAlertOutcome(pair, prices, sqrt)
  {
    if prices.None? || |prices.value| < WindowSize {
      return InsufficientPrices;
    }
    var p := prices.value;
    var logged: seq<AlertInfo> := [];
    var hourIndex := WindowSize;
    while hourIndex < |p|
      invariant WindowSize <= hourIndex <= |p|
      invariant Scan(pair, p, sqrt, hourIndex) == Completed(logged)
    {
      var currentHourPrices := p[hourIndex - WindowSize..hourIndex];
      var avgPrice := Sum(currentHourPrices) / (|currentHourPrices| as real);
      var stdDev := sqrt(SampleVariance(currentHourPrices));
      var currPrice := p[hourIndex];
      assert currentHourPrices == Window(p, hourIndex);
      ghost var o := Observe(p, hourIndex, sqrt);
      assert o == Observation(hourIndex, currPrice, avgPrice, stdDev);
      if stdDev == 0.0 {
        ScanStaysStopped(pair, p, sqrt, hourIndex + 1, |p|);
        return ZeroStdDev(hourIndex, logged);
      }
      var devValue := Abs(currPrice - avgPrice) / stdDev;
      var alert := devValue > StdThreshold;
      if alert {
        logged := logged + [AlertInfo("Alert generated", pair, alert, currPrice, avgPrice, stdDev, devValue, hourIndex)];
      }
      hourIndex := hourIndex + 1;
    }
    return Completed(logged);
  }

  /** Once the scan has stopped, evaluating more hours does not change it. */
  lemma {:induction false} ScanStaysStopped(pair: string, prices: seq<real>, sqrt: real -> real, m: nat, n: nat)
    requires WindowSize <= m <= n <= |prices|
    requires !Scan(pair, prices, sqrt, m).Completed?
    ensures Scan(pair, prices, sqrt, n) == Scan(pair, prices, sqrt, m)
    decreases n
  {
    if m < n {
      ScanStaysStopped(pair, prices, sqrt, m, n - 1);
    }
  }

  /** What one hour's figures mean: the average lies between the smallest
      and the largest price of the window, the standard deviation is never
      negative, and it is zero exactly when the window is flat. */
  lemma ObservationMeaning(prices: seq<real>, hourIndex: nat, sqrt: real -> real)
    requires IsSquareRoot(sqrt)
    requires WindowSize <= hourIndex < |prices|
    ensures Min(Window(prices, hourIndex)) <= Observe(prices, hourIndex, sqrt).avgPrice <= Max(Window(prices, hourIndex))
    ensures 0.0 <= Observe(prices, hourIndex, sqrt).stdDev
    ensures Observe(prices, hourIndex, sqrt).stdDev == 0.0
        <==> forall k :: hourIndex - WindowSize <= k < hourIndex ==> prices[k] == prices[hourIndex - WindowSize]
  {
    var w := Window(prices, hourIndex);
    MeanWithinRange(w);
    StdDevZeroIffVarianceZero(sqrt, SampleVariance(w));
    VarianceZeroIffFlat(w);
    assert (forall k :: 0 <= k < |w| ==> w[k] == w[0])
       <==> forall k :: hourIndex - WindowSize <= k < hourIndex ==> prices[k] == prices[hourIndex - WindowSize] by {
      if forall k :: 0 <= k < |w| ==> w[k] == w[0] {
        forall k | hourIndex - WindowSize <= k < hourIndex
          ensures prices[k] == prices[hourIndex - WindowSize]
        {
          assert prices[k] == w[k - (hourIndex - WindowSize)];
        }
      }
    }
  }

  /** The figures for an hour depend only on the hours before it: the price
      of the hour itself and of later hours never enter its window. */
  lemma ObservationUsesOnlyEarlierPrices(prices: seq<real>, other: seq<real>, hourIndex: nat, sqrt: real -> real)
    requires WindowSize <= hourIndex < |prices|
    requires hourIndex < |other|
    requires other[..hourIndex] == prices[..hourIndex]
    ensures Observe(other, hourIndex, sqrt).avgPrice == Observe(prices, hourIndex, sqrt).avgPrice
    ensures Observe(other, hourIndex, sqrt).stdDev == Observe(prices, hourIndex, sqrt).stdDev
  {
    assert Window(other, hourIndex) == Window(prices, hourIndex) by {
      forall k | 0 <= k < WindowSize
        ensures Window(other, hourIndex)[k] == Window(prices, hourIndex)[k]
      {
        var j := hourIndex - WindowSize + k;
        assert other[j] == other[..hourIndex][j] == prices[..hourIndex][j] == prices[j];
      }
    }
  }

  /** Every logged record is the alert record of an alerting hour below n,
      and the records are in increasing hour order; there are at most
      n - WindowSize of them. */
  lemma {:induction false} ScanLogsOnlyAlerts(pair: string, prices: seq<real>, sqrt: real -> real, n: nat)
    requires WindowSize <= n <= |prices|
    ensures var a := Scan(pair, prices, sqrt, n).alerts;
      forall k :: 0 <= k < |a| ==>
        WindowSize <= a[k].hourIndex < n &&
        Observe(prices, a[k].hourIndex, sqrt).stdDev != 0.0 &&
        a[k] == AlertRecord(pair, Observe(prices, a[k].hourIndex, sqrt)) &&
        a[k].alert
    ensures var a := Scan(pair, prices, sqrt, n).alerts;
      forall j, k :: 0 <= j < k < |a| ==> a[j].hourIndex < a[k].hourIndex
    ensures |Scan(pair, prices, sqrt, n).alerts| <= n - WindowSize
    decreases n
  {
    if n > WindowSize {
      ScanLogsOnlyAlerts(pair, prices, sqrt, n - 1);
    }
  }

  /** With a positive standard deviation, an hour alerts exactly when its
      price is more than StdThreshold standard deviations from the average;
      a deviation value of exactly StdThreshold does not alert. */
  lemma AlertRule(o: Observation)
    requires 0.0 < o.stdDev
    ensures IsAlert(o) <==> Abs(o.currentPrice - o.avgPrice) > StdThreshold * o.stdDev
    ensures DeviationValue(o) <= StdThreshold ==> !IsAlert(o)
  {
    ExceedsAfterDivision(Abs(o.currentPrice - o.avgPrice), o.stdDev);
  }

  lemma ExceedsAfterDivision(x: real, s: real)
    requires 0.0 < s
    ensures x / s > StdThreshold <==> x > StdThreshold * s
  {
  }

  /** The deviation value scaled back by the standard deviation is the
      distance of the price from the average. */
  lemma DeviationScalesBack(o: Observation)
    requires o.stdDev != 0.0
    ensures DeviationValue(o) * o.stdDev == Abs(o.currentPrice - o.avgPrice)
  {
    ScaleBack(Abs(o.currentPrice - o.avgPrice), o.stdDev);
  }

  lemma ScaleBack(x: real, s: real)
    requires s != 0.0
    ensures (x / s) * s == x
  {
  }

  /** The scan completes exactly when no window up to n has a zero standard
      deviation, and then every alerting hour below n is logged. */
  lemma {:induction false} ScanLogsEveryAlert(pair: string, prices: seq<real>, sqrt: real -> real, n: nat)
    requires WindowSize <= n <= |prices|
    ensures Scan(pair, prices, sqrt, n).Completed?
        <==> forall i :: WindowSize <= i < n ==> Observe(prices, i, sqrt).stdDev != 0.0
    ensures Scan(pair, prices, sqrt, n).Completed? ==>
      forall i :: WindowSize <= i < n && Observe(prices, i, sqrt).stdDev != 0.0 && IsAlert(Observe(prices, i, sqrt)) ==>
        exists k :: 0 <= k < |Scan(pair, prices, sqrt, n).alerts| && Scan(pair, prices, sqrt, n).alerts[k].hourIndex == i
    decreases n
  {
    if n > WindowSize {
      ScanLogsEveryAlert(pair, prices, sqrt, n - 1);
      var before := Scan(pair, prices, sqrt, n - 1);
      var o := Observe(prices, n - 1, sqrt);
      if before.Completed? && o.stdDev != 0.0 && IsAlert(o) {
        var a := Scan(pair, prices, sqrt, n).alerts;
        assert a == before.alerts + [AlertRecord(pair, o)];
        assert a[|a| - 1].hourIndex == n - 1;
        forall i | WindowSize <= i < n - 1 && Observe(prices, i, sqrt).stdDev != 0.0 && IsAlert(Observe(prices, i, sqrt))
          ensures exists k :: 0 <= k < |a| && a[k].hourIndex == i
        {
          var k :| 0 <= k < |before.alerts| && before.alerts[k].hourIndex == i;
          assert a[k] == before.alerts[k];
        }
      }
    }
  }

  /** A scan that stops stops at the first hour whose window has a zero
      standard deviation, keeping the alerts logged before that hour. */
  lemma {:induction false} ScanStopsAtFirstZeroStdDev(pair: string, prices: seq<real>, sqrt: real -> real, n: nat)
    requires WindowSize <= n <= |prices|
    ensures var r := Scan(pair, prices, sqrt, n);
      r.ZeroStdDev? ==>
        WindowSize <= r.hourIndex < n &&
        Observe(prices, r.hourIndex, sqrt).stdDev == 0.0 &&
        (forall i :: WindowSize <= i < r.hourIndex ==> Observe(prices, i, sqrt).stdDev != 0.0) &&
        Scan(pair, prices, sqrt, r.hourIndex) == Completed(r.alerts)
    decreases n
  {
    if n > WindowSize {
      ScanStopsAtFirstZeroStdDev(pair, prices, sqrt, n - 1);
      if Scan(pair, prices, sqrt, n - 1).Completed? {
        ScanLogsEveryAlert(pair, prices, sqrt, n - 1);
      }
    }
  }

  /** The prices taken from the exchange's candles give at most
      TotalHours - WindowSize alerts, each for an hour in WindowSize ..
      TotalHours - 1. */
  lemma FetchedPricesBoundAlerts(pair: string, response: Option<seq<Candles.Candle>>, sqrt: real -> real)
    ensures var a := CalculateAlertOutcome(pair, Candles.FetchHourlyPrices(response), sqrt);
      !a.InsufficientPrices? ==>
        |a.alerts| <= TotalHours - WindowSize &&
        forall k :: 0 <= k < |a.alerts| ==> WindowSize <= a.alerts[k].hourIndex < TotalHours
  {
    var prices := Candles.FetchHourlyPrices(response);
    if prices.Some? && WindowSize <= |prices.value| {
      ScanLogsOnlyAlerts(pair, prices.value, sqrt, |prices.value|);
    }
  }

  /** A first window of identical prices followed by any further price ends
      the run at hour WindowSize with nothing logged. */
  lemma FlatFirstWindowStopsRun(pair: string, prices: seq<real>, sqrt: real -> real)
    requires IsSquareRoot(sqrt)
    requires WindowSize < |prices|
    requires forall k :: 0 <= k < WindowSize ==> prices[k] == prices[0]
    ensures CalculateAlertOutcome(pair, Some(prices), sqrt) == ZeroStdDev(WindowSize, [])
  {
    ObservationMeaning(prices, WindowSize, sqrt);
    ScanLogsOnlyAlerts(pair, prices, sqrt, |prices|);
    ScanLogsEveryAlert(pair, prices, sqrt, |prices|);
    ScanStopsAtFirstZeroStdDev(pair, prices, sqrt, |prices|);
  }
}
