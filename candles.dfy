/** The hourly candles returned by the exchange and the closing prices taken
    from them. */
module Candles {
  import opened Optional
  import opened Settings

  /** One hourly candle: the exchange sends the array
      [time, open, high, low, close, volume]. */
  datatype Candle = Candle(time: int, open: real, high: real, low: real, close: real, volume: real)

  /** Field `k` of the candle's array form; `Field(c, 4)` is `candle[4]`. */
  function Field(c: Candle, k: nat): real
    requires k < 6
  {
    match k
    case 0 => c.time as real
    case 1 => c.open
    case 2 => c.high
    case 3 => c.low
    case 4 => c.close
    case _ => c.volume
  }

  /** `[candle[4] for candle in candles]` */
  function Closes(candles: seq<Candle>): (prices: seq<real>)
    ensures |prices| == |candles|
    ensures forall k :: 0 <= k < |candles| ==> prices[k] == Field(candles[k], 4)
  {
    if |candles| == 0 then []
    else
      var rest := Closes(candles[1..]);
      assert forall k :: 1 <= k < |candles| ==> candles[k] == candles[1..][k - 1];
      [candles[0].close] + rest
  }

  /** The closing prices of the first TotalHours candles of a response:
      one price per kept candle, and price k is the close of candle k. */
  function HourlyPrices(candles: seq<Candle>): (prices: seq<real>)
    ensures |prices| == if |candles| < TotalHours then |candles| else TotalHours
    ensures forall k :: 0 <= k < |prices| ==> prices[k] == Field(candles[k], 4)
  {
    Closes(candles[..if |candles| < TotalHours then |candles| else TotalHours])
  }

  /** A failed request or an unparsable body (`None`) yields no prices, and
      only then; otherwise the prices are those of the kept candles. */
  function FetchHourlyPrices(response: Option<seq<Candle>>): (r: Option<seq<real>>)
    ensures r.None? <==> response.None?
    ensures r.Some? ==> |r.value| <= TotalHours
    ensures r.Some? ==> r.value == HourlyPrices(response.value)
  {
    match response
    case None => None
    case Some(candles) => Some(HourlyPrices(candles))
  }

  /** Candles after the first TotalHours have no effect on the prices. */
  lemma HourlyPricesIgnoresLaterCandles(candles: seq<Candle>, more: seq<Candle>)
    requires TotalHours <= |candles|
    ensures HourlyPrices(candles + more) == HourlyPrices(candles)
  {
    assert (candles + more)[..TotalHours] == candles[..TotalHours];
  }
}
