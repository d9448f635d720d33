/** The records the alert engine works on: alerts, their storage partitions,
    candles and the per-run market snapshot. Optional TypeScript fields are
    `Option`s; prices and volumes are exact reals; times are integer
    milliseconds since the epoch. */
module Alerts {
  import opened Options

  /** Fields shared by both alert kinds. `mongoId` is the storage `_id`. */
  datatype AlertBase = AlertBase(
    symbol: string,
    alertName: string,
    action: string,
    price: real,
    description: Option<string>,
    tvScreensUrls: Option<seq<string>>,
    exchanges: seq<string>,
    category: Option<int>,
    mongoId: Option<string>,
    id: string,
    creationTime: Option<int>,
    activationTime: Option<int>,
    activationTimeStr: Option<string>,
    highPrice: Option<real>,
    lowPrice: Option<real>,
    isActive: bool,
    tvLink: Option<string>,
    cgLink: Option<string>)

  /** A fixed price level to watch. */
  datatype LineAlert = LineAlert(base: AlertBase, imagesUrls: Option<seq<string>>)

  /** A VWAP anchored at `anchorTime` (seconds or milliseconds). On trigger,
      `anchorPrice` and `base.price` hold the computed VWAP. */
  datatype VwapAlert = VwapAlert(
    base: AlertBase,
    anchorTime: Option<int>,
    anchorTimeStr: Option<string>,
    anchorPrice: Option<real>,
    imageUrl: Option<string>)

  /** The three storage partitions an alert can live in. */
  datatype AlertsCollection = Working | Triggered | Archived

  /** One OHLCV bucket; the series for a symbol is ordered oldest first. */
  datatype Candle = Candle(
    openTime: int,
    openPrice: Option<real>,
    highPrice: Option<real>,
    lowPrice: Option<real>,
    closePrice: Option<real>,
    volume: Option<real>,
    volumeDelta: Option<real>,
    closeTime: int)

  datatype CoinMarketData = CoinMarketData(symbol: string, exchanges: seq<string>, candles: seq<Candle>)

  /** The checker's symbol -> candles index. */
  type KlinesMap = map<string, seq<Candle>>

  /** An alert with the fields every triggered copy rewrites cleared: the
      storage id, the identifier, and the activation time with its rendering. */
  function Unstamped(b: AlertBase): AlertBase
  {
    b.(mongoId := None, id := "", activationTime := None, activationTimeStr := None)
  }

  /** The snapshot one job run hands to the checker. */
  datatype MarketData = MarketData(
    timeframe: string,
    openTime: int,
    updatedAt: int,
    coinsNumber: int,
    data: seq<CoinMarketData>)

  /** What `uuidv4()` and `Date.now()` yield for one triggered copy. */
  datatype Stamp = Stamp(id: string, time: int)

  /** The non-deterministic inputs of one evaluation stage: the stamp drawn
      for the k-th triggered copy, and the wall-clock rendering of a time. */
  datatype Supply = Supply(stamp: nat -> Stamp, render: int -> string)
}
