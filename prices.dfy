/** The value types of pkg/data_handler.go: one OHLCV bar and a group of bars. */
module Prices {

  /** A Go float64, carried as its 64-bit IEEE 754 pattern. The handler never
      does arithmetic on prices, so only equality of values matters. */
  type Float64 = bv64

  /** One OHLCV observation (`DataPoint`), immutable once built. */
  datatype DataPoint = DataPoint(open: Float64, high: Float64, low: Float64, close: Float64, volume: Float64)

  /** `AggregatedDataPoints`: the window handed to the simulation on one step,
      oldest bar first. */
  datatype AggregatedDataPoints = AggregatedDataPoints(datapoints: seq<DataPoint>)
}
