/** The trailing-window stream of pkg/data_handler.go: a `DataHandler` owns the
    price series, a window size W and a cursor; each `nextValues` call hands out
    the W bars that end just before the cursor and moves the cursor by one, or
    returns nil once the cursor has reached the end of the series. */
module Stream {
  import opened Wrappers
  import opened Prices

  function Max(a: int, b: int): int { if a < b then b else a }

  function Min(a: int, b: int): int { if a < b then a else b }

  /** The three fields of a `DataHandler`, as a value. */
  datatype HandlerState = HandlerState(counter: int, windowSize: int, prices: seq<DataPoint>)

  /** The handler invariant: the slice `prices[counter-W : counter]` is in range
      whenever `counter < len(prices)`, and the cursor never passes the end of
      the series unless it started there. */
  predicate Inv(st: HandlerState) {
    0 <= st.windowSize <= st.counter <= Max(st.windowSize, |st.prices|)
  }

  /** The state `newDataHandler(prices, windowSize)` builds. */
  function Init(prices: seq<DataPoint>, windowSize: nat): (st: HandlerState)
    ensures Inv(st)
    ensures st.prices == prices && st.windowSize == windowSize && st.counter == windowSize
  {
    HandlerState(windowSize, windowSize, prices)
  }

  /** One `nextValues` call: the window it returns (None for nil) and the state
      it leaves behind. */
  function Next(st: HandlerState): (r: (Option<AggregatedDataPoints>, HandlerState))
    requires Inv(st)
    ensures Inv(r.1)
    ensures r.1.prices == st.prices && r.1.windowSize == st.windowSize
    ensures r.0.Some? <==> st.counter < |st.prices|
    ensures r.0.Some? ==> |r.0.value.datapoints| == st.windowSize && r.1.counter == st.counter + 1
    ensures r.0.Some? ==> forall i :: 0 <= i < st.windowSize ==>
              r.0.value.datapoints[i] == st.prices[st.counter - st.windowSize + i]
    ensures r.0.None? ==> r.1 == st
  {
    if st.counter < |st.prices| then
      (Some(AggregatedDataPoints(st.prices[st.counter - st.windowSize .. st.counter])),
       st.(counter := st.counter + 1))
    else
      (None, st)
  }

  /** What n successive `nextValues` calls return, in call order. */
  function Run(st: HandlerState, n: nat): (outs: seq<Option<AggregatedDataPoints>>)
    requires Inv(st)
    ensures |outs| == n
    decreases n
  {
    if n == 0 then [] else [Next(st).0] + Run(Next(st).1, n - 1)
  }

  /** How many of the results are windows rather than nil. */
  function WindowsYielded(outs: seq<Option<AggregatedDataPoints>>): (count: nat)
    ensures count <= |outs|
  {
    if outs == [] then 0 else (if outs[0].Some? then 1 else 0) + WindowsYielded(outs[1..])
  }

  /** Call k (0-based) from any valid state returns the window that ends just
      before position counter + k, or nil once that position is past the end. */
  lemma {:induction false} RunAt(st: HandlerState, n: nat)
    requires Inv(st)
    ensures forall k :: 0 <= k < n ==>
              Run(st, n)[k] == if st.counter + k < |st.prices|
                               then Some(AggregatedDataPoints(st.prices[st.counter - st.windowSize + k .. st.counter + k]))
                               else None
    decreases n
  {
    if n > 0 {
      var st' := Next(st).1;
      RunAt(st', n - 1);
      forall k | 1 <= k < n
        ensures Run(st, n)[k] == Run(st', n - 1)[k - 1]
      {
      }
    }
  }

  /** A fresh handler over N bars with window size W yields, on call k, exactly
      the bars k .. k+W-1 while k + W < N, and nil from then on: max(0, N-W)
      windows in all, the newest bar of a window is never the last bar of the
      series, and when N <= W the very first call returns nil. */
  lemma FreshHandlerWindows(prices: seq<DataPoint>, windowSize: nat, n: nat)
    ensures forall k :: 0 <= k < n ==>
              Run(Init(prices, windowSize), n)[k] ==
                if k + windowSize < |prices|
                then Some(AggregatedDataPoints(prices[k .. k + windowSize]))
                else None
    ensures forall k :: 0 <= k < n && Run(Init(prices, windowSize), n)[k].Some? ==>
              k < Max(0, |prices| - windowSize) && k + windowSize - 1 < |prices| - 1
    ensures n > 0 && |prices| <= windowSize ==> Run(Init(prices, windowSize), n)[0].None?
  {
    RunAt(Init(prices, windowSize), n);
  }

  /** Exhaustion is terminal and idempotent: once a call returns nil, every
      later call returns nil too. */
  lemma {:induction false} ExhaustionIsTerminal(st: HandlerState, n: nat)
    requires Inv(st)
    requires Next(st).0.None?
    ensures forall k :: 0 <= k < n ==> Run(st, n)[k].None?
    decreases n
  {
    if n > 0 {
      ExhaustionIsTerminal(st, n - 1);
      assert Run(st, n) == [None] + Run(st, n - 1);
    }
  }

  /** From any valid state, n calls yield min(n, N - counter) windows (none when
      the cursor is already at or past the end). */
  lemma {:induction false} WindowCountFrom(st: HandlerState, n: nat)
    requires Inv(st)
    ensures WindowsYielded(Run(st, n)) == Min(n, Max(0, |st.prices| - st.counter))
    decreases n
  {
    if n > 0 {
      var outs := Run(st, n);
      WindowCountFrom(Next(st).1, n - 1);
      assert outs[1..] == Run(Next(st).1, n - 1);
    }
  }

  /** A fresh handler over N bars with window size W yields exactly
      max(0, N - W) windows, however many calls are made after that. */
  lemma FreshHandlerWindowCount(prices: seq<DataPoint>, windowSize: nat, n: nat)
    requires n >= |prices|
    ensures WindowsYielded(Run(Init(prices, windowSize), n)) == Max(0, |prices| - windowSize)
  {
    WindowCountFrom(Init(prices, windowSize), n);
  }

  /** Three bars with window size 2: the cursor starts at 2, so the only
      window is the first two bars; the third bar never closes a window. */
  lemma ThreeBarsWindowTwo(a: DataPoint, b: DataPoint, c: DataPoint)
    ensures Run(Init([a, b, c], 2), 3) == [Some(AggregatedDataPoints([a, b])), None, None]
  {
    FreshHandlerWindows([a, b, c], 2, 3);
    assert [a, b, c][0 .. 2] == [a, b];
  }

  /** `DataHandler`: the series, the window size and the cursor, updated in
      place by `NextValues`. */
  class DataHandler {
    var counter: int
    var windowSize: int
    var prices: seq<DataPoint>

    function State(): HandlerState
      reads this
    {
      HandlerState(counter, windowSize, prices)
    }

    ghost predicate Valid()
      reads this
    {
      Inv(State())
    }

    /** `newDataHandler`: stores the series unchanged and puts the cursor at W,
        so that the first window is `prices[0 : W]`. */
    constructor (prices: seq<DataPoint>, windowSize: nat)
      ensures Valid()
      ensures this.prices == prices && this.windowSize == windowSize && counter == windowSize
      ensures State() == Init(prices, windowSize)
    {
      this.windowSize := windowSize;
      this.prices := prices;
      this.counter := windowSize;
    }

    /** `nextValues`: while the cursor is before the end of the series, returns
        the W bars ending just before it and advances it by one; otherwise
        returns nil (None) and changes nothing. */
    method NextValues() returns (data: Option<AggregatedDataPoints>)
      requires Valid()
      modifies this
      ensures Valid()
      ensures prices == old(prices) && windowSize == old(windowSize)
      ensures old(counter) < |prices| ==>
                data == Some(AggregatedDataPoints(prices[old(counter) - windowSize .. old(counter)]))
                && counter == old(counter) + 1
      ensures old(counter) >= |prices| ==> data.None? && counter == old(counter)
      ensures (data, State()) == Next(old(State()))
    {
      if counter < |prices| {
        data := Some(AggregatedDataPoints(prices[counter - windowSize .. counter]));
        counter := counter + 1;
        return;
      }
      data := None;
    }
  }
}
