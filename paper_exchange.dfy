/** The paper-trading exchange adapter: a daily close history it serves prices from, and
    one mutable paper position that an order simply overwrites. */
module PaperExchange {
  import opened Seqs

  /** The record `set_target_position` returns. */
  datatype OrderResult = OrderResult(ok: bool, mode: string, symbol: string, targetBaseQty: real, reduceOnly: bool)

  /** What the paper adapter answers to an order for `qty` base units of `symbol`. */
  function PaperOrder(symbol: string, qty: real, reduceOnly: bool): (r: OrderResult)
    ensures r.ok && r.mode == "paper"
    ensures r.symbol == symbol && r.targetBaseQty == qty && r.reduceOnly == reduceOnly
  {
    OrderResult(true, "paper", symbol, qty, reduceOnly)
  }

  class PaperAdapter {
    /** The daily closes the adapter's CSV file holds, oldest first. */
    const closes: seq<real>
    var paperPosition: real

    constructor (closes: seq<real>)
      ensures this.closes == closes
      ensures paperPosition == 0.0
    {
      this.closes := closes;
      paperPosition := 0.0;
    }

    /** `fetch_daily_closes(symbol, limit)`: `closes[-limit:]`. */
    method FetchDailyCloses(symbol: string, limit: int) returns (r: seq<real>)
      ensures r == PyTail(closes, limit)
      ensures limit > 0 ==> |r| == Min(limit, |closes|) && r == closes[|closes| - |r|..]
    {
      r := PyTail(closes, limit);
    }

    /** `get_mark_price(symbol)`: the last of the two most recent closes, i.e. the latest
        close. The source indexes `[-1]`, so the history must not be empty. */
    method GetMarkPrice(symbol: string) returns (p: real)
      requires |closes| > 0
      ensures p == closes[|closes| - 1]
    {
      var recent := FetchDailyCloses(symbol, 2);
      p := recent[|recent| - 1];
    }

    /** `get_position(symbol)`: the paper position, read without change. */
    method GetPosition(symbol: string) returns (q: real)
      ensures q == paperPosition
    {
      q := paperPosition;
    }

    /** `set_target_position(symbol, qty, reduce_only)`: the paper position becomes `qty`. */
    method SetTargetPosition(symbol: string, qty: real, reduceOnly: bool := false) returns (r: OrderResult)
      modifies this
      ensures paperPosition == qty
      ensures r == PaperOrder(symbol, qty, reduceOnly)
    {
      paperPosition := qty;
      r := PaperOrder(symbol, qty, reduceOnly);
    }
  }

  /** A fresh adapter starts flat; an order sets the position that the next query reads. */
  method PositionFollowsOrders(closes: seq<real>, q1: real, q2: real) returns (p0: real, p1: real, p2: real)
    ensures p0 == 0.0 && p1 == q1 && p2 == q2
  {
    var a := new PaperAdapter(closes);
    p0 := a.GetPosition("BTCUSDT");
    assert p0 == 0.0;
    var r := a.SetTargetPosition("BTCUSDT", q1);
    assert r.ok && !r.reduceOnly && r.targetBaseQty == q1;
    p1 := a.GetPosition("BTCUSDT");
    assert p1 == q1;
    r := a.SetTargetPosition("BTCUSDT", q2, true);
    p2 := a.GetPosition("BTCUSDT");
    assert p2 == q2 && r.reduceOnly;
  }
}
