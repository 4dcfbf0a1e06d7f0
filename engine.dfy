/** The bot engine: one polling cycle that marks the held position to market, enforces a
    daily-loss kill switch, gates decisions to once per UTC day after a settlement buffer,
    sizes the position with the strategy and persists its state record. */
module Engine {
  import opened Wrappers
  import opened Seqs
  import Strategy
  import opened PaperExchange

  /** The JSON record the engine keeps in its state file. */
  datatype PersistedState = PersistedState(
    lastDecisionDay: Option<string>,
    equityCurve: seq<real>,
    dailyReturns: seq<real>,
    lastPrice: Option<real>,
    halted: bool)

  /** The record `_load_state` starts from when no state file exists. */
  function FreshState(): (s: PersistedState)
    ensures s.lastDecisionDay.None? && s.lastPrice.None? && !s.halted
    ensures s.equityCurve == [1.0] && s.dailyReturns == []
    ensures Balanced(s)
  {
    PersistedState(None, [1.0], [], None, false)
  }

  /** `_load_state`: the stored record when the file exists, the fresh one otherwise. */
  function LoadState(stored: Option<PersistedState>): (r: PersistedState)
    ensures stored.Some? ==> r == stored.value
    ensures stored.None? ==> r == FreshState()
    ensures stored.None? ==> WellFormed(r) && Balanced(r) && r.lastPrice.None? && !r.halted
  {
    stored.GetOr(FreshState())
  }

  /** What the cycle needs of a record: a last equity point to compound from and a last
      price it can divide by. */
  predicate WellFormed(s: PersistedState) {
    |s.equityCurve| > 0 && (s.lastPrice.Some? ==> s.lastPrice.value != 0.0)
  }

  /** One equity point more than returns: the baseline plus one point per return. */
  predicate Balanced(s: PersistedState) {
    |s.equityCurve| == |s.dailyReturns| + 1
  }

  /** The configuration the engine reads; optional keys fall back to the source's defaults. */
  datatype Config = Config(
    symbol: string,
    enabled: Option<bool>,
    decisionBufferMinutes: Option<int>,
    maxDailyLossPct: Option<real>,
    notionalUsd: real,
    strategy: Strategy.Params)

  const DefaultBufferMinutes: int := 10
  const DefaultMaxDailyLoss: real := 0.05
  /** How many daily closes a decision asks the exchange for. */
  const DecisionHistory: int := 500

  /** `cfg.get('enabled', True)`: enabled unless the key says otherwise. */
  predicate Enabled(cfg: Config)
    ensures Enabled(cfg) <==> cfg.enabled != Some(false)
  {
    cfg.enabled.GetOr(true)
  }

  /** `cfg.get('decision_buffer_minutes', 10)` */
  function BufferMinutes(cfg: Config): (m: int)
    ensures cfg.decisionBufferMinutes.None? ==> m == 10
    ensures cfg.decisionBufferMinutes.Some? ==> m == cfg.decisionBufferMinutes.value
  {
    cfg.decisionBufferMinutes.GetOr(DefaultBufferMinutes)
  }

  /** `cfg['risk'].get('max_daily_loss_pct', 0.05)` */
  function MaxDailyLoss(cfg: Config): (l: real)
    ensures cfg.maxDailyLossPct.None? ==> l == 0.05
    ensures cfg.maxDailyLossPct.Some? ==> l == cfg.maxDailyLossPct.value
  {
    cfg.maxDailyLossPct.GetOr(DefaultMaxDailyLoss)
  }

  /** The UTC wall clock of one cycle: calendar day (`YYYY-MM-DD`), hour and minute. */
  datatype Clock = Clock(day: string, hour: int, minute: int)

  function Abs(x: real): real { if x < 0.0 then -x else x }

  // ---------------------------------------------------------------- decision gate

  /** `_after_buffer`: true from `buffer` minutes past UTC midnight on. Because any hour past
      midnight passes, a buffer of an hour or more acts as exactly one hour. */
  predicate AfterBuffer(hour: int, minute: int, buffer: int)
    ensures 0 <= hour < 24 && 0 <= minute < 60 ==>
      (AfterBuffer(hour, minute, buffer) <==> hour * 60 + minute >= Min(buffer, 60))
  {
    (hour == 0 && minute >= buffer) || hour > 0
  }

  // ---------------------------------------------------------------- mark to market

  /** The return booked for holding `position` while the price moved from `lastPrice` to
      `price`: signed, so a short gains when the price falls. */
  function DailyReturn(position: real, lastPrice: real, price: real): (ret: real)
    requires lastPrice != 0.0
    ensures 0.0 < lastPrice ==>
      (ret > 0.0 <==> (position > 0.0 && price > lastPrice) || (position < 0.0 && price < lastPrice))
    ensures position == 0.0 || price == lastPrice ==> ret == 0.0
  {
    position * (price / lastPrice - 1.0)
  }

  /** The equity point after `eq` once the return `ret` is booked. */
  function Compound(eq: real, ret: real): (r: real)
    ensures ret == 0.0 ==> r == eq
    ensures 0.0 < eq ==> (eq < r <==> 0.0 < ret) && (r < eq <==> ret < 0.0)
    ensures 0.0 < eq ==> (0.0 < r <==> -1.0 < ret)
  {
    PositiveScaleKeepsSign(eq, ret);
    PositiveScaleKeepsSign(eq, 1.0 + ret);
    eq * (1.0 + ret)
  }

  /** A positive factor keeps the sign of the other. */
  lemma PositiveScaleKeepsSign(a: real, b: real)
    ensures 0.0 < a ==> (0.0 < a * b <==> 0.0 < b)
    ensures 0.0 < a ==> (a * b < 0.0 <==> b < 0.0)
  {
    if a <= 0.0 {
    } else if 0.0 < b { assert 0.0 < a * b; }
    else if b < 0.0 { assert a * b < 0.0; }
  }

  /** `_mark_to_market(price)` with the adapter's position `position` and the configured
      daily loss limit `maxLoss`. */
  function Mark(s: PersistedState, price: real, position: real, maxLoss: real): (r: PersistedState)
    requires WellFormed(s)
    ensures r.lastPrice == Some(price) && r.lastDecisionDay == s.lastDecisionDay
    ensures s.lastPrice.None? ==> r == s.(lastPrice := Some(price))
    ensures s.lastPrice.Some? ==>
      var ret := DailyReturn(position, s.lastPrice.value, price);
      && r.dailyReturns == s.dailyReturns + [ret]
      && r.equityCurve == s.equityCurve + [Compound(s.equityCurve[|s.equityCurve| - 1], ret)]
      && (r.halted <==> s.halted || ret <= -Abs(maxLoss))
    ensures |s.equityCurve| <= |r.equityCurve| && r.equityCurve[..|s.equityCurve|] == s.equityCurve
    ensures |s.dailyReturns| <= |r.dailyReturns| && r.dailyReturns[..|s.dailyReturns|] == s.dailyReturns
    ensures Balanced(s) ==> Balanced(r)
    ensures s.halted ==> r.halted
  {
    match s.lastPrice
    case None => s.(lastPrice := Some(price))
    case Some(lp) =>
      var ret := DailyReturn(position, lp, price);
      var eqPrev := s.equityCurve[|s.equityCurve| - 1];
      s.(dailyReturns := s.dailyReturns + [ret],
         equityCurve := s.equityCurve + [Compound(eqPrev, ret)],
         lastPrice := Some(price),
         halted := if ret <= -Abs(maxLoss) then true else s.halted)
  }

  /** The first mark only records the price: the position is never consulted. */
  lemma FirstMarkIgnoresPosition(s: PersistedState, price: real, p1: real, p2: real, maxLoss: real)
    requires WellFormed(s) && s.lastPrice.None?
    ensures Mark(s, price, p1, maxLoss) == Mark(s, price, p2, maxLoss)
    ensures Mark(s, price, p1, maxLoss).dailyReturns == s.dailyReturns
  {
  }

  // ---------------------------------------------------------------- one cycle

  /** The quantity ordered: target leverage times notional, in base units at `price`; zero
      when the price is not positive. */
  function TargetQuantity(lev: real, notional: real, price: real): (q: real)
    ensures 0.0 < price ==> q * price == lev * notional
    ensures price <= 0.0 ==> q == 0.0
    ensures 0.0 < price && 0.0 < notional ==> (q > 0.0 <==> lev > 0.0) && (q < 0.0 <==> lev < 0.0)
  {
    var targetNotional := lev * notional;
    if price > 0.0 then targetNotional / price else 0.0
  }

  /** The status record `run_once` returns. */
  datatype Status =
    | Disabled
    | Halted
    | AlreadyDecidedToday
    | WaitingForDailyCloseBuffer
    | Ok(symbol: string, price: real, targetLeverageProxy: real, targetBtc: real, orderResult: OrderResult)

  /** What one cycle returns, the record it leaves, whether it wrote the state file, and the
      paper position afterwards. */
  datatype CycleResult = CycleResult(status: Status, state: PersistedState, persisted: bool, position: real)

  /** What a cycle relies on: a well-formed record, and a non-empty history of positive closes
      on which the strategy is defined. */
  predicate Runnable(cfg: Config, s: PersistedState, feed: seq<real>) {
    && WellFormed(s)
    && |feed| > 0
    && AllPositive(feed)
    && Strategy.Defined(PyTail(feed, DecisionHistory), cfg.strategy)
  }

  /** `run_once` at wall clock `now`, against a paper exchange holding the closes `feed` and the
      position `position`. */
  function Cycle(cfg: Config, s: PersistedState, feed: seq<real>, position: real, now: Clock,
                 sqrt: Strategy.SqrtFn): (r: CycleResult)
    requires Runnable(cfg, s, feed)
    ensures WellFormed(r.state)
    ensures r.status.Disabled? <==> !Enabled(cfg)
    ensures r.status.Halted? <==> Enabled(cfg) && s.halted
    ensures r.status.AlreadyDecidedToday? <==>
      Enabled(cfg) && !s.halted && s.lastDecisionDay == Some(now.day)
    ensures r.status.WaitingForDailyCloseBuffer? <==>
      Enabled(cfg) && !s.halted && s.lastDecisionDay != Some(now.day) &&
      !AfterBuffer(now.hour, now.minute, BufferMinutes(cfg))
    ensures r.persisted <==> !r.status.Disabled? && !r.status.Halted?
    ensures !r.persisted ==> r.state == s
    ensures r.persisted ==>
      r.state.(lastDecisionDay := s.lastDecisionDay) == Mark(s, feed[|feed| - 1], position, MaxDailyLoss(cfg))
    ensures !r.status.Ok? ==> r.position == position && r.state.lastDecisionDay == s.lastDecisionDay
    ensures r.status.Ok? ==>
      && r.state.lastDecisionDay == Some(now.day)
      && r.status.price == feed[|feed| - 1]
      && r.status.targetLeverageProxy ==
           Strategy.Target(PyTail(feed, DecisionHistory), r.state.equityCurve, cfg.strategy, sqrt)
      && r.status.targetBtc == TargetQuantity(r.status.targetLeverageProxy, cfg.notionalUsd, r.status.price)
      && r.position == r.status.targetBtc
      && r.status.orderResult == PaperOrder(cfg.symbol, r.position, false)
  {
    if !Enabled(cfg) then CycleResult(Disabled, s, false, position)
    else if s.halted then CycleResult(Halted, s, false, position)
    else
      var price := feed[|feed| - 1];
      var m := Mark(s, price, position, MaxDailyLoss(cfg));
      if m.lastDecisionDay == Some(now.day) then CycleResult(AlreadyDecidedToday, m, true, position)
      else if !AfterBuffer(now.hour, now.minute, BufferMinutes(cfg)) then
        CycleResult(WaitingForDailyCloseBuffer, m, true, position)
      else
        var closes := PyTail(feed, DecisionHistory);
        PyTailAllPositive(feed, DecisionHistory);
        var lev := Strategy.Target(closes, m.equityCurve, cfg.strategy, sqrt);
        var qty := TargetQuantity(lev, cfg.notionalUsd, price);
        CycleResult(Ok(cfg.symbol, price, lev, qty, PaperOrder(cfg.symbol, qty, false)),
                    m.(lastDecisionDay := Some(now.day)), true, qty)
  }

  /** The return booked by the cycle after a decision applies the quantity that decision
      ordered to the move from the decision's price to the new price. */
  lemma NextMarkUsesOrderedQuantity(cfg: Config, s: PersistedState, feed: seq<real>, position: real,
                                     now: Clock, feed2: seq<real>, now2: Clock, sqrt: Strategy.SqrtFn)
    requires Runnable(cfg, s, feed)
    requires Cycle(cfg, s, feed, position, now, sqrt).status.Ok?
    requires Runnable(cfg, Cycle(cfg, s, feed, position, now, sqrt).state, feed2)
    ensures
      var r1 := Cycle(cfg, s, feed, position, now, sqrt);
      var r2 := Cycle(cfg, r1.state, feed2, r1.position, now2, sqrt);
      r2.persisted ==>
        r2.state.dailyReturns ==
          r1.state.dailyReturns + [DailyReturn(r1.status.targetBtc, r1.status.price, feed2[|feed2| - 1])]
  {
  }

  /** After a decision on one day, another cycle on the same day does not decide again. */
  lemma DecisionIsIdempotentWithinDay(cfg: Config, s: PersistedState, feed: seq<real>, position: real,
                                      now: Clock, feed2: seq<real>, now2: Clock, sqrt: Strategy.SqrtFn)
    requires Runnable(cfg, s, feed)
    requires Cycle(cfg, s, feed, position, now, sqrt).status.Ok?
    requires Runnable(cfg, Cycle(cfg, s, feed, position, now, sqrt).state, feed2)
    requires now2.day == now.day
    ensures
      var r1 := Cycle(cfg, s, feed, position, now, sqrt);
      Cycle(cfg, r1.state, feed2, r1.position, now2, sqrt).status ==
        if r1.state.halted then Halted else AlreadyDecidedToday
  {
  }

  // ---------------------------------------------------------------- many cycles

  /** The statuses of successive cycles, the record left after the last one and the paper
      position then. */
  datatype Trace = Trace(statuses: seq<Status>, state: PersistedState, position: real)

  /** Successive cycles at the wall clocks `clocks`, as the continuous mode polls them. */
  function Polls(cfg: Config, s: PersistedState, feed: seq<real>, position: real, clocks: seq<Clock>,
                 sqrt: Strategy.SqrtFn): (t: Trace)
    requires Runnable(cfg, s, feed)
    ensures |t.statuses| == |clocks|
    ensures WellFormed(t.state)
    decreases |clocks|
  {
    if clocks == [] then Trace([], s, position)
    else
      var r := Cycle(cfg, s, feed, position, clocks[0], sqrt);
      var rest := Polls(cfg, r.state, feed, r.position, clocks[1..], sqrt);
      Trace([r.status] + rest.statuses, rest.state, rest.position)
  }

  /** How many cycles placed an order. */
  function Decisions(statuses: seq<Status>): nat {
    if statuses == [] then 0 else (if statuses[0].Ok? then 1 else 0) + Decisions(statuses[1..])
  }

  predicate AllOnDay(clocks: seq<Clock>, day: string) {
    forall i :: 0 <= i < |clocks| ==> clocks[i].day == day
  }

  /** Once a day is decided, further cycles on that day place no order and leave the
      decision day and the position as they were. */
  lemma {:induction false} DecidedDayStaysDecided(cfg: Config, s: PersistedState, feed: seq<real>,
                                                   position: real, clocks: seq<Clock>, sqrt: Strategy.SqrtFn)
    requires Runnable(cfg, s, feed)
    requires s.lastDecisionDay.Some? && AllOnDay(clocks, s.lastDecisionDay.value)
    ensures var t := Polls(cfg, s, feed, position, clocks, sqrt);
      Decisions(t.statuses) == 0 && t.state.lastDecisionDay == s.lastDecisionDay && t.position == position
    decreases |clocks|
  {
    if clocks != [] {
      var r := Cycle(cfg, s, feed, position, clocks[0], sqrt);
      DecidedDayStaysDecided(cfg, r.state, feed, r.position, clocks[1..], sqrt);
    }
  }

  /** At most one decision per UTC day: however often the engine polls within one day, at
      most one of those cycles places an order. */
  lemma {:induction false} AtMostOneDecisionPerDay(cfg: Config, s: PersistedState, feed: seq<real>,
                                                    position: real, clocks: seq<Clock>, day: string,
                                                    sqrt: Strategy.SqrtFn)
    requires Runnable(cfg, s, feed)
    requires AllOnDay(clocks, day)
    ensures Decisions(Polls(cfg, s, feed, position, clocks, sqrt).statuses) <= 1
    decreases |clocks|
  {
    if clocks != [] {
      var r := Cycle(cfg, s, feed, position, clocks[0], sqrt);
      if r.status.Ok? {
        DecidedDayStaysDecided(cfg, r.state, feed, r.position, clocks[1..], sqrt);
      } else {
        AtMostOneDecisionPerDay(cfg, r.state, feed, r.position, clocks[1..], day, sqrt);
      }
    }
  }

  /** The kill switch is final: once halted, every later cycle stops at the halted (or
      disabled) exit and the record and the position never change again. */
  lemma {:induction false} HaltIsPermanent(cfg: Config, s: PersistedState, feed: seq<real>, position: real,
                                           clocks: seq<Clock>, sqrt: Strategy.SqrtFn)
    requires Runnable(cfg, s, feed) && s.halted
    ensures var t := Polls(cfg, s, feed, position, clocks, sqrt);
      && t.state == s && t.position == position
      && forall i :: 0 <= i < |t.statuses| ==> t.statuses[i] == if Enabled(cfg) then Halted else Disabled
    decreases |clocks|
  {
    if clocks != [] {
      HaltIsPermanent(cfg, s, feed, position, clocks[1..], sqrt);
    }
  }

  /** `t` is `s` with more bookings: both lists only grew at their ends, the curve keeps one
      more point than the returns if it did before, and a halt is still set. */
  predicate Extends(t: PersistedState, s: PersistedState) {
    && |s.equityCurve| <= |t.equityCurve| && t.equityCurve[..|s.equityCurve|] == s.equityCurve
    && |s.dailyReturns| <= |t.dailyReturns| && t.dailyReturns[..|s.dailyReturns|] == s.dailyReturns
    && (Balanced(s) ==> Balanced(t))
    && (s.halted ==> t.halted)
  }

  lemma ExtendsTrans(u: PersistedState, t: PersistedState, s: PersistedState)
    requires Extends(u, t) && Extends(t, s)
    ensures Extends(u, s)
  {
    assert u.equityCurve[..|s.equityCurve|] == u.equityCurve[..|t.equityCurve|][..|s.equityCurve|];
    assert u.dailyReturns[..|s.dailyReturns|] == u.dailyReturns[..|t.dailyReturns|][..|s.dailyReturns|];
  }

  /** One cycle only adds bookings. */
  lemma CycleExtends(cfg: Config, s: PersistedState, feed: seq<real>, position: real, now: Clock,
                     sqrt: Strategy.SqrtFn)
    requires Runnable(cfg, s, feed)
    ensures Extends(Cycle(cfg, s, feed, position, now, sqrt).state, s)
  {
  }

  /** The equity curve and the return history are append-only, never shrink, and keep one more
      equity point than returns; a set halt flag is never cleared. */
  lemma {:induction false} LedgerIsAppendOnly(cfg: Config, s: PersistedState, feed: seq<real>, position: real,
                                              clocks: seq<Clock>, sqrt: Strategy.SqrtFn)
    requires Runnable(cfg, s, feed)
    ensures Extends(Polls(cfg, s, feed, position, clocks, sqrt).state, s)
    decreases |clocks|
  {
    if clocks != [] {
      var r := Cycle(cfg, s, feed, position, clocks[0], sqrt);
      CycleExtends(cfg, s, feed, position, clocks[0], sqrt);
      LedgerIsAppendOnly(cfg, r.state, feed, r.position, clocks[1..], sqrt);
      ExtendsTrans(Polls(cfg, r.state, feed, r.position, clocks[1..], sqrt).state, r.state, s);
    }
  }

  // ---------------------------------------------------------------- the engine object

  class BotEngine {
    const cfg: Config
    const adapter: PaperAdapter
    /** The square root the strategy uses. */
    const sqrt: Strategy.SqrtFn

    var lastDecisionDay: Option<string>
    var equityCurve: seq<real>
    var dailyReturns: seq<real>
    var lastPrice: Option<real>
    var halted: bool

    /** The record last written to the state file; `None` while no file exists. */
    ghost var saved: Option<PersistedState>

    /** `self.state` */
    function State(): PersistedState
      reads this
    {
      PersistedState(lastDecisionDay, equityCurve, dailyReturns, lastPrice, halted)
    }

    ghost predicate Valid()
      reads this
    {
      Runnable(cfg, State(), adapter.closes)
    }

    /** `BotEngine(cfg, adapter)`: loads the stored record, or starts fresh. The entry point
        refuses any symbol but BTCUSDT. */
    constructor (cfg: Config, adapter: PaperAdapter, sqrt: Strategy.SqrtFn, stored: Option<PersistedState>)
      requires cfg.symbol == "BTCUSDT"
      requires Runnable(cfg, LoadState(stored), adapter.closes)
      ensures Valid()
      ensures this.cfg == cfg && this.adapter == adapter && this.sqrt == sqrt
      ensures State() == LoadState(stored) && saved == stored
    {
      this.cfg := cfg;
      this.adapter := adapter;
      this.sqrt := sqrt;
      var s := LoadState(stored);
      lastDecisionDay := s.lastDecisionDay;
      equityCurve := s.equityCurve;
      dailyReturns := s.dailyReturns;
      lastPrice := s.lastPrice;
      halted := s.halted;
      saved := stored;
    }

    /** `_save_state`: the file now holds the current record. */
    ghost method SaveState()
      modifies this`saved
      ensures saved == Some(State())
    {
      saved := Some(State());
    }

    /** `_mark_to_market(price)`; the engine only marks at the feed's (positive) latest close. */
    method MarkToMarket(price: real)
      requires Valid() && price > 0.0
      modifies this`lastPrice, this`dailyReturns, this`equityCurve, this`halted
      ensures Valid()
      ensures State() == Mark(old(State()), price, adapter.paperPosition, MaxDailyLoss(cfg))
    {
      var lp := lastPrice;
      if lp.None? {
        lastPrice := Some(price);
        return;
      }
      var pos := adapter.GetPosition(cfg.symbol);
      var ret := DailyReturn(pos, lp.value, price);
      dailyReturns := dailyReturns + [ret];
      var eqPrev := equityCurve[|equityCurve| - 1];
      equityCurve := equityCurve + [Compound(eqPrev, ret)];
      lastPrice := Some(price);
      var maxLoss := MaxDailyLoss(cfg);
      if ret <= -Abs(maxLoss) {
        halted := true;
      }
    }

    /** `run_once()` at wall clock `now`: one cycle, equal to `Cycle` on the record, the
        exchange's closes and position before the call. */
    method RunOnce(now: Clock) returns (out: Status)
      requires Valid()
      modifies this, adapter
      ensures Valid()
      ensures var r := Cycle(cfg, old(State()), adapter.closes, old(adapter.paperPosition), now, sqrt);
        && out == r.status
        && State() == r.state
        && adapter.paperPosition == r.position
        && saved == (if r.persisted then Some(State()) else old(saved))
      ensures old(halted) ==> halted && unchanged(this)
    {
      if !Enabled(cfg) {
        return Disabled;
      }
      if halted {
        return Halted;
      }
      ghost var s0, pos0 := State(), adapter.paperPosition;
      var symbol := cfg.symbol;
      var price := adapter.GetMarkPrice(symbol);
      MarkToMarket(price);
      ghost var m := State();
      assert m == Mark(s0, price, pos0, MaxDailyLoss(cfg));
      if lastDecisionDay == Some(now.day) {
        SaveState();
        return AlreadyDecidedToday;
      }
      if !AfterBuffer(now.hour, now.minute, BufferMinutes(cfg)) {
        SaveState();
        return WaitingForDailyCloseBuffer;
      }
      var closes := adapter.FetchDailyCloses(symbol, DecisionHistory);
      PyTailAllPositive(adapter.closes, DecisionHistory);
      var targetLev := Strategy.Target(closes, equityCurve, cfg.strategy, sqrt);
      var targetBtc := TargetQuantity(targetLev, cfg.notionalUsd, price);
      var result := adapter.SetTargetPosition(symbol, targetBtc);
      lastDecisionDay := Some(now.day);
      SaveState();
      out := Ok(symbol, price, targetLev, targetBtc, result);
      assert State() == m.(lastDecisionDay := Some(now.day));
    }
  }
}
