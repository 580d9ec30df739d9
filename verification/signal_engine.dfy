/** The trend / volatility-band / crossover-entry computation of the signal
    engine, its three-timeframe agreement cycle and the webhook retry policy.

    The `ta` indicators are not recomputed: the zero-lag EMA, the average true
    range and the RSI arrive as per-bar inputs next to the closes. Prices are
    `real`; a pandas NaN is `None`, and every comparison with a `None`
    operand is false, as a comparison with NaN is. */
module SignalEngine {
  import opened Common

  /** One frame of bars with the indicator columns the engine reads. */
  datatype Bars = Bars(
    close: seq<real>,
    zlema: seq<Option<real>>,
    atr: seq<real>,
    rsi: seq<Option<real>>)
  {
    predicate WellFormed()
    {
      |zlema| == |close| && |atr| == |close| && |rsi| == |close|
    }
  }

  datatype Params = Params(emaLength: int, rsiLength: int, bandMult: real)

  /** `ta`'s EMA rejects a span below one. */
  predicate ValidParams(p: Params)
  {
    p.emaLength >= 1
  }

  /** The keyword defaults of `detect_signals` and `get_trend`. */
  const Defaults := Params(70, 14, 1.2)

  /** What `detect_signals` returns, column by column. */
  datatype Signals = Signals(
    longEntry: seq<bool>,
    shortEntry: seq<bool>,
    zlema: seq<Option<real>>,
    trend: seq<int>,
    rsi: seq<Option<real>>)

  // ---------------------------------------------------------------------------
  // pandas building blocks

  /** `series.shift(k)`: the first `k` positions become NaN. */
  function Shift<T>(s: seq<T>, k: nat): (r: seq<Option<T>>)
    ensures |r| == |s|
    ensures forall i :: 0 <= i < |s| ==> (r[i].Some? <==> k <= i)
    ensures forall i :: k <= i < |s| ==> r[i].value == s[i - k]
  {
    seq(|s|, i requires 0 <= i < |s| => if k <= i then Some(s[i - k]) else None)
  }

  /** `shift(1)` of a column that may already hold NaN. */
  function ShiftOne(s: seq<Option<real>>): (r: seq<Option<real>>)
    ensures |r| == |s|
    ensures |s| > 0 ==> r[0] == None
    ensures forall i :: 1 <= i < |s| ==> r[i] == s[i - 1]
  {
    seq(|s|, i requires 0 <= i < |s| => if 1 <= i then s[i - 1] else None)
  }

  /** `a > b` on floats that may be NaN. */
  predicate Gt(a: Option<real>, b: Option<real>)
  {
    a.Some? && b.Some? && a.value > b.value
  }

  predicate Lt(a: Option<real>, b: Option<real>)
  {
    a.Some? && b.Some? && a.value < b.value
  }

  predicate Le(a: Option<real>, b: Option<real>)
  {
    a.Some? && b.Some? && a.value <= b.value
  }

  predicate Ge(a: Option<real>, b: Option<real>)
  {
    a.Some? && b.Some? && a.value >= b.value
  }

  /** `a + b` and `a - b` on floats that may be NaN. */
  function Plus(a: Option<real>, b: Option<real>): Option<real>
  {
    if a.Some? && b.Some? then Some(a.value + b.value) else None
  }

  function Minus(a: Option<real>, b: Option<real>): Option<real>
  {
    if a.Some? && b.Some? then Some(a.value - b.value) else None
  }

  function Lift(s: seq<real>): (r: seq<Option<real>>)
    ensures |r| == |s|
    ensures forall i :: 0 <= i < |s| ==> r[i] == Some(s[i])
  {
    seq(|s|, i requires 0 <= i < |s| => Some(s[i]))
  }

  // ---------------------------------------------------------------------------
  // De-lagged source

  /** `int((ema_length - 1) / 2)`: true division, then truncation. */
  function Lag(emaLength: int): (lag: nat)
    requires emaLength >= 1
    ensures 2 * lag <= emaLength - 1 < 2 * lag + 2
  {
    TruncToInt((emaLength - 1) as real / 2.0)
  }

  lemma DefaultLag()
    ensures Lag(Defaults.emaLength) == 34
  {
  }

  /** `src + (src - src.shift(lag))`, the series the zero-lag EMA smooths.
      It documents the EMA's input only: the EMA itself is not computed, so
      the `zlema` column of `Bars` is an input and nothing here uses this. */
  function DelaggedSource(close: seq<real>, lag: nat): (r: seq<Option<real>>)
    ensures |r| == |close|
    ensures forall i :: 0 <= i < |close| && i < lag ==> r[i] == None
    ensures forall i :: lag <= i < |close| ==> r[i] == Some(2.0 * close[i] - close[i - lag])
  {
    var src := Lift(close);
    var shifted := Shift(close, lag);
    seq(|close|, i requires 0 <= i < |close| => Plus(src[i], Minus(src[i], shifted[i])))
  }

  // ---------------------------------------------------------------------------
  // Volatility band

  /** Largest element of a non-empty window. */
  function MaxOf(s: seq<real>): (m: real)
    requires |s| > 0
    ensures forall j :: 0 <= j < |s| ==> s[j] <= m
    ensures exists j :: 0 <= j < |s| && s[j] == m
  {
    if |s| == 1 then s[0]
    else
      var rest := MaxOf(s[1..]);
      assert forall j :: 1 <= j < |s| ==> s[j] == s[1..][j - 1];
      if s[0] >= rest then s[0] else rest
  }

  /** `m` is the largest of the (at most `w`) values of `s` ending at bar `i`. */
  predicate WindowMaxAt(s: seq<real>, w: nat, i: nat, m: real)
  {
    && i < |s|
    && (forall k :: i - w < k <= i && 0 <= k ==> s[k] <= m)
    && (exists j :: i - w < j <= i && 0 <= j && s[j] == m)
  }

  /** `series.rolling(window=w).max()`: NaN until `w` values are available. */
  function RollingMax(s: seq<real>, w: nat): (r: seq<Option<real>>)
    requires w >= 1
    ensures |r| == |s|
    ensures forall i :: 0 <= i < |s| ==> (r[i].Some? <==> i >= w - 1)
    ensures forall i :: 0 <= i < |s| && r[i].Some? ==> WindowMaxAt(s, w, i, r[i].value)
  {
    seq(|s|, i requires 0 <= i < |s| =>
      if i >= w - 1 then Some(WindowMax(s, w, i)) else None)
  }

  function WindowMax(s: seq<real>, w: nat, i: nat): (m: real)
    requires 1 <= w && w - 1 <= i < |s|
    ensures WindowMaxAt(s, w, i, m)
  {
    var win := s[i - w + 1..i + 1];
    var m := MaxOf(win);
    assert forall k :: i - w < k <= i ==> s[k] == win[k - (i - w + 1)];
    var j0 :| 0 <= j0 < |win| && win[j0] == m;
    assert s[j0 + (i - w + 1)] == m;
    m
  }

  /** `series * k` on one defined value. */
  function Scale(x: real, k: real): real
  {
    x * k
  }

  /** The volatility half-width: rolling max of ATR over `3 * ema_length`
      bars, scaled by `band_mult`. */
  function Volatility(b: Bars, p: Params): (r: seq<Option<real>>)
    requires b.WellFormed() && ValidParams(p)
    ensures |r| == |b.close|
    ensures forall i :: 0 <= i < |r| ==> (r[i].Some? <==> i >= 3 * p.emaLength - 1)
    ensures forall i :: 0 <= i < |r| && r[i].Some? ==>
              exists m :: WindowMaxAt(b.atr, 3 * p.emaLength, i, m) && r[i].value == Scale(m, p.bandMult)
  {
    var rm := RollingMax(b.atr, 3 * p.emaLength);
    seq(|rm|, i requires 0 <= i < |rm| =>
      if rm[i].Some? then Some(Scale(rm[i].value, p.bandMult)) else None)
  }

  // ---------------------------------------------------------------------------
  // Trend

  /** One bar of the trend column: start at 0, set 1 above the upper band,
      then set -1 below the lower band (the later assignment wins). */
  function TrendAt(close: real, zlema: Option<real>, vol: Option<real>): (t: int)
    ensures t == -1 || t == 0 || t == 1
    ensures t == 1 <==> (zlema.Some? && vol.Some? && close > zlema.value + vol.value
                         && !(close < zlema.value - vol.value))
    ensures t == -1 <==> (zlema.Some? && vol.Some? && close < zlema.value - vol.value)
  {
    var c := Some(close);
    var initial := 0;
    var afterUp := if zlema.Some? && Gt(c, Plus(zlema, vol)) then 1 else initial;
    if zlema.Some? && Lt(c, Minus(zlema, vol)) then -1 else afterUp
  }

  function Trends(b: Bars, p: Params): (r: seq<int>)
    requires b.WellFormed() && ValidParams(p)
    ensures |r| == |b.close|
    ensures forall i :: 0 <= i < |r| ==> r[i] == TrendAt(b.close[i], b.zlema[i], Volatility(b, p)[i])
  {
    var vol := Volatility(b, p);
    seq(|b.close|, i requires 0 <= i < |b.close| => TrendAt(b.close[i], b.zlema[i], vol[i]))
  }

  /** Pointwise characterisation of the trend column: each bar depends only on
      that bar's close, zlema and volatility, never on the previous bar. */
  lemma TrendIsPointwise(b: Bars, p: Params, i: nat)
    requires b.WellFormed() && ValidParams(p) && i < |b.close|
    ensures var t := Trends(b, p)[i];
            var z := b.zlema[i];
            var v := Volatility(b, p)[i];
            && (t == 1 <==> z.Some? && v.Some? && b.close[i] > z.value + v.value
                            && !(b.close[i] < z.value - v.value))
            && (t == -1 <==> z.Some? && v.Some? && b.close[i] < z.value - v.value)
            && (t == 0 <==> !(z.Some? && v.Some? && (b.close[i] > z.value + v.value
                                                    || b.close[i] < z.value - v.value)))
  {
  }

  /** Two frames that agree on one bar's inputs agree on that bar's trend,
      whatever the earlier bars were: there is no carried state. */
  lemma {:induction false} TrendHasNoMemory(b1: Bars, b2: Bars, p: Params, i: nat)
    requires b1.WellFormed() && b2.WellFormed() && ValidParams(p)
    requires i < |b1.close| && i < |b2.close|
    requires b1.close[i] == b2.close[i] && b1.zlema[i] == b2.zlema[i]
    requires Volatility(b1, p)[i] == Volatility(b2, p)[i]
    ensures Trends(b1, p)[i] == Trends(b2, p)[i]
  {
  }

  // ---------------------------------------------------------------------------
  // Entries

  /** Bar `i` closes above the zero-lag EMA after closing at or below it on
      the previous bar, and the trend is up on both bars. */
  predicate CrossesUp(b: Bars, trend: seq<int>, i: nat)
    requires b.WellFormed() && |trend| == |b.close| && i < |b.close|
  {
    && 1 <= i && b.zlema[i].Some? && b.zlema[i - 1].Some?
    && b.close[i] > b.zlema[i].value
    && b.close[i - 1] <= b.zlema[i - 1].value
    && trend[i] == 1 && trend[i - 1] == 1
  }

  /** Bar `i` closes below the zero-lag EMA after closing at or above it on
      the previous bar, and the trend is down on both bars. */
  predicate CrossesDown(b: Bars, trend: seq<int>, i: nat)
    requires b.WellFormed() && |trend| == |b.close| && i < |b.close|
  {
    && 1 <= i && b.zlema[i].Some? && b.zlema[i - 1].Some?
    && b.close[i] < b.zlema[i].value
    && b.close[i - 1] >= b.zlema[i - 1].value
    && trend[i] == -1 && trend[i - 1] == -1
  }

  /** `(close > zlema) & (close.shift(1) <= zlema.shift(1)) & (trend == 1) & (trend.shift(1) == 1)` */
  function LongEntries(b: Bars, trend: seq<int>): (r: seq<bool>)
    requires b.WellFormed() && |trend| == |b.close|
    ensures |r| == |b.close|
    ensures forall i :: 0 <= i < |r| ==> (r[i] <==> CrossesUp(b, trend, i))
  {
    var c := Lift(b.close);
    var c1 := ShiftOne(c);
    var z1 := ShiftOne(b.zlema);
    var t1 := Shift(trend, 1);
    seq(|c|, i requires 0 <= i < |c| =>
      Gt(c[i], b.zlema[i]) && Le(c1[i], z1[i]) && trend[i] == 1 && t1[i] == Some(1))
  }

  /** `(close < zlema) & (close.shift(1) >= zlema.shift(1)) & (trend == -1) & (trend.shift(1) == -1)` */
  function ShortEntries(b: Bars, trend: seq<int>): (r: seq<bool>)
    requires b.WellFormed() && |trend| == |b.close|
    ensures |r| == |b.close|
    ensures forall i :: 0 <= i < |r| ==> (r[i] <==> CrossesDown(b, trend, i))
  {
    var c := Lift(b.close);
    var c1 := ShiftOne(c);
    var z1 := ShiftOne(b.zlema);
    var t1 := Shift(trend, 1);
    seq(|c|, i requires 0 <= i < |c| =>
      Lt(c[i], b.zlema[i]) && Ge(c1[i], z1[i]) && trend[i] == -1 && t1[i] == Some(-1))
  }

  /** `detect_signals`: every returned column is index-aligned with the input;
      the trend column is the per-bar band classification, and entries are
      crossovers of the centre line inside an established trend. */
  function DetectSignals(b: Bars, p: Params): (s: Signals)
    requires b.WellFormed() && ValidParams(p)
    ensures |s.longEntry| == |s.shortEntry| == |s.zlema| == |s.trend| == |s.rsi| == |b.close|
    ensures s.zlema == b.zlema && s.rsi == b.rsi
    ensures s.trend == Trends(b, p)
    ensures forall i :: 0 <= i < |s.trend| ==> -1 <= s.trend[i] <= 1
    ensures forall i :: 0 <= i < |s.longEntry| ==> !(s.longEntry[i] && s.shortEntry[i])
    ensures forall i :: 0 <= i < |s.longEntry| ==> (s.longEntry[i] <==> CrossesUp(b, s.trend, i))
    ensures forall i :: 0 <= i < |s.shortEntry| ==> (s.shortEntry[i] <==> CrossesDown(b, s.trend, i))
  {
    var trend := Trends(b, p);
    Signals(LongEntries(b, trend), ShortEntries(b, trend), b.zlema, trend, b.rsi)
  }

  /** `get_trend` repeats the trend lines of `detect_signals`. */
  function GetTrend(b: Bars, p: Params): (t: seq<int>)
    requires b.WellFormed() && ValidParams(p)
    ensures t == DetectSignals(b, p).trend
  {
    var vol := Volatility(b, p);
    seq(|b.close|, i requires 0 <= i < |b.close| => TrendAt(b.close[i], b.zlema[i], vol[i]))
  }

  /** An entry needs a non-zero trend on the previous bar, hence a defined
      volatility there, hence `3 * ema_length` earlier bars. */
  lemma {:induction false} EntryNeedsFullWindow(b: Bars, p: Params, i: nat)
    requires b.WellFormed() && ValidParams(p) && i < |b.close|
    ensures DetectSignals(b, p).longEntry[i] || DetectSignals(b, p).shortEntry[i] ==> i >= 3 * p.emaLength
  {
    var s := DetectSignals(b, p);
    if s.longEntry[i] || s.shortEntry[i] {
      assert 1 <= i && s.trend[i - 1] != 0;
    }
  }

  /** A frame of at most `3 * ema_length` bars never yields an entry; with the
      defaults that covers both the 100-bar fetches of the engine loop and the
      210-bar configured fetch limit. */
  lemma {:induction false} ShortFrameHasNoEntries(b: Bars, p: Params)
    requires b.WellFormed() && ValidParams(p) && |b.close| <= 3 * p.emaLength
    ensures forall i :: 0 <= i < |b.close| ==>
              !DetectSignals(b, p).longEntry[i] && !DetectSignals(b, p).shortEntry[i]
  {
    forall i | 0 <= i < |b.close|
      ensures !DetectSignals(b, p).longEntry[i] && !DetectSignals(b, p).shortEntry[i]
    {
      if DetectSignals(b, p).longEntry[i] || DetectSignals(b, p).shortEntry[i] {
        EntryNeedsFullWindow(b, p, i);
      }
    }
  }

  // ---------------------------------------------------------------------------
  // Three-timeframe agreement

  /** Number of trailing bars inspected for a recent entry (`iloc[-3:]`). */
  const RecentBars := 3

  /** Is any of the last `min(3, n)` flags set? */
  function AnyRecent(flags: seq<bool>): (r: bool)
    ensures r <==> exists j :: 0 <= j < |flags| && |flags| - RecentBars <= j && flags[j]
  {
    var recent := SliceFrom(flags, -RecentBars);
    assert forall j :: 0 <= j < |recent| ==> recent[j] == flags[|flags| - |recent| + j];
    true in recent
  }

  function CountTrue(a: bool, b: bool, c: bool): nat
  {
    (if a then 1 else 0) + (if b then 1 else 0) + (if c then 1 else 0)
  }

  datatype Direction = Long | Short

  /** The webhook payload: signal type, last 5m close, trend and rsi. */
  datatype Signal = Signal(kind: Direction, price: real, trend: int, rsi: Option<real>)

  /** One evaluation of the engine loop: no signal, one signal to send, or
      an exception caught by the loop (reading the last bar of an empty frame). */
  datatype CycleOutcome = NoSignal | Send(signal: Signal) | CycleError

  /** Timeframes agreeing on a recent long (resp. short) entry. */
  function LongAgree(s5: Signals, s15: Signals, s1h: Signals): nat
  {
    CountTrue(AnyRecent(s5.longEntry), AnyRecent(s15.longEntry), AnyRecent(s1h.longEntry))
  }

  function ShortAgree(s5: Signals, s15: Signals, s1h: Signals): nat
  {
    CountTrue(AnyRecent(s5.shortEntry), AnyRecent(s15.shortEntry), AnyRecent(s1h.shortEntry))
  }

  /** Payload built from the last 5m bar; `iloc[-1]` of an empty frame raises. */
  function Payload(kind: Direction, b5: Bars, s5: Signals): CycleOutcome
    requires b5.WellFormed() && |s5.trend| == |b5.close|
  {
    if |b5.close| == 0 then CycleError
    else
      var last := |b5.close| - 1;
      Send(Signal(kind, b5.close[last], s5.trend[last], b5.rsi[last]))
  }

  /** The send decision of `main` given the three timeframes' signals: a
      long when at least two timeframes show a recent long entry, otherwise a
      short when at least two show a recent short entry. Long is checked
      first, so a cycle sends at most one signal. */
  function Decide(b5: Bars, s5: Signals, s15: Signals, s1h: Signals): (o: CycleOutcome)
    requires b5.WellFormed() && |s5.trend| == |b5.close|
    ensures o.Send? ==> |b5.close| > 0
    ensures o.Send? ==> && o.signal.price == b5.close[|b5.close| - 1]
                        && o.signal.rsi == b5.rsi[|b5.rsi| - 1]
                        && o.signal.trend == s5.trend[|b5.close| - 1]
    ensures (o.Send? && o.signal.kind == Long) <==> LongAgree(s5, s15, s1h) >= 2 && |b5.close| > 0
    ensures (o.Send? && o.signal.kind == Short) <==>
              LongAgree(s5, s15, s1h) < 2 && ShortAgree(s5, s15, s1h) >= 2 && |b5.close| > 0
    ensures o == NoSignal <==> LongAgree(s5, s15, s1h) < 2 && ShortAgree(s5, s15, s1h) < 2
    ensures o == CycleError <==>
              (LongAgree(s5, s15, s1h) >= 2 || ShortAgree(s5, s15, s1h) >= 2) && |b5.close| == 0
  {
    if LongAgree(s5, s15, s1h) >= 2 then Payload(Long, b5, s5)
    else if ShortAgree(s5, s15, s1h) >= 2 then Payload(Short, b5, s5)
    else NoSignal
  }

  /** One pass of the engine loop over 5m, 15m and 1h frames with the
      default parameters: a sent signal carries the last 5m close and that
      bar's band classification. */
  function AgreementCycle(b5: Bars, b15: Bars, b1h: Bars): (o: CycleOutcome)
    requires b5.WellFormed() && b15.WellFormed() && b1h.WellFormed()
    ensures o.Send? ==> |b5.close| > 0 && o.signal.price == b5.close[|b5.close| - 1]
    ensures o.Send? ==>
              var last := |b5.close| - 1;
              o.signal.trend == TrendAt(b5.close[last], b5.zlema[last], Volatility(b5, Defaults)[last])
  {
    Decide(b5, DetectSignals(b5, Defaults), DetectSignals(b15, Defaults), DetectSignals(b1h, Defaults))
  }

  /** With the engine loop's 100-bar fetches (anything up to 210 bars), the
      default parameters never produce an entry, so no cycle sends. */
  lemma {:induction false} ShortFetchesNeverSend(b5: Bars, b15: Bars, b1h: Bars)
    requires b5.WellFormed() && b15.WellFormed() && b1h.WellFormed()
    requires |b5.close| <= 210 && |b15.close| <= 210 && |b1h.close| <= 210
    ensures AgreementCycle(b5, b15, b1h) == NoSignal
  {
    ShortFrameHasNoEntries(b5, Defaults);
    ShortFrameHasNoEntries(b15, Defaults);
    ShortFrameHasNoEntries(b1h, Defaults);
  }

  // ---------------------------------------------------------------------------
  // Webhook delivery with retries

  /** What one POST attempt produced: an HTTP status or a `RequestException`. */
  datatype PostOutcome = Responded(status: int) | RequestFailed

  const MaxWebhookAttempts := 3
  const WebhookBackoff := 2

  predicate Accepted(o: PostOutcome)
  {
    o.Responded? && o.status in {200, 201, 202}
  }

  function Pow(b: nat, e: nat): nat
  {
    if e == 0 then 1 else b * Pow(b, e - 1)
  }

  /** `send_signal_to_webhook`: `outcomes[k]` is what attempt `k + 1` gets.
      Returns whether delivery succeeded, how many POSTs were made and the
      sleeps (seconds) performed between and after failed attempts. */
  method SendSignalToWebhook(outcomes: seq<PostOutcome>) returns (ok: bool, attempts: nat, sleeps: seq<nat>)
    requires |outcomes| >= MaxWebhookAttempts
    ensures 1 <= attempts <= MaxWebhookAttempts
    ensures ok <==> exists k :: 0 <= k < MaxWebhookAttempts && Accepted(outcomes[k])
    ensures ok ==> Accepted(outcomes[attempts - 1])
    ensures forall k :: 0 <= k < attempts - 1 ==> !Accepted(outcomes[k])
    ensures !ok ==> attempts == MaxWebhookAttempts
    ensures |sleeps| == (if ok then attempts - 1 else attempts)
    ensures forall k :: 0 <= k < |sleeps| ==> sleeps[k] == Pow(WebhookBackoff, k + 1)
  {
    var attempt := 1;
    sleeps := [];
    while attempt <= MaxWebhookAttempts
      invariant 1 <= attempt <= MaxWebhookAttempts + 1
      invariant forall k :: 0 <= k < attempt - 1 ==> !Accepted(outcomes[k])
      invariant |sleeps| == attempt - 1
      invariant forall k :: 0 <= k < |sleeps| ==> sleeps[k] == Pow(WebhookBackoff, k + 1)
    {
      if Accepted(outcomes[attempt - 1]) {
        return true, attempt, sleeps;
      }
      sleeps := sleeps + [Pow(WebhookBackoff, attempt)];
      attempt := attempt + 1;
    }
    return false, MaxWebhookAttempts, sleeps;
  }
}
