/** The gold price alert bot: market hours, the one-percent move rule, the
    price fetch with retries, and one iteration of the alert loop. The clock,
    the price API and Telegram are parameters: each iteration receives the
    UTC weekday, hour, minute and date, and the fetched price; the messages
    it would send come back as values. */
module XauusdBot {
  import opened Common

  // ---------------------------------------------------------------------------
  // Price fetch with retries

  /** What one GoldAPI request produced: an HTTP reply whose JSON body may
      carry a `price`, or a `RequestException`. */
  datatype PriceResponse = PriceReply(status: int, price: Option<real>) | PriceRequestError

  const MaxPriceAttempts := 3

  predicate Usable(r: PriceResponse)
  {
    r.PriceReply? && r.status == 200 && r.price.Some?
  }

  /** `get_xauusd_price`: `responses[k]` is what attempt `k + 1` gets. Returns
      the price of the first usable reply, the number of requests made and the
      sleeps (seconds) after each failed attempt. */
  method GetXauusdPrice(responses: seq<PriceResponse>) returns (price: Option<real>, attempts: nat, sleeps: seq<nat>)
    requires |responses| >= MaxPriceAttempts
    ensures 1 <= attempts <= MaxPriceAttempts
    ensures price.Some? <==> exists k :: 0 <= k < MaxPriceAttempts && Usable(responses[k])
    ensures price.Some? ==> Usable(responses[attempts - 1]) && price == responses[attempts - 1].price
    ensures forall k :: 0 <= k < attempts - 1 ==> !Usable(responses[k])
    ensures price.None? ==> attempts == MaxPriceAttempts
    ensures |sleeps| == (if price.Some? then attempts - 1 else attempts)
    ensures forall k :: 0 <= k < |sleeps| ==> sleeps[k] == k + 1
  {
    var attempt := 1;
    sleeps := [];
    while attempt <= MaxPriceAttempts
      invariant 1 <= attempt <= MaxPriceAttempts + 1
      invariant forall k :: 0 <= k < attempt - 1 ==> !Usable(responses[k])
      invariant |sleeps| == attempt - 1
      invariant forall k :: 0 <= k < |sleeps| ==> sleeps[k] == k + 1
    {
      var r := responses[attempt - 1];
      if r.PriceReply? && r.status == 200 && r.price.Some? {
        return r.price, attempt, sleeps;
      }
      sleeps := sleeps + [1 * attempt];
      attempt := attempt + 1;
    }
    return None, MaxPriceAttempts, sleeps;
  }

  // ---------------------------------------------------------------------------
  // Market hours

  /** A UTC wall-clock reading; `weekday` counts from Monday = 0, `date`
      numbers calendar days. */
  datatype Clock = Clock(weekday: int, hour: int, minute: int, date: int)

  predicate ValidClock(c: Clock)
  {
    0 <= c.weekday <= 6 && 0 <= c.hour <= 23 && 0 <= c.minute <= 59
  }

  /** Hours since Monday 00:00. */
  function HourOfWeek(c: Clock): int
  {
    c.weekday * 24 + c.hour
  }

  /** `is_market_open`: the market is closed exactly in the 48-hour window
      that starts at Friday 22:00 UTC. */
  function IsMarketOpen(c: Clock): (r: bool)
    requires ValidClock(c)
    ensures !r <==> 4 * 24 + 22 <= HourOfWeek(c) < 6 * 24 + 22
  {
    !((c.weekday == 4 && c.hour >= 22) || c.weekday == 5 || (c.weekday == 6 && c.hour < 22))
  }

  /** Minutes play no part in market hours. */
  lemma MarketHoursIgnoreMinutes(c: Clock, m: int)
    requires ValidClock(c) && 0 <= m <= 59
    ensures IsMarketOpen(c.(minute := m)) == IsMarketOpen(c)
  {
  }

  // ---------------------------------------------------------------------------
  // One-percent move rule

  /** The last-price file: absent, unreadable as a float, or a price. */
  datatype LastPriceFile = NoFile | Unparsable | Stored(price: real)

  datatype Direction = Up | Down

  datatype PriceAlert = PriceAlert(direction: Direction, percent: real, previous: real, current: real)

  /** What a price check leaves behind: the alert sent, if any, and the file. */
  datatype PriceCheck = PriceCheck(alert: Option<PriceAlert>, file: LastPriceFile)

  function Abs(x: real): real
  {
    if x < 0.0 then -x else x
  }

  /** `check_and_alert_price_change`, given the result of the price fetch. */
  function CheckAndAlertPriceChange(current: Option<real>, file: LastPriceFile): (r: PriceCheck)
    ensures current.None? ==> r == PriceCheck(None, file)
    ensures current.Some? ==> r.file == Stored(current.value)
    ensures r.alert.Some? <==>
              && current.Some? && file.Stored? && file.price > 0.0
              && 100.0 * Abs(current.value - file.price) >= file.price
    ensures r.alert.Some? ==>
              && r.alert.value.previous == file.price
              && r.alert.value.current == current.value
              && r.alert.value.percent == (current.value - file.price) / file.price * 100.0
              && (r.alert.value.direction == Up <==> current.value > file.price)
  {
    if current.None? then PriceCheck(None, file)
    else
      var cur := current.value;
      var last := if file.Stored? then file.price else cur;
      var alert :=
        if last > 0.0 then
          var percentChange := (cur - last) / last * 100.0;
          if Abs(percentChange) >= 1.0 then
            Some(PriceAlert(if percentChange > 0.0 then Up else Down, percentChange, last, cur))
          else None
        else None;
      PercentRule(cur, last);
      PriceCheck(alert, Stored(cur))
  }

  /** For a positive previous price, a move of at least one percent is a
      move of at least a hundredth of that price, and its sign is the sign of
      the difference. */
  lemma PercentRule(cur: real, last: real)
    ensures last > 0.0 ==>
              (Abs((cur - last) / last * 100.0) >= 1.0 <==> 100.0 * Abs(cur - last) >= last)
    ensures last > 0.0 ==> ((cur - last) / last * 100.0 > 0.0 <==> cur > last)
  {
    if last > 0.0 {
      var d := cur - last;
      var p := d / last * 100.0;
      assert p * last == 100.0 * d;
      if d >= 0.0 {
        AtLeastOneScaled(p, last, 100.0 * d);
      } else {
        AtLeastOneScaled(-p, last, -100.0 * d);
      }
    }
  }

  lemma AtLeastOneScaled(q: real, last: real, v: real)
    requires last > 0.0 && q * last == v
    ensures q >= 1.0 <==> v >= last
  {
    if q >= 1.0 {
      assert (q - 1.0) * last >= 0.0;
    } else {
      assert (1.0 - q) * last > 0.0;
    }
  }

  // ---------------------------------------------------------------------------
  // One iteration of the alert loop

  datatype MarketStatus = Open | Closed

  /** The Telegram messages the loop sends. */
  datatype Message =
    | StatusMessage(status: MarketStatus)
    | PriceMoved(alert: PriceAlert)
    | DailySummary(date: int)

  /** The loop's memory: last announced status, last summary date, and the
      last-price file. */
  datatype BotState = BotState(lastStatus: Option<MarketStatus>, lastSummaryDate: Option<int>, file: LastPriceFile)

  datatype StepResult = StepResult(state: BotState, messages: seq<Message>)

  /** One pass of `main_signal_engine`: announce a status change, check the
      price while the market is open (`fetched` is what the price fetch
      returned), and send the daily summary at 23:59 once per date. */
  function Step(st: BotState, c: Clock, fetched: Option<real>): (r: StepResult)
    requires ValidClock(c)
    ensures r.state.lastStatus == Some(if IsMarketOpen(c) then Open else Closed)
    // no price check while closed
    ensures !IsMarketOpen(c) ==> r.state.file == st.file && forall m :: m in r.messages ==> !m.PriceMoved?
    ensures IsMarketOpen(c) ==> r.state.file == CheckAndAlertPriceChange(fetched, st.file).file
    ensures (exists m :: m in r.messages && m.PriceMoved?) <==>
              IsMarketOpen(c) && CheckAndAlertPriceChange(fetched, st.file).alert.Some?
    ensures forall m :: m in r.messages && m.PriceMoved? ==>
              Some(m.alert) == CheckAndAlertPriceChange(fetched, st.file).alert
    // the daily summary: at 23:59, once per date
    ensures DailySummary(c.date) in r.messages <==>
              c.hour == 23 && c.minute == 59 && st.lastSummaryDate != Some(c.date)
    ensures forall m :: m in r.messages && m.DailySummary? ==> m.date == c.date
    ensures r.state.lastSummaryDate ==
              (if DailySummary(c.date) in r.messages then Some(c.date) else st.lastSummaryDate)
  {
    var open := IsMarketOpen(c);
    var status := if open then Open else Closed;
    var statusMessages := if st.lastStatus != Some(status) then [StatusMessage(status)] else [];
    var check := if open then CheckAndAlertPriceChange(fetched, st.file) else PriceCheck(None, st.file);
    var alertMessages := if check.alert.Some? then [PriceMoved(check.alert.value)] else [];
    var summaryDue := c.hour == 23 && c.minute == 59 && st.lastSummaryDate != Some(c.date);
    var summaryMessages := if summaryDue then [DailySummary(c.date)] else [];
    var messages := statusMessages + alertMessages + summaryMessages;
    assert check.alert.Some? ==> messages[|statusMessages|] == PriceMoved(check.alert.value);
    StepResult(
      BotState(Some(status), if summaryDue then Some(c.date) else st.lastSummaryDate, check.file),
      messages)
  }

  function CountStatus(ms: seq<Message>): nat
  {
    if |ms| == 0 then 0 else (if ms[0].StatusMessage? then 1 else 0) + CountStatus(ms[1..])
  }

  function CountSummaries(ms: seq<Message>, d: int): nat
  {
    if |ms| == 0 then 0 else (if ms[0] == DailySummary(d) then 1 else 0) + CountSummaries(ms[1..], d)
  }

  lemma {:induction false} CountSummariesAppend(a: seq<Message>, b: seq<Message>, d: int)
    ensures CountSummaries(a + b, d) == CountSummaries(a, d) + CountSummaries(b, d)
    decreases |a|
  {
    if |a| == 0 {
      assert a + b == b;
    } else {
      assert (a + b)[0] == a[0];
      assert (a + b)[1..] == a[1..] + b;
      CountSummariesAppend(a[1..], b, d);
    }
  }

  /** Status messages: one on the first pass, then one exactly when the
      market flips, never more than one per pass, and always the current
      status. */
  lemma StepStatusMessages(st: BotState, c: Clock, fetched: Option<real>)
    requires ValidClock(c)
    ensures var r := Step(st, c, fetched);
            var status := if IsMarketOpen(c) then Open else Closed;
            && CountStatus(r.messages) <= 1
            && (CountStatus(r.messages) == 1 <==> st.lastStatus != Some(status))
            && (forall m :: m in r.messages && m.StatusMessage? ==> m.status == status)
            && (st.lastStatus == None ==> CountStatus(r.messages) == 1)
  {
    var r := Step(st, c, fetched);
    var ms := r.messages;
    if |ms| > 0 {
      assert forall k :: 1 <= k < |ms| ==> !ms[k].StatusMessage?;
      assert CountStatus(ms[1..]) == 0 by {
        CountStatusNone(ms[1..]);
      }
    }
  }

  lemma {:induction false} CountStatusNone(ms: seq<Message>)
    requires forall k :: 0 <= k < |ms| ==> !ms[k].StatusMessage?
    ensures CountStatus(ms) == 0
    decreases |ms|
  {
    if |ms| > 0 {
      CountStatusNone(ms[1..]);
    }
  }

  /** Several passes of the loop, one clock reading and fetched price each.
      The recorded status is the one of the last pass, and an empty run
      leaves the state alone. */
  function Run(st: BotState, clocks: seq<Clock>, fetched: seq<Option<real>>): (r: StepResult)
    requires |fetched| == |clocks|
    requires forall k :: 0 <= k < |clocks| ==> ValidClock(clocks[k])
    ensures |clocks| == 0 ==> r.state == st && r.messages == []
    ensures |clocks| > 0 ==>
              r.state.lastStatus == Some(if IsMarketOpen(clocks[|clocks| - 1]) then Open else Closed)
    decreases |clocks|
  {
    if |clocks| == 0 then StepResult(st, [])
    else
      var first := Step(st, clocks[0], fetched[0]);
      var rest := Run(first.state, clocks[1..], fetched[1..]);
      StepResult(rest.state, first.messages + rest.messages)
  }

  predicate DatesNonDecreasing(clocks: seq<Clock>)
  {
    forall i, j :: 0 <= i < j < |clocks| ==> clocks[i].date <= clocks[j].date
  }

  /** As long as the clock never goes back a day, a run sends at most one
      summary per date, and none for a date already summarised. */
  lemma {:induction false} SummaryAtMostOncePerDate(st: BotState, clocks: seq<Clock>, fetched: seq<Option<real>>, d: int)
    requires |fetched| == |clocks|
    requires forall k :: 0 <= k < |clocks| ==> ValidClock(clocks[k])
    requires DatesNonDecreasing(clocks)
    requires st.lastSummaryDate.Some? && |clocks| > 0 ==> st.lastSummaryDate.value <= clocks[0].date
    ensures CountSummaries(Run(st, clocks, fetched).messages, d) <=
              (if st.lastSummaryDate == Some(d) || (|clocks| > 0 && clocks[0].date > d) then 0 else 1)
    decreases |clocks|
  {
    if |clocks| > 0 {
      var c := clocks[0];
      var first := Step(st, c, fetched[0]);
      var rest := Run(first.state, clocks[1..], fetched[1..]);
      assert Run(st, clocks, fetched).messages == first.messages + rest.messages;
      CountSummariesAppend(first.messages, rest.messages, d);
      FirstStepSummaries(st, c, fetched[0], d);
      assert first.state.lastSummaryDate.Some? && |clocks| > 1 ==> first.state.lastSummaryDate.value <= clocks[1].date;
      SummaryAtMostOncePerDate(first.state, clocks[1..], fetched[1..], d);
      var next := if |clocks| > 1 then Some(clocks[1].date) else None;
      SummaryBoundsCombine(st.lastSummaryDate, first.state.lastSummaryDate, c.date, next, d,
                           CountSummaries(first.messages, d), CountSummaries(rest.messages, d));
    }
  }

  /** The bound of one pass followed by the bound of the rest of the run,
      with `s0`/`s1` the recorded summary date before and after the pass and
      `next` the date of the following pass, if any. */
  lemma SummaryBoundsCombine(s0: Option<int>, s1: Option<int>, date: int, next: Option<int>, d: int, a: nat, b: nat)
    requires a <= (if s0 == Some(d) || date != d then 0 else 1)
    requires s1 == s0 || s1 == Some(date)
    requires a == 1 ==> s1 == Some(d)
    requires s0.Some? ==> s0.value <= date
    requires next.Some? ==> date <= next.value
    requires next.None? ==> b == 0
    requires next.Some? ==> b <= (if s1 == Some(d) || next.value > d then 0 else 1)
    ensures a + b <= (if s0 == Some(d) || date > d then 0 else 1)
  {
  }

  /** One pass sends at most one summary for `d`, only on date `d` when it
      was not yet summarised, and then records `d`. */
  lemma FirstStepSummaries(st: BotState, c: Clock, fetched: Option<real>, d: int)
    requires ValidClock(c)
    ensures var r := Step(st, c, fetched);
            CountSummaries(r.messages, d) <= (if st.lastSummaryDate == Some(d) || c.date != d then 0 else 1)
    ensures var r := Step(st, c, fetched);
            CountSummaries(r.messages, d) == 1 ==> r.state.lastSummaryDate == Some(d)
  {
    var open := IsMarketOpen(c);
    var status := if open then Open else Closed;
    var statusMessages := if st.lastStatus != Some(status) then [StatusMessage(status)] else [];
    var check := if open then CheckAndAlertPriceChange(fetched, st.file) else PriceCheck(None, st.file);
    var alertMessages := if check.alert.Some? then [PriceMoved(check.alert.value)] else [];
    var summaryDue := c.hour == 23 && c.minute == 59 && st.lastSummaryDate != Some(c.date);
    var summaryMessages := if summaryDue then [DailySummary(c.date)] else [];
    assert Step(st, c, fetched).messages == statusMessages + alertMessages + summaryMessages;
    CountSummariesAppend(statusMessages + alertMessages, summaryMessages, d);
    CountSummariesAppend(statusMessages, alertMessages, d);
    assert CountSummaries(statusMessages, d) == 0 && CountSummaries(alertMessages, d) == 0;
    assert CountSummaries(summaryMessages, d) == (if summaryDue && c.date == d then 1 else 0);
  }
}
