/** The debug runner: key masking, 5m entries confirmed by the 1h trend, and
    the optional webhook send. Fetching, logging and the debug table are left
    to the caller; the fetched frames arrive as `Option<Bars>` (`None` when a
    fetch produced nothing). */
module DebugRun {
  import opened Common
  import opened SignalEngine

  const MissingMarker := "<missing>"

  /** Characters kept at each end of a masked secret. */
  const MaskKeep := 4

  /** `mask(v)`: a falsy value (None or empty) becomes `<missing>`, anything
      else keeps its first and last four characters around `...`. */
  function Mask(v: Option<string>): (r: string)
    ensures v.None? || v.value == [] ==> r == MissingMarker
    ensures v.Some? && v.value != [] ==>
              var n := Min(MaskKeep, |v.value|);
              && |r| == 2 * n + 3
              && r[..n] == v.value[..n]
              && r[n..n + 3] == "..."
              && r[n + 3..] == v.value[|v.value| - n..]
  {
    if v.None? || v.value == [] then MissingMarker
    else SliceTo(v.value, MaskKeep) + "..." + SliceFrom(v.value, -MaskKeep)
  }

  /** `le5 & (t1h == 1)`: pandas aligns the two columns by their 0-based row
      labels, so the result spans the longer one and a label missing from
      either side reads as false. */
  function ConfirmLong(le5: seq<bool>, t1h: seq<int>): (r: seq<bool>)
    ensures |r| == Max(|le5|, |t1h|)
    ensures forall i :: 0 <= i < |r| ==>
              (r[i] <==> i < |le5| && i < |t1h| && le5[i] && t1h[i] == 1)
  {
    seq(Max(|le5|, |t1h|), i requires 0 <= i < Max(|le5|, |t1h|) =>
      (i < |le5| && le5[i]) && (i < |t1h| && t1h[i] == 1))
  }

  /** `se5 & (t1h == -1)`, aligned the same way. */
  function ConfirmShort(se5: seq<bool>, t1h: seq<int>): (r: seq<bool>)
    ensures |r| == Max(|se5|, |t1h|)
    ensures forall i :: 0 <= i < |r| ==>
              (r[i] <==> i < |se5| && i < |t1h| && se5[i] && t1h[i] == -1)
  {
    seq(Max(|se5|, |t1h|), i requires 0 <= i < Max(|se5|, |t1h|) =>
      (i < |se5| && se5[i]) && (i < |t1h| && t1h[i] == -1))
  }

  /** Confirmed entries are 5m entries, and with equally long frames the
      confirmation is a position-by-position conjunction. */
  lemma ConfirmedAreEntries(le5: seq<bool>, se5: seq<bool>, t1h: seq<int>)
    requires |le5| == |se5| == |t1h|
    ensures |ConfirmLong(le5, t1h)| == |le5| && |ConfirmShort(se5, t1h)| == |se5|
    ensures forall i :: 0 <= i < |le5| ==> (ConfirmLong(le5, t1h)[i] <==> le5[i] && t1h[i] == 1)
    ensures forall i :: 0 <= i < |se5| ==> (ConfirmShort(se5, t1h)[i] <==> se5[i] && t1h[i] == -1)
    ensures forall i :: 0 <= i < |le5| ==> !(ConfirmLong(le5, t1h)[i] && ConfirmShort(se5, t1h)[i])
  {
  }

  /** `(le5 & (t1h == 1)).tail(3).any()`. */
  function LongConfirmed(le5: seq<bool>, t1h: seq<int>): bool
  {
    AnyRecent(ConfirmLong(le5, t1h))
  }

  /** `(se5 & (t1h == -1)).tail(3).any()`. */
  function ShortConfirmed(se5: seq<bool>, t1h: seq<int>): bool
  {
    AnyRecent(ConfirmShort(se5, t1h))
  }

  /** A long is confirmed exactly when some row among the last three labels
      of the aligned columns is a 5m long entry whose 1h trend is 1. */
  lemma LongConfirmedMeaning(le5: seq<bool>, t1h: seq<int>)
    ensures LongConfirmed(le5, t1h) <==>
              exists j :: 0 <= j < |le5| && j < |t1h| && Max(|le5|, |t1h|) - RecentBars <= j && le5[j] && t1h[j] == 1
  {
    var c := ConfirmLong(le5, t1h);
    if LongConfirmed(le5, t1h) {
      var j :| 0 <= j < |c| && |c| - RecentBars <= j && c[j];
      assert le5[j] && t1h[j] == 1;
    }
  }

  /** A short is confirmed exactly when some row among the last three labels
      is a 5m short entry whose 1h trend is -1. */
  lemma ShortConfirmedMeaning(se5: seq<bool>, t1h: seq<int>)
    ensures ShortConfirmed(se5, t1h) <==>
              exists j :: 0 <= j < |se5| && j < |t1h| && Max(|se5|, |t1h|) - RecentBars <= j && se5[j] && t1h[j] == -1
  {
    var c := ConfirmShort(se5, t1h);
    if ShortConfirmed(se5, t1h) {
      var j :| 0 <= j < |c| && |c| - RecentBars <= j && c[j];
      assert se5[j] && t1h[j] == -1;
    }
  }

  /** Minimum rows per frame before anything is computed. */
  const MinRows := 5

  /** What a run of the debug runner decides. */
  datatype DebugOutcome =
    | InsufficientData
    | Evaluated(longAgree: bool, shortAgree: bool, sent: Option<Signal>)

  /** The part of `main(send)` after both frames passed the length check:
      look for an HTF-confirmed entry in the last three 5m bars and, only
      when `send` is set, post at most one signal, long first. */
  function Confirm(send: bool, b5: Bars, s5: Signals, t1h: seq<int>): (o: DebugOutcome)
    requires b5.WellFormed() && |b5.close| >= MinRows && |s5.trend| == |b5.close|
    ensures o.Evaluated?
    ensures o.sent.Some? ==> send && (o.longAgree || o.shortAgree)
  {
    var longAgree := LongConfirmed(s5.longEntry, t1h);
    var shortAgree := ShortConfirmed(s5.shortEntry, t1h);
    var sent := SendChoice(send, longAgree, shortAgree, b5, s5.trend);
    Evaluated(longAgree, shortAgree, sent)
  }

  /** The webhook call of the runner, if any: long checked first. */
  function SendChoice(send: bool, longAgree: bool, shortAgree: bool, b5: Bars, t5: seq<int>): (r: Option<Signal>)
    requires b5.WellFormed() && |b5.close| >= 1 && |t5| == |b5.close|
    ensures r.Some? ==> send
    ensures r.Some? ==> r.value.price == b5.close[|b5.close| - 1]
    ensures r.Some? ==> r.value.rsi == b5.rsi[|b5.close| - 1]
    ensures r.Some? ==> r.value.trend == t5[|t5| - 1]
    ensures r.Some? && r.value.kind == Long <==> send && longAgree
    ensures r.Some? && r.value.kind == Short <==> send && !longAgree && shortAgree
  {
    var last := |b5.close| - 1;
    if !send then None
    else if longAgree then Some(Signal(Long, b5.close[last], t5[last], b5.rsi[last]))
    else if shortAgree then Some(Signal(Short, b5.close[last], t5[last], b5.rsi[last]))
    else None
  }

  /** `main(send)`: stop before detection when a frame is missing or has fewer
      than five rows; otherwise run detection on both frames and confirm. */
  function DebugMain(send: bool, df5: Option<Bars>, df1h: Option<Bars>): (o: DebugOutcome)
    requires df5.Some? ==> df5.value.WellFormed()
    requires df1h.Some? ==> df1h.value.WellFormed()
    ensures o == InsufficientData <==>
              df5.None? || df1h.None? || |df5.value.close| < MinRows || |df1h.value.close| < MinRows
    ensures o.Evaluated? && o.sent.Some? ==> send
    ensures o.Evaluated? ==>
              && df5.Some? && df1h.Some?
              && o.longAgree == LongConfirmed(DetectSignals(df5.value, Defaults).longEntry, DetectSignals(df1h.value, Defaults).trend)
              && o.shortAgree == ShortConfirmed(DetectSignals(df5.value, Defaults).shortEntry, DetectSignals(df1h.value, Defaults).trend)
              && o.sent == SendChoice(send, o.longAgree, o.shortAgree, df5.value, DetectSignals(df5.value, Defaults).trend)
  {
    if df5.None? || df1h.None? || |df5.value.close| < MinRows || |df1h.value.close| < MinRows then
      InsufficientData
    else
      Confirm(send, df5.value, DetectSignals(df5.value, Defaults), DetectSignals(df1h.value, Defaults).trend)
  }

  /** With frames of at most 210 bars (the configured fetch limit) there is
      never an entry to confirm, so the runner never posts. */
  lemma {:induction false} DefaultLimitNeverSends(send: bool, b5: Bars, b1h: Bars)
    requires b5.WellFormed() && b1h.WellFormed()
    requires |b5.close| <= 210
    ensures var o := DebugMain(send, Some(b5), Some(b1h));
            o.Evaluated? ==> !o.longAgree && !o.shortAgree && o.sent == None
  {
    ShortFrameHasNoEntries(b5, Defaults);
    var s5 := DetectSignals(b5, Defaults);
    var t1h := DetectSignals(b1h, Defaults).trend;
    var cl := ConfirmLong(s5.longEntry, t1h);
    var cs := ConfirmShort(s5.shortEntry, t1h);
    assert forall j :: 0 <= j < |cl| ==> !cl[j];
    assert forall j :: 0 <= j < |cs| ==> !cs[j];
    if |b5.close| >= MinRows && |b1h.close| >= MinRows {
      assert DebugMain(send, Some(b5), Some(b1h)) == Confirm(send, b5, s5, t1h);
    }
  }
}
