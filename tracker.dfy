/**
 * The per-timeframe series kept by the tracker: closed klines become rows,
 * each row is appended to the stored series of its timeframe, the last 5000
 * rows plus one synthetic row go to the forecaster, and the labels it returns
 * are written back onto the stored rows by exact timestamp match.
 */
module Tracker {
  import opened Wrappers
  import opened Timeframes
  import opened Calendar

  /** Number of stored rows sent to the forecaster. */
  const Window: nat := 5000

  /** One candle row; `chainDetected` is the forecaster's label, initially absent. */
  datatype Row<L> = Row(timestamp: int, open: real, high: real, low: real, close: real, chainDetected: Option<L>)

  /** The kline part of a stream message: open time, prices and the closed flag. */
  datatype Kline = Kline(openTime: int, open: real, high: real, low: real, close: real, closed: bool)

  /** What became of one stream message. */
  datatype Outcome =
    | NotClosed            // an in-progress kline: nothing happens
    | MissingSeries        // no series for the timeframe: the lookup fails before anything changes
    | InvalidTimeframe     // the token does not parse: the row is appended, nothing is dispatched
    | ForecastFailed       // the forecaster raised: the row is appended, no label is applied
    | Labelled             // the forecaster's labels were merged

  /**
   * The forecaster's answer, as the items of the returned dictionary in
   * iteration order: a timestamp and its label per item.
   */
  type Items<L> = seq<(int, L)>

  /** The forecaster: payload, magnitude and long unit name to the answer's items, or None when it fails. */
  type Forecaster<!L> = (seq<Row<L>>, nat, string) -> Option<Items<L>>

  /** Two rows describe the same candle: timestamp and prices agree, labels may differ. */
  predicate SameCandle<L>(a: Row<L>, b: Row<L>)
  {
    a.timestamp == b.timestamp && a.open == b.open && a.high == b.high && a.low == b.low && a.close == b.close
  }

  /** The row a stream message yields: only a closed kline yields one. */
  function RowOfKline<L>(k: Kline): (r: Option<Row<L>>)
    ensures r.Some? <==> k.closed
    ensures r.Some? ==> r.value == Row(k.openTime, k.open, k.high, k.low, k.close, None)
  {
    if k.closed then Some(Row(k.openTime, k.open, k.high, k.low, k.close, None)) else None
  }

  /** The placeholder row that follows the real rows in a payload. */
  function SyntheticRow<L>(next: int): (r: Row<L>)
    ensures r.timestamp == next && r.chainDetected == None
    ensures r.open == 0.0 && r.high == 0.0 && r.low == 0.0 && r.close == 0.0
  {
    Row(next, 0.0, 0.0, 0.0, 0.0, None)
  }

  /** The last `Window` rows of `df`, followed by a synthetic row at `next`. */
  function Payload<L>(df: seq<Row<L>>, next: int): (p: seq<Row<L>>)
    ensures |p| == Min(|df|, Window) + 1
    ensures p[..|p| - 1] == df[|df| - (|p| - 1)..]
    ensures p[|p| - 1] == Row(next, 0.0, 0.0, 0.0, 0.0, None)
  {
    df[|df| - Min(|df|, Window)..] + [SyntheticRow(next)]
  }

  /** One step of the merge: the label goes onto every row whose timestamp equals `key`. */
  function ApplyLabel<L>(s: seq<Row<L>>, key: int, value: L): (r: seq<Row<L>>)
    ensures |r| == |s|
    ensures forall i :: 0 <= i < |s| ==> SameCandle(r[i], s[i])
    ensures forall i :: 0 <= i < |s| ==> r[i].chainDetected == if s[i].timestamp == key then Some(value) else s[i].chainDetected
  {
    seq(|s|, i requires 0 <= i < |s| => if s[i].timestamp == key then s[i].(chainDetected := Some(value)) else s[i])
  }

  /**
   * The timestamp-to-label map that iterating over `items` writes: each
   * timestamp gets the label of the last item that carries it.
   */
  function ForecastMap<L>(items: Items<L>): (m: map<int, L>)
    ensures forall j :: 0 <= j < |items| ==> items[j].0 in m
    ensures forall k :: k in m ==> exists j :: 0 <= j < |items| && items[j] == (k, m[k]) && LastWithKey(items, k, j)
  {
    if items == [] then map[]
    else
      var m := ForecastMap(items[..|items| - 1]);
      ForecastMapStep(items, m);
      m[items[|items| - 1].0 := items[|items| - 1].1]
  }

  /** The induction step of `ForecastMap`: one more item updates the map at its timestamp. */
  lemma ForecastMapStep<L>(items: Items<L>, m: map<int, L>)
    requires items != []
    requires var prefix := items[..|items| - 1];
             && (forall j :: 0 <= j < |prefix| ==> prefix[j].0 in m)
             && (forall k :: k in m ==> exists j :: 0 <= j < |prefix| && prefix[j] == (k, m[k]) && LastWithKey(prefix, k, j))
    ensures var m' := m[items[|items| - 1].0 := items[|items| - 1].1];
            && (forall j :: 0 <= j < |items| ==> items[j].0 in m')
            && (forall k :: k in m' ==> exists j :: 0 <= j < |items| && items[j] == (k, m'[k]) && LastWithKey(items, k, j))
  {
    var n := |items| - 1;
    var prefix := items[..n];
    var m' := m[items[n].0 := items[n].1];
    forall j | 0 <= j < |items|
      ensures items[j].0 in m'
    {
      if j < n {
        assert prefix[j] == items[j];
      }
    }
    forall k | k in m'
      ensures exists j :: 0 <= j < |items| && items[j] == (k, m'[k]) && LastWithKey(items, k, j)
    {
      if k == items[n].0 {
        assert items[n] == (k, m'[k]) && LastWithKey(items, k, n);
      } else {
        var j :| 0 <= j < |prefix| && prefix[j] == (k, m[k]) && LastWithKey(prefix, k, j);
        assert items[j] == prefix[j];
        forall j' | j < j' < |items|
          ensures items[j'].0 != k
        {
          if j' < n {
            assert items[j'] == prefix[j'];
          }
        }
        assert items[j] == (k, m'[k]) && LastWithKey(items, k, j);
      }
    }
  }

  /** With distinct timestamps, as in a dictionary, each item's own label is the one merged. */
  lemma ForecastMapDistinct<L>(items: Items<L>, j: int)
    requires forall a, b :: 0 <= a < b < |items| ==> items[a].0 != items[b].0
    requires 0 <= j < |items|
    ensures items[j].0 in ForecastMap(items)
    ensures ForecastMap(items)[items[j].0] == items[j].1
  {
    var m := ForecastMap(items);
    var k := items[j].0;
    var j0 :| 0 <= j0 < |items| && items[j0] == (k, m[k]) && LastWithKey(items, k, j0);
    assert j0 == j;
  }

  /** Item `j` is the last one of `items` with timestamp `k`. */
  ghost predicate LastWithKey<L>(items: Items<L>, k: int, j: int)
    requires 0 <= j < |items|
  {
    items[j].0 == k && forall j' :: j < j' < |items| ==> items[j'].0 != k
  }

  function RelabelRow<L>(row: Row<L>, forecast: map<int, L>): Row<L>
  {
    if row.timestamp in forecast then row.(chainDetected := Some(forecast[row.timestamp])) else row
  }

  /**
   * The series after a whole label map has been merged: every row whose
   * timestamp is a key takes that key's label, every other row keeps its own.
   */
  function Relabel<L>(s: seq<Row<L>>, forecast: map<int, L>): (r: seq<Row<L>>)
    ensures |r| == |s|
    ensures forall i :: 0 <= i < |s| ==> SameCandle(r[i], s[i])
    ensures forall i :: 0 <= i < |s| && s[i].timestamp in forecast ==> r[i].chainDetected == Some(forecast[s[i].timestamp])
    ensures forall i :: 0 <= i < |s| && s[i].timestamp !in forecast ==> r[i].chainDetected == s[i].chainDetected
  {
    seq(|s|, i requires 0 <= i < |s| => RelabelRow(s[i], forecast))
  }

  /**
   * The stored series after the dispatch of a non-empty series: the payload
   * ends at the advance of the last row, and the forecaster's labels are
   * merged when it answers.  Nothing changes when the token does not parse.
   */
  function Dispatched<L>(s: seq<Row<L>>, token: string, forecaster: Forecaster<L>): (r: seq<Row<L>>)
    requires |s| > 0
    ensures |r| == |s|
    ensures forall i :: 0 <= i < |s| ==> SameCandle(r[i], s[i])
    ensures !Accepts(token) ==> r == s
  {
    match ParseTimeframe(token)
    case Err(_) => s
    case Ok(tf) =>
      match forecaster(Payload(s, NextTimestamp(s[|s| - 1].timestamp, tf)), tf.value, UnitName(tf.unit))
      case None => s
      case Some(items) => Relabel(s, ForecastMap(items))
  }

  /**
   * The stored series of a timeframe after one closed row has been processed:
   * append, then dispatch.
   */
  function AfterProcess<L>(df: seq<Row<L>>, row: Row<L>, token: string, forecaster: Forecaster<L>): (r: seq<Row<L>>)
    ensures |r| == |df| + 1
    ensures forall i :: 0 <= i < |df| ==> SameCandle(r[i], df[i])
    ensures SameCandle(r[|df|], row)
    ensures !Accepts(token) ==> r == df + [row]
  {
    var appended := df + [row];
    assert appended[|appended| - 1] == row;
    Dispatched(appended, token, forecaster)
  }

  /** Processing a row dispatches the appended series, whose last row is the new one. */
  lemma AfterProcessDispatches<L>(df: seq<Row<L>>, row: Row<L>, token: string, forecaster: Forecaster<L>)
    ensures var s := df + [row];
            && s[|s| - 1] == row
            && AfterProcess(df, row, token, forecaster) == Dispatched(s, token, forecaster)
  {
  }

  /** For an accepted token, the dispatched series depends on the forecaster's answer to the payload. */
  lemma DispatchedAnswered<L>(s: seq<Row<L>>, token: string, forecaster: Forecaster<L>)
    requires |s| > 0 && Accepts(token)
    ensures var tf := ParseTimeframe(token).value;
            var answer := forecaster(Payload(s, NextTimestamp(s[|s| - 1].timestamp, tf)), tf.value, UnitName(tf.unit));
            Dispatched(s, token, forecaster) == if answer.Some? then Relabel(s, ForecastMap(answer.value)) else s
  {
  }

  // ---------------------------------------------------------------------
  // Properties of the merge

  /** Merging the same map twice gives the state of merging it once. */
  lemma RelabelIdempotent<L>(s: seq<Row<L>>, forecast: map<int, L>)
    ensures Relabel(Relabel(s, forecast), forecast) == Relabel(s, forecast)
  {
  }

  /** Merging one map after another is merging their union, the later map winning on shared keys. */
  lemma RelabelCompose<L>(s: seq<Row<L>>, first: map<int, L>, second: map<int, L>)
    ensures Relabel(Relabel(s, first), second) == Relabel(s, first + second)
  {
  }

  /** A key that matches no stored timestamp has no effect. */
  lemma RelabelIgnoresUnmatchedKey<L>(s: seq<Row<L>>, forecast: map<int, L>, key: int)
    requires forall i :: 0 <= i < |s| ==> s[i].timestamp != key
    ensures Relabel(s, forecast) == Relabel(s, forecast - {key})
  {
  }

  /** A map none of whose keys is a stored timestamp leaves the series as it is. */
  lemma RelabelNoMatch<L>(s: seq<Row<L>>, forecast: map<int, L>)
    requires forall i :: 0 <= i < |s| ==> s[i].timestamp !in forecast
    ensures Relabel(s, forecast) == s
  {
  }

  /** Merging distributes over appending one row. */
  lemma RelabelAppend<L>(s: seq<Row<L>>, row: Row<L>, forecast: map<int, L>)
    ensures Relabel(s + [row], forecast) == Relabel(s, forecast) + [RelabelRow(row, forecast)]
  {
  }

  /** Applying the label of one more key to a merged map is merging the map updated at that key. */
  lemma ApplyLabelExtendsMerge<L>(s: seq<Row<L>>, forecast: map<int, L>, key: int, value: L)
    ensures ApplyLabel(Relabel(s, forecast), key, value) == Relabel(s, forecast[key := value])
  {
  }

  /** The payload's real rows are the newest stored rows and its synthetic row follows the last of them. */
  lemma PayloadAfterAppend<L>(df: seq<Row<L>>, row: Row<L>, tf: Timeframe)
    ensures var s := df + [row];
            var p := Payload(s, NextTimestamp(row.timestamp, tf));
            && |p| == Min(|df| + 1, Window) + 1
            && p[|p| - 2] == row
            && p[|p| - 1].timestamp == NextTimestamp(p[|p| - 2].timestamp, tf)
            && (tf.value >= 1 ==> p[|p| - 1].timestamp > p[|p| - 2].timestamp)
  {
    var s := df + [row];
    var p := Payload(s, NextTimestamp(row.timestamp, tf));
    assert p[|p| - 2] == p[..|p| - 1][|p| - 2];
  }

  /** The tracker: one stored series per timeframe token. */
  class Tracker<L> {
    var timeframes: seq<string>
    var dataframes: map<string, seq<Row<L>>>

    constructor (timeframes: seq<string>)
      ensures this.timeframes == timeframes
      ensures dataframes == map[]
    {
      this.timeframes := timeframes;
      dataframes := map[];
    }

    /** Seed every configured timeframe with its historical series, in configuration order. */
    method SeedHistory(history: string -> seq<Row<L>>)
      modifies this
      ensures timeframes == old(timeframes)
      ensures dataframes == old(dataframes) + map tf | tf in timeframes :: history(tf)
    {
      var i := 0;
      while i < |timeframes|
        invariant 0 <= i <= |timeframes|
        invariant timeframes == old(timeframes)
        invariant dataframes == old(dataframes) + map tf | tf in timeframes[..i] :: history(tf)
      {
        dataframes := dataframes[timeframes[i] := history(timeframes[i])];
        i := i + 1;
        assert timeframes[..i] == timeframes[..i - 1] + [timeframes[i - 1]];
      }
      assert timeframes[..i] == timeframes;
    }

    /** Append a row to the stored series of `tf`; nothing is trimmed and no timestamp is rejected. */
    method Append(tf: string, row: Row<L>)
      requires tf in dataframes
      modifies this
      ensures timeframes == old(timeframes)
      ensures dataframes == old(dataframes)[tf := old(dataframes)[tf] + [row]]
    {
      dataframes := dataframes[tf := dataframes[tf] + [row]];
    }

    /**
     * Write the label of every item onto the stored rows of `tf` with that
     * item's timestamp, one item after the other.
     */
    method Merge(tf: string, items: Items<L>)
      requires tf in dataframes
      modifies this
      ensures timeframes == old(timeframes)
      ensures dataframes == old(dataframes)[tf := Relabel(old(dataframes)[tf], ForecastMap(items))]
    {
      ghost var s := dataframes[tf];
      RelabelNoMatch(s, ForecastMap(items[..0]));
      for j := 0 to |items|
        invariant timeframes == old(timeframes)
        invariant dataframes == old(dataframes)[tf := Relabel(s, ForecastMap(items[..j]))]
      {
        var (key, value) := items[j];
        ApplyLabelExtendsMerge(s, ForecastMap(items[..j]), key, value);
        assert items[..j + 1][..j] == items[..j];
        dataframes := dataframes[tf := ApplyLabel(dataframes[tf], key, value)];
      }
      assert items[..|items|] == items;
    }

    /**
     * Dispatch the stored series of `tf`: build the payload from its last
     * 5000 rows and the advance of its last row, call the forecaster and merge
     * its labels.  `payload` is what the forecaster was given (empty when it
     * was not called).
     */
    method DispatchForecast(tf: string, forecaster: Forecaster<L>) returns (outcome: Outcome, payload: seq<Row<L>>)
      requires tf in dataframes && |dataframes[tf]| > 0
      modifies this
      ensures timeframes == old(timeframes)
      ensures dataframes == old(dataframes)[tf := Dispatched(old(dataframes)[tf], tf, forecaster)]
      ensures !Accepts(tf) ==> outcome == InvalidTimeframe && payload == []
      ensures Accepts(tf) ==>
                var parsed := ParseTimeframe(tf).value;
                var df := old(dataframes)[tf];
                && payload == Payload(df, NextTimestamp(df[|df| - 1].timestamp, parsed))
                && outcome == (if forecaster(payload, parsed.value, UnitName(parsed.unit)).Some? then Labelled else ForecastFailed)
    {
      payload := [];
      var df := dataframes[tf];
      var last5000 := df[|df| - Min(|df|, Window)..];
      assert last5000[|last5000| - 1] == df[|df| - 1];
      var next := CalculateNextTimestamp(last5000[|last5000| - 1].timestamp, tf);
      if next.Err? {
        outcome := InvalidTimeframe;
        return;
      }
      var parsed := ParseTimeframe(tf).value;
      payload := last5000 + [SyntheticRow(next.value)];
      assert payload == Payload(df, next.value);
      var forecast := forecaster(payload, parsed.value, UnitName(parsed.unit));
      DispatchedAnswered(df, tf, forecaster);
      if forecast.None? {
        outcome := ForecastFailed;
        return;
      }
      Merge(tf, forecast.value);
      outcome := Labelled;
    }

    /**
     * Process one closed row for `tf`: append it to the stored series, then
     * dispatch.  A missing series changes nothing.
     */
    method ProcessForecast(tf: string, row: Row<L>, forecaster: Forecaster<L>) returns (outcome: Outcome, payload: seq<Row<L>>)
      modifies this
      ensures timeframes == old(timeframes)
      ensures tf !in old(dataframes) ==> outcome == MissingSeries && dataframes == old(dataframes)
      ensures tf in old(dataframes) ==>
                dataframes == old(dataframes)[tf := AfterProcess(old(dataframes)[tf], row, tf, forecaster)]
      ensures tf in old(dataframes) && !Accepts(tf) ==> outcome == InvalidTimeframe && payload == []
      ensures tf in old(dataframes) && Accepts(tf) ==>
                var parsed := ParseTimeframe(tf).value;
                && payload == Payload(old(dataframes)[tf] + [row], NextTimestamp(row.timestamp, parsed))
                && outcome == (if forecaster(payload, parsed.value, UnitName(parsed.unit)).Some? then Labelled else ForecastFailed)
    {
      payload := [];
      if tf !in dataframes {
        outcome := MissingSeries;
        return;
      }
      AfterProcessDispatches(dataframes[tf], row, tf, forecaster);
      Append(tf, row);
      outcome, payload := DispatchForecast(tf, forecaster);
    }

    /** One stream message for `tf`: only a closed kline is processed. */
    method HandleMessage(tf: string, msg: Kline, forecaster: Forecaster<L>) returns (outcome: Outcome)
      modifies this
      ensures timeframes == old(timeframes)
      ensures !msg.closed ==> outcome == NotClosed && dataframes == old(dataframes)
      ensures msg.closed && tf !in old(dataframes) ==> outcome == MissingSeries && dataframes == old(dataframes)
      ensures msg.closed && tf in old(dataframes) ==>
                dataframes == old(dataframes)[tf := AfterProcess(old(dataframes)[tf], RowOfKline(msg).value, tf, forecaster)]
      ensures msg.closed && tf in old(dataframes) && !Accepts(tf) ==> outcome == InvalidTimeframe
      ensures msg.closed && tf in old(dataframes) && Accepts(tf) ==>
                var parsed := ParseTimeframe(tf).value;
                var row := RowOfKline(msg).value;
                var payload := Payload(old(dataframes)[tf] + [row], NextTimestamp(row.timestamp, parsed));
                outcome == (if forecaster(payload, parsed.value, UnitName(parsed.unit)).Some? then Labelled else ForecastFailed)
    {
      var row := RowOfKline<L>(msg);
      if row.None? {
        outcome := NotClosed;
        return;
      }
      var payload;
      outcome, payload := ProcessForecast(tf, row.value, forecaster);
    }
  }
}
