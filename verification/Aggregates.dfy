/** The running OHLCV of one minute's prints. */
module Aggregates {
  import opened Feed

  datatype Kline = Kline(bar: Bar, first: int, last: int, count: nat, confirmed: bool)

  datatype Aggregate = Aggregate(first: nat, last: nat, count: nat, lastTs: int,
                                 open: real, high: real, low: real, close: real, volume: real)

  const EMPTY := Aggregate(0, 0, 0, -1, 0.0, 0.0, 0.0, 0.0, 0.0)

  /** Adds the next print of the minute; a hole or a time regression is refused. */
  function Add(a: Aggregate, t: Trade): Result<Aggregate> {
    if !t.Valid() then Err(23)
    else if a.count > 0 && (a.last == MAX_U64 || t.id != a.last + 1 || t.ts < a.lastTs) then Err(20)
    else if a.count == 0 then Ok(Aggregate(t.id, t.id, 1, t.ts, t.price, t.price, t.price, t.price, a.volume + t.qty))
    else Ok(Aggregate(a.first, t.id, a.count + 1, t.ts, a.open,
                      if t.price > a.high then t.price else a.high,
                      if t.price < a.low then t.price else a.low,
                      t.price, a.volume + t.qty))
  }

  function Volume(prints: seq<Trade>): real {
    if prints == [] then 0.0 else Volume(prints[..|prints| - 1]) + prints[|prints| - 1].qty
  }

  ghost predicate Highest(prints: seq<Trade>, price: real) {
    (exists i :: 0 <= i < |prints| && prints[i].price == price) && forall i :: 0 <= i < |prints| ==>
      prints[i].price <= price
  }

  ghost predicate Lowest(prints: seq<Trade>, price: real) {
    (exists i :: 0 <= i < |prints| && prints[i].price == price) && forall i :: 0 <= i < |prints| ==>
      price <= prints[i].price
  }

  /** A contiguous run of prints, nondecreasing in time. */
  ghost predicate Run(prints: seq<Trade>) {
    && (forall i :: 0 <= i < |prints| ==> prints[i].Valid() && prints[i].id == prints[0].id + i)
    && (forall i, j :: 0 <= i <= j < |prints| ==> prints[i].ts <= prints[j].ts)
  }

  /** The aggregate says exactly what these prints are. */
  ghost predicate Summarizes(a: Aggregate, prints: seq<Trade>) {
    && a.count == |prints| && a.volume == Volume(prints)
    && (prints == [] ==> a == EMPTY)
    && (prints != [] ==>
          && a.first == prints[0].id && a.last == prints[|prints| - 1].id && a.lastTs == prints[|prints| - 1].ts
          && a.open == prints[0].price && a.close == prints[|prints| - 1].price
          && Highest(prints, a.high) && Lowest(prints, a.low))
  }

  lemma AddSummarizes(a: Aggregate, prints: seq<Trade>, t: Trade)
    requires Summarizes(a, prints) && Add(a, t).Ok?
    ensures Summarizes(Add(a, t).value, prints + [t])
  {
    var more := prints + [t];
    var b := Add(a, t).value;
    assert more[..|more| - 1] == prints && more[|more| - 1] == t;
    if prints != [] {
      var high :| 0 <= high < |prints| && prints[high].price == a.high;
      var low :| 0 <= low < |prints| && prints[low].price == a.low;
      assert more[high].price == a.high && more[low].price == a.low;
    } else {
      assert more[0] == t;
    }
  }

  /** A run is never refused. */
  lemma AddRun(a: Aggregate, prints: seq<Trade>, t: Trade)
    requires Summarizes(a, prints) && Run(prints + [t])
    ensures Add(a, t).Ok?
  {
    var more := prints + [t];
    assert more[|prints|] == t;
    if prints != [] {
      assert more[|prints| - 1] == prints[|prints| - 1] && more[0] == prints[0];
      assert t.Valid();
    }
  }

  /** The closed bar is exactly these prints, or empty of volume when there are none. */
  ghost predicate IsBarOf(bar: Bar, prints: seq<Trade>) {
    if prints == [] then bar.volume == 0.0
    else
      && bar.open == prints[0].price && bar.close == prints[|prints| - 1].price
      && Highest(prints, bar.high) && Lowest(prints, bar.low) && bar.volume == Volume(prints)
  }

  /** Exact OHLC and volume against a closed candle; zero volume when the minute is empty. */
  predicate ReconcilesFenced(a: Aggregate, candle: Kline) {
    if a.count == 0 then candle.bar.volume == 0.0
    else
      a.open == candle.bar.open && a.high == candle.bar.high && a.low == candle.bar.low
      && a.close == candle.bar.close && a.volume == candle.bar.volume
  }

  /** The check accepts a candle exactly when it is the bar of the prints. */
  lemma ReconcilesExactly(a: Aggregate, prints: seq<Trade>, candle: Kline)
    requires Summarizes(a, prints)
    ensures ReconcilesFenced(a, candle) <==> IsBarOf(candle.bar, prints)
  {
    if prints != [] {
      var high :| 0 <= high < |prints| && prints[high].price == a.high;
      var low :| 0 <= low < |prints| && prints[low].price == a.low;
    }
  }

  /** The kline is exactly these prints: their count and OHLCV, and with `ids` its own closed ID range. */
  ghost predicate Proves(kline: Kline, ids: bool, prints: seq<Trade>) {
    && prints != [] && kline.count == |prints| && IsBarOf(kline.bar, prints)
    && (ids ==> kline.confirmed && kline.first == prints[0].id && kline.last == prints[|prints| - 1].id)
  }

  /** Exact count and OHLCV against a closed kline; its own proof also needs its confirmation and ID range. */
  function Reconcile(a: Aggregate, kline: Kline, ids: bool): Result<()> {
    if a.count == 0 || a.count != kline.count
       || (ids && (!kline.confirmed || kline.first <= 0 || kline.last < kline.first
                   || a.first != kline.first || a.last != kline.last || a.last - a.first + 1 != a.count)) then Err(20)
    else if !(a.open == kline.bar.open && a.high == kline.bar.high && a.low == kline.bar.low
      && a.close == kline.bar.close
              && a.volume == kline.bar.volume) then Err(21)
    else Ok(())
  }

  /** Reconciliation accepts exactly the klines that are the run of prints. */
  lemma ReconcileProves(a: Aggregate, prints: seq<Trade>, kline: Kline, ids: bool)
    requires Summarizes(a, prints) && Run(prints)
    ensures Reconcile(a, kline, ids).Ok? <==> Proves(kline, ids, prints)
  {
    if prints != [] {
      var last := prints[|prints| - 1];
      assert last.id == prints[0].id + |prints| - 1;
      ReconcilesExactly(a, prints, kline);
      assert ReconcilesFenced(a, kline) <==> IsBarOf(kline.bar, prints);
    }
  }

  /** A kline is unproven when it counts other prints than these, and contradicted when it counts them but is not their
      bar. */
  lemma Refusals(a: Aggregate, prints: seq<Trade>, kline: Kline, ids: bool)
    requires Summarizes(a, prints) && Run(prints)
    ensures var counted := prints != [] && kline.count == |prints|
                           && (ids ==> kline.confirmed && kline.first == prints[0].id
                                       && kline.last == prints[|prints| - 1].id);
            Reconcile(a, kline, ids)
            == if !counted then Err(20) else if IsBarOf(kline.bar, prints) then Ok(()) else Err(21)
  {
    ReconcileProves(a, prints, kline, ids);
    if prints != [] {
      assert prints[|prints| - 1].id == prints[0].id + |prints| - 1 && prints[0].Valid();
      ReconcilesExactly(a, prints, kline);
    }
  }

  /** An invalid print is malformed, and one that does not go on with the run is unproven. */
  lemma AddRefusals(a: Aggregate, prints: seq<Trade>, t: Trade)
    requires Summarizes(a, prints) && Run(prints)
    ensures Add(a, t).Ok? <==> Run(prints + [t])
    ensures Add(a, t).Err? ==> Add(a, t).code == if t.Valid() then 20 else 23
  {
    var more := prints + [t];
    assert more[|prints|] == t;
    if prints != [] {
      assert more[|prints| - 1] == prints[|prints| - 1] && more[0] == prints[0];
      assert prints[|prints| - 1].id == prints[0].id + |prints| - 1;
    }
  }

  /** The prints determine the aggregate. */
  lemma SummaryIsUnique(a: Aggregate, b: Aggregate, prints: seq<Trade>)
    requires Summarizes(a, prints) && Summarizes(b, prints)
    ensures a == b
  {
    if prints != [] {
      var i :| 0 <= i < |prints| && prints[i].price == a.high;
      var j :| 0 <= j < |prints| && prints[j].price == b.high;
      var m :| 0 <= m < |prints| && prints[m].price == a.low;
      var n :| 0 <= n < |prints| && prints[n].price == b.low;
    }
  }
}
