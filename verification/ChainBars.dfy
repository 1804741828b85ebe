/** One-minute bars over a window, built print by print from a proven chain. */
module ChainBarsBuilder {
  import opened Feed
  import opened Tape
  import opened Aggregates

  datatype Row = Row(ts: int, open: real, high: real, low: real, close: real, volume: real)

  /** The last price before a time, else the seed. */
  function Carried(seed: Option<real>, prints: seq<Trade>, until: int): Option<real> {
    if prints == [] then seed
    else if prints[|prints| - 1].ts < until then Some(prints[|prints| - 1].price)
    else Carried(seed, prints[..|prints| - 1], until)
  }

  /** The batch rule: first, highest, lowest and last price of the minute's prints, or the carried close without
      volume. */
  ghost predicate IsRow(row: Row, minute: int, prints: seq<Trade>, seed: Option<real>) {
    var inside := MinuteOf(prints, minute);
    && row.ts == minute
    && if inside == [] then
         Carried(seed, prints, minute) == Some(row.close) && row.open == row.high == row.low == row.close
           && row.volume == 0.0
       else IsBarOf(Bar(minute, row.open, row.high, row.low, row.close, row.volume), inside)
  }

  ghost predicate AreRows(rows: seq<Row>, start: int, prints: seq<Trade>, seed: Option<real>) {
    forall k :: 0 <= k < |rows| ==> IsRow(rows[k], start + k * MINUTE, prints, seed)
  }

  /** Contiguous after the predecessor, in time order, inside the window. */
  ghost predicate Chain(prints: seq<Trade>, predecessor: Trade, start: int, end: int) {
    && (forall i :: 0 <= i < |prints| ==>
      prints[i].Valid() && prints[i].id == predecessor.id + 1 + i && start <= prints[i].ts < end)
    && (forall i, j :: 0 <= i <= j < |prints| ==> prints[i].ts <= prints[j].ts)
  }

  /** A later print does not change an earlier minute's row. */
  lemma RowKept(row: Row, minute: int, prints: seq<Trade>, seed: Option<real>, t: Trade)
    requires IsRow(row, minute, prints, seed) && t.ts >= minute + MINUTE
    ensures IsRow(row, minute, prints + [t], seed)
  {
    Appended(prints, t);
  }

  lemma Appended(prints: seq<Trade>, t: Trade)
    ensures forall minute :: MinuteOf(prints + [t], minute)
                          == if minute <= t.ts < minute + MINUTE then MinuteOf(prints, minute) + [t]
                             else MinuteOf(prints, minute)
    ensures forall seed, until :: Carried(seed, prints + [t], until) == if t.ts < until then Some(t.price)
                                                                        else Carried(seed, prints, until)
  {
    assert (prints + [t])[..|prints|] == prints;
  }

  lemma RowsKept(rows: seq<Row>, start: int, prints: seq<Trade>, seed: Option<real>, t: Trade)
    requires AreRows(rows, start, prints, seed) && t.ts >= start + |rows| * MINUTE
    ensures AreRows(rows, start, prints + [t], seed)
  {
    forall k | 0 <= k < |rows|
      ensures IsRow(rows[k], start + k * MINUTE, prints + [t], seed)
    {
      RowKept(rows[k], start + k * MINUTE, prints, seed, t);
    }
  }

  /** Beyond the last print a minute is quiet and carries the last price. */
  lemma Quiet(prints: seq<Trade>, seed: Option<real>, minute: int)
    requires forall i :: 0 <= i < |prints| ==> prints[i].ts < minute
    ensures MinuteOf(prints, minute) == []
    ensures Carried(seed, prints, minute) == if prints == [] then seed else Some(prints[|prints| - 1].price)
  {
    BetweenIsRun(prints, minute, minute + MINUTE, |prints|, |prints|);
  }

  lemma BarGrows(bar: Bar, inside: seq<Trade>, t: Trade)
    requires inside != [] && IsBarOf(bar, inside)
    ensures IsBarOf(Bar(bar.ts, bar.open, if t.price > bar.high then t.price else bar.high,
                        if t.price < bar.low then t.price else bar.low, t.price, bar.volume + t.qty), inside + [t])
  {
    var more := inside + [t];
    assert more[..|inside|] == inside && more[|inside|] == t;
    var high :| 0 <= high < |inside| && inside[high].price == bar.high;
    var low :| 0 <= low < |inside| && inside[low].price == bar.low;
    assert more[high].price == bar.high && more[low].price == bar.low;
  }

  lemma BarStarts(minute: int, inside: seq<Trade>, t: Trade)
    requires inside == []
    ensures IsBarOf(Bar(minute, t.price, t.price, t.price, t.price, t.qty), inside + [t])
  {
    var one := inside + [t];
    assert one == [t] && one[0].price == t.price;
    assert one[..|one| - 1] == [] && Volume([]) == 0.0;
    assert Highest(one, t.price) && Lowest(one, t.price);
  }

  /** How many minutes went by without a print: a print adds volume, a carried row has none. */
  function Quietly(rows: seq<Row>): (count: nat)
    ensures count <= |rows|
  {
    if rows == [] then 0 else Quietly(rows[..|rows| - 1]) + (if rows[|rows| - 1].volume == 0.0 then 1 else 0)
  }

  lemma QuietlyGrows(rows: seq<Row>, row: Row)
    ensures Quietly(rows + [row]) == Quietly(rows) + (if row.volume == 0.0 then 1 else 0)
  {
    assert (rows + [row])[..|rows|] == rows;
  }

  class ChainBars {
    const start: int
    const end: int
    const seed: Option<real>
    var minute: int
    var next: int
    var lastTs: int
    var lastId: nat
    var count: nat
    var printed: nat
    var quiet: nat
    var predecessor: Option<Trade>
    var fence: Option<Trade>
    var open: real
    var high: real
    var low: real
    var close: Option<real>
    var volume: real
    var rows: seq<Row>
    ghost var prints: seq<Trade>

    /** Rows so far are the batch rule's, one per minute in order; the open minute's bar is its prints'. */
    ghost predicate Valid()
      reads this
    {
      && 0 <= start < end && start % MINUTE == 0 && end % MINUTE == 0
      && next == start + |rows| * MINUTE <= end && AreRows(rows, start, prints, seed) && printed == |prints|
      && quiet == Quietly(rows)
      && (predecessor.None? ==> prints == [] && rows == [] && fence == None && count == 0 && minute == -1)
      && (predecessor.Some? ==>
            && predecessor.value.ts < start && Chain(prints, predecessor.value, start, end)
            && (fence.None? ==> Building()) && (fence.Some? ==> Fenced()))
    }

    ghost predicate Building()
      reads this
      requires predecessor.Some?
    {
      && lastId == predecessor.value.id + |prints|
      && close == (if prints == [] then seed else Some(prints[|prints| - 1].price))
      && lastTs == (if prints == [] then predecessor.value.ts else prints[|prints| - 1].ts)
      && (prints == [] ==> count == 0 && minute == -1 && rows == [])
      && (prints != [] ==>
            && count > 0 && volume > 0.0 && minute == next && minute <= lastTs < minute + MINUTE
            && MinuteOf(prints, minute) != []
            && IsBarOf(Bar(minute, open, high, low, close.value, volume), MinuteOf(prints, minute)))
    }

    ghost predicate Fenced()
      reads this
      requires predecessor.Some? && fence.Some?
    {
      && next == end && fence.value.id == predecessor.value.id + |prints| + 1 && fence.value.ts >= end
    }

    constructor (start: int, end: int, seed: Option<real>)
      requires 0 <= start < end && start % MINUTE == 0 && end % MINUTE == 0
      ensures Valid() && this.start == start && this.end == end && this.seed == seed && predecessor == None
    {
      this.start, this.end, this.seed := start, end, seed;
      minute, next, lastTs, lastId, count, printed, quiet := -1, start, -1, 0, 0, 0, 0;
      predecessor, fence, close, rows, prints := None, None, None, [], [];
      open, high, low, volume := 0.0, 0.0, 0.0, 0.0;
    }

    method Anchor(trade: Trade) returns (r: Result<()>)
      requires Valid()
      modifies this
      ensures Valid()
      ensures r.Ok? <==> trade.Valid() && old(predecessor) == None && trade.ts < start
      ensures r.Ok? ==> predecessor == Some(trade) && prints == []
      ensures r.Err? ==> r == Err(if trade.Valid() && old(predecessor) == None then 20 else 23)
      ensures r.Err? ==> predecessor == old(predecessor) && prints == old(prints) && rows == old(rows)
    {
      if !trade.Valid() || predecessor.Some? {
        return Err(23);
      }
      if trade.ts >= start {
        return Err(20);
      }
      predecessor, lastId, lastTs, close := Some(trade), trade.id, trade.ts, seed;
      return Ok(());
    }

    /** Writes the open minute's row. */
    method Flush()
      requires Valid() && predecessor.Some? && fence == None
      modifies this`rows, this`count, this`next
      ensures AreRows(rows, start, prints, seed) && next == start + |rows| * MINUTE <= end
      ensures count == 0 && next == (if prints == [] then old(next) else minute + MINUTE)
      ensures prints == [] ==> rows == []
      ensures quiet == Quietly(rows)
    {
      hide Quietly, IsBarOf, MinuteOf, Carried;
      if count == 0 {
        return;
      }
      QuietlyGrows(rows, Row(minute, open, high, low, close.value, volume));
      rows := rows + [Row(minute, open, high, low, close.value, volume)];
      count := 0;
      next := minute + MINUTE;
      EndsAligned(start, end, minute, lastTs);
    }

    /** Writes a carried row for every quiet minute before `until`. */
    method Carry(until: int) returns (r: Result<()>)
      requires AreRows(rows, start, prints, seed) && next == start + |rows| * MINUTE && start % MINUTE == 0
               && until % MINUTE == 0 && quiet == Quietly(rows)
      requires forall i :: 0 <= i < |prints| ==> prints[i].ts < next
      requires close == if prints == [] then seed else Some(prints[|prints| - 1].price)
      modifies this`rows, this`next, this`quiet
      ensures r == if old(next) >= until || close.Some? then Ok(()) else Err(20)
      ensures r.Ok? ==> AreRows(rows, start, prints, seed) && next == start + |rows| * MINUTE
                        && quiet == Quietly(rows)
      ensures r.Ok? ==> next == if old(next) < until then until else old(next)
    {
      hide Quietly, IsBarOf, MinuteOf, Carried;
      if next < until && close.None? {
        return Err(20);
      }
      while next < until
        invariant AreRows(rows, start, prints, seed) && next == start + |rows| * MINUTE && old(next) <= next
        invariant (next <= until || next == old(next)) && quiet == Quietly(rows)
        decreases until - next
      {
        Quiet(prints, seed, next);
        QuietlyGrows(rows, Row(next, close.value, close.value, close.value, close.value, 0.0));
        rows := rows + [Row(next, close.value, close.value, close.value, close.value, 0.0)];
        next, quiet := next + MINUTE, quiet + 1;
        Aligned(start, |rows|, until);
      }
      return Ok(());
    }

    /** Whether the next print continues the chain. */
    predicate Continues(trade: Trade)
      reads this
    {
      trade.Valid() && lastId < MAX_U64 && trade.id == lastId + 1 && lastTs <= trade.ts && start <= trade.ts
    }

    /** Takes the chain's next print; the first at or after the end is the fence and completes the rows. */
    method Add(trade: Trade) returns (r: Result<bool>)
      requires Valid()
      modifies this
      ensures r.Ok? ==> Valid() && predecessor == old(predecessor) && r.value == fence.Some?
      ensures r.Ok? ==> prints == (if trade.ts < end then old(prints) + [trade] else old(prints))
                        && fence == (if trade.ts < end then None else Some(trade))
      ensures r.Ok? <==> old(predecessor).Some? && old(fence) == None && old(Continues(trade))
                         && (seed.Some? || old(prints) != [] || trade.ts < start + MINUTE)
      ensures r.Err? ==> r == Err(if old(predecessor) == None || old(fence).Some? || !trade.Valid() then 23
                                  else if old(lastId) >= MAX_U64 || trade.id != old(lastId) + 1 then 20
                                  else if trade.ts < old(lastTs) then 23 else 20)
    {
      hide Quietly, IsBarOf, MinuteOf, Carried, AreRows, Chain;
      if predecessor.None? || fence.Some? || !trade.Valid() {
        return Err(23);
      }
      if lastId >= MAX_U64 || trade.id != lastId + 1 {
        return Err(20);
      }
      if trade.ts < lastTs {
        return Err(23);
      }
      if trade.ts < start {
        return Err(20);
      }
      if trade.ts >= end {
        r := TakeFence(trade);
      } else {
        r := TakeInside(trade);
      }
    }

    /** The fence completes the window's rows. */
    method TakeFence(trade: Trade) returns (r: Result<bool>)
      requires Valid() && predecessor.Some? && fence == None && Continues(trade) && trade.ts >= end
      modifies this
      ensures predecessor == old(predecessor) && prints == old(prints)
      ensures r.Ok? <==> seed.Some? || prints != []
      ensures r.Err? ==> r.code == 20
      ensures r.Ok? ==> r.value && Valid() && fence == Some(trade)
    {
      hide Quietly, IsBarOf, MinuteOf, Carried, AreRows, Chain;
      Flush();
      AllBefore(prints, predecessor.value, start, end, lastTs, next);
      Aligned(start, |rows|, end);
      var _ :- Carry(end);
      lastId, lastTs, fence := trade.id, trade.ts, Some(trade);
      return Ok(true);
    }

    method TakeInside(trade: Trade) returns (r: Result<bool>)
      requires Valid() && predecessor.Some? && fence == None && Continues(trade) && trade.ts < end
      modifies this
      ensures predecessor == old(predecessor)
      ensures r.Ok? <==> seed.Some? || old(prints) != [] || trade.ts < start + MINUTE
      ensures r.Err? ==> r.code == 20
      ensures r.Ok? ==> !r.value && Valid() && fence == None && prints == old(prints) + [trade]
    {
      hide Quietly, IsBarOf, MinuteOf, Carried, AreRows, Chain;
      AllUpTo(prints, predecessor.value, start, end, trade.ts);
      var _ :- OpenMinute(trade.ts - trade.ts % MINUTE, trade);
      Take(trade);
      return Ok(false);
    }

    /** Closes the minutes before the print's. */
    method OpenMinute(wanted: int, ghost trade: Trade) returns (r: Result<()>)
      requires Valid() && predecessor.Some? && fence == None && wanted % MINUTE == 0
      requires lastTs <= trade.ts < end && start <= trade.ts && wanted <= trade.ts < wanted + MINUTE
      modifies this`rows, this`count, this`next, this`quiet, this`minute
      ensures r == if seed.Some? || prints != [] || wanted == start then Ok(()) else Err(20)
      ensures r.Ok? ==> quiet == Quietly(rows)
      ensures r.Ok? ==> AreRows(rows, start, prints, seed) && next == start + |rows| * MINUTE == minute == wanted
      ensures r.Ok? ==> if old(minute) == wanted && prints != [] then count == old(count)
                        else count == 0 && MinuteOf(prints, minute) == []
    {
      hide Quietly, IsBarOf, Carried, Chain;
      Aligned(start, |rows|, wanted);
      if wanted != minute {
        Flush();
        WindowOrder(start, wanted, trade.ts);
        if prints != [] {
          MinuteOrder(old(minute), wanted);
        }
        AllBefore(prints, predecessor.value, start, end, lastTs, next);
        Aligned(start, |rows|, wanted);
        var _ :- Carry(wanted);
        minute := wanted;
        Quiet(prints, seed, minute);
      }
      return Ok(());
    }

    method UpdateBar(trade: Trade, ghost inside: seq<Trade>)
      requires if count == 0 then inside == []
               else inside != [] && close.Some? && IsBarOf(Bar(minute, open, high, low, close.value, volume), inside)
      requires trade.Valid() && (count > 0 ==> volume > 0.0)
      modifies this`open, this`high, this`low, this`volume
      ensures volume > 0.0
      ensures IsBarOf(Bar(minute, open, high, low, trade.price, volume), inside + [trade])
    {
      if count == 0 {
        BarStarts(minute, inside, trade);
        open, high, low, volume := trade.price, trade.price, trade.price, trade.qty;
      } else {
        BarGrows(Bar(minute, open, high, low, close.value, volume), inside, trade);
        hide Quietly, IsBarOf;
        if trade.price > high {
          high := trade.price;
        }
        if trade.price < low {
          low := trade.price;
        }
        volume := volume + trade.qty;
      }
    }

    /** Adds the print to the open minute. */
    method Take(trade: Trade)
      requires predecessor.Some? && fence == None && Chain(prints, predecessor.value, start, end)
      requires trade.Valid() && trade.id == lastId + 1 && lastId == predecessor.value.id + |prints|
               && printed == |prints|
      requires start <= trade.ts < end && (forall i :: 0 <= i < |prints| ==> prints[i].ts <= trade.ts)
      requires AreRows(rows, start, prints, seed)
               && next == start + |rows| * MINUTE == minute <= trade.ts < minute + MINUTE
      requires close == (if prints == [] then seed else Some(prints[|prints| - 1].price))
      requires if count == 0 then MinuteOf(prints, minute) == []
               else prints != [] && MinuteOf(prints, minute) != []
                    && IsBarOf(Bar(minute, open, high, low, close.value, volume), MinuteOf(prints, minute))
      requires (count > 0 ==> volume > 0.0) && quiet == Quietly(rows)
      modifies this
      ensures prints == old(prints) + [trade] && rows == old(rows) && next == old(next) && minute == old(minute)
      ensures predecessor == old(predecessor) && fence == None && printed == |prints| && quiet == Quietly(rows)
              && AreRows(rows, start, prints, seed)
      ensures Chain(prints, predecessor.value, start, end) && Building()
    {
      hide Quietly, IsBarOf, MinuteOf, Carried, AreRows, Chain;
      ChainGrows(prints, predecessor.value, start, end, trade);
      RowsKept(rows, start, prints, seed, trade);
      Appended(prints, trade);
      UpdateBar(trade, MinuteOf(prints, minute));
      close, lastId, lastTs := Some(trade.price), trade.id, trade.ts;
      count, printed := count + 1, printed + 1;
      prints := prints + [trade];
    }

    /** The finished rows: one for each minute of the window, over every print between the predecessor and the fence. */
    method Csv() returns (r: Result<seq<Row>>)
      requires Valid()
      ensures r == if fence.None? then Err(20) else Ok(rows)
      ensures r.Ok? ==>
                && predecessor.Some? && |r.value| * MINUTE == end - start && AreRows(r.value, start, prints, seed)
                && Chain(prints, predecessor.value, start, end) && fence.value.ts >= end
                && printed == |prints| == fence.value.id - predecessor.value.id - 1 && quiet == Quietly(r.value)
    {
      if fence.None? {
        return Err(20);
      }
      return Ok(rows);
    }
  }

  lemma AllBefore(prints: seq<Trade>, predecessor: Trade, start: int, end: int, lastTs: int, next: int)
    requires Chain(prints, predecessor, start, end)
    requires prints != [] ==> prints[|prints| - 1].ts == lastTs < next
    ensures forall i :: 0 <= i < |prints| ==> prints[i].ts < next
  {
  }

  lemma AllUpTo(prints: seq<Trade>, predecessor: Trade, start: int, end: int, ts: int)
    requires Chain(prints, predecessor, start, end)
    requires prints != [] ==> prints[|prints| - 1].ts <= ts
    ensures forall i :: 0 <= i < |prints| ==> prints[i].ts <= ts
  {
  }

  lemma ChainGrows(prints: seq<Trade>, predecessor: Trade, start: int, end: int, t: Trade)
    requires Chain(prints, predecessor, start, end)
    requires t.Valid() && t.id == predecessor.id + |prints| + 1 && start <= t.ts < end
    requires forall i :: 0 <= i < |prints| ==> prints[i].ts <= t.ts
    ensures Chain(prints + [t], predecessor, start, end)
  {
  }

  lemma MinuteOrder(a: int, b: int)
    requires a % MINUTE == 0 && b % MINUTE == 0 && a < b + MINUTE
    ensures a == b || a + MINUTE <= b
  {
  }

  lemma WindowOrder(start: int, wanted: int, ts: int)
    requires start % MINUTE == 0 && wanted % MINUTE == 0 && start <= ts && wanted <= ts < wanted + MINUTE
    ensures start <= wanted
  {
  }

  lemma Aligned(start: int, n: nat, until: int)
    requires start % MINUTE == 0 && until % MINUTE == 0
    ensures start + n * MINUTE < until ==> start + n * MINUTE + MINUTE <= until
    ensures start + n * MINUTE - MINUTE < until ==> start + n * MINUTE <= until
  {
  }

  lemma EndsAligned(start: int, end: int, minute: int, ts: int)
    requires start % MINUTE == 0 && end % MINUTE == 0 && minute % MINUTE == 0 && minute <= ts < end
    ensures minute + MINUTE <= end
  {
  }
}
