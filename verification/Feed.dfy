/** Market-data values and the normalized message grammar shared by the journal and the sessions. */
module Feed {
  const MINUTE: int := 60000
  const MAX_U64: nat := 0xFFFF_FFFF_FFFF_FFFF
  const MAX_I64: nat := 0x7FFF_FFFF_FFFF_FFFF

  datatype Option<+T> = None | Some(value: T)

  /** Stop codes of the producer: 20 unproven, 21 contradicted, 22 storage or budget, 23 malformed. */
  datatype Result<+T> = Ok(value: T) | Err(code: int) {
    predicate IsFailure() { Err? }
    function PropagateFailure<U>(): Result<U>
      requires Err?
    {
      Err(code)
    }
    function Extract(): T
      requires Ok?
    {
      value
    }
  }

  /** One venue print. Prices and quantities are exact decimal values: the producer compares values, not lexemes. */
  datatype Trade = Trade(id: nat, ts: int, price: real, qty: real) {
    predicate Valid() {
      0 < id <= MAX_U64 && 0 <= ts <= MAX_I64 - MINUTE && price > 0.0 && qty > 0.0
    }
  }

  datatype Bar = Bar(ts: int, open: real, high: real, low: real, close: real, volume: real) {
    predicate Valid() {
      && 0 <= ts <= MAX_I64 - MINUTE && ts % MINUTE == 0
      && open > 0.0 && low > 0.0 && close > 0.0 && volume >= 0.0
      && high >= low && high >= open && high >= close && low <= open && low <= close
    }
  }

  datatype Mode = Ticks | AggregateTicks | Bars {
    predicate TickMode() { !Bars? }
  }

  /** A journal line as parsed: a print, a closed bar, or the proof that every minute before `cut` is complete. */
  datatype Message = Tick(trade: Trade) | BarClose(bar: Bar) | TimeCut(cut: int)

  /** The verified fields a segment boundary must reproduce exactly. */
  datatype Verified = Verified(index: nat, bytes: nat, prefixHash: string, overlapHash: string,
                               cut: int, lastId: nat, lastTickTs: int, lastBar: int)

  /** The last ID of the chain: the emitted print, else the anchored predecessor, else 0. */
  function Previous(lastId: nat, predecessor: Option<Trade>): nat {
    if lastId != 0 then lastId else if predecessor.Some? then predecessor.value.id else 0
  }

  /** Checks one message against the verified prefix and moves its position. */
  function Advance(v: Verified, predecessor: Option<Trade>, m: Message, mode: Mode): Result<Verified> {
    match m
    case Tick(trade) =>
      var previous := Previous(v.lastId, predecessor);
      if !mode.TickMode() then Err(23)
      else if !trade.Valid() then Err(23)
      else if previous == 0 || previous == MAX_U64 || trade.id != previous + 1 || trade.ts < v.cut
              || trade.ts >= v.cut + MINUTE || trade.ts < v.lastTickTs then Err(20)
      else Ok(v.(lastId := trade.id, lastTickTs := trade.ts))
    case BarClose(bar) =>
      if mode.TickMode() || !bar.Valid() then Err(23)
      else if bar.ts != v.cut then Err(20)
      else Ok(v.(lastBar := bar.ts, cut := v.cut + MINUTE))
    case TimeCut(cut) =>
      if !mode.TickMode() then Err(23)
      else if (v.lastId == 0 && predecessor.None?) || cut != v.cut + MINUTE || cut <= v.lastTickTs then Err(20)
      else Ok(v.(cut := cut))
  }
}

/** Least and greatest elements of finite sets of numbers. */
module Ordered {
  function Least(s: set<nat>): (least: nat)
    requires s != {}
    ensures least in s && forall x :: x in s ==> least <= x
  {
    LeastExists(s);
    var least :| least in s && forall x :: x in s ==> least <= x;
    least
  }

  lemma LeastExists(s: set<nat>)
    requires s != {}
    ensures exists least :: least in s && forall x :: x in s ==> least <= x
  {
    var y :| y in s;
    LeastBelow(s, y);
  }

  lemma {:induction false} LeastBelow(s: set<nat>, y: nat)
    requires y in s
    ensures exists least :: least in s && forall x :: x in s ==> least <= x
    decreases y
  {
    if z :| z in s && z < y {
      LeastBelow(s, z);
    }
  }

  function Greatest(s: set<nat>): (greatest: nat)
    requires s != {}
    ensures greatest in s && forall x :: x in s ==> x <= greatest
  {
    GreatestExists(s);
    var greatest :| greatest in s && forall x :: x in s ==> x <= greatest;
    greatest
  }

  lemma {:induction false} GreatestExists(s: set<nat>)
    requires s != {}
    ensures exists greatest :: greatest in s && forall x :: x in s ==> x <= greatest
  {
    var y :| y in s;
    if s - {y} != {} {
      GreatestExists(s - {y});
      var z :| z in s - {y} && forall x :: x in s - {y} ==> x <= z;
      var greatest := if y < z then z else y;
      assert forall x :: x in s ==> x == y || x in s - {y};
      assert greatest in s && forall x :: x in s ==> x <= greatest;
    } else {
      assert forall x :: x in s ==> x == y || x in s - {y};
      assert y in s && forall x :: x in s ==> x <= y;
    }
  }
}
