/** The start predecessor, found by walking forward by ID from a time lookup. */
module Okx {
  import opened Feed
  import opened Tape

  const PAGE := 100

  /** The venue's answers at each request: prints by ID range, oldest first, and the newest print before a time. */
  datatype Rest = Rest(page: (nat, nat, nat) -> seq<Trade>, before: (nat, int) -> Option<Trade>)

  /** The visible prints with IDs from `from` to before `from + count`. */
  function Visible(tape: seq<Trade>, shown: nat, from: nat, count: nat): seq<Trade>
    requires tape != [] && tape[0].id <= from <= tape[0].id + shown && shown <= |tape|
  {
    var index := from - tape[0].id;
    tape[index..if index + count < shown then index + count else shown]
  }

  /** A venue that shows more and more of one tape: `shown` prints of it at each request. */
  ghost predicate Serves(rest: Rest, tape: seq<Trade>, shown: nat -> nat) {
    && ValidTape(tape) && tape != []
    && (forall t :: shown(t) <= |tape|)
    && (forall s, t :: s <= t ==> shown(s) <= shown(t))
    && (forall t, from, count :: tape[0].id <= from <= tape[0].id + shown(t) ==>
                                   rest.page(t, from, count) == Visible(tape, shown(t), from, count))
    && (forall t, minute :: rest.before(t, minute).Some? ==>
                              exists i :: 0 <= i < shown(t) && rest.before(t, minute).value == tape[i])
  }

  /** Valid prints with consecutive IDs. */
  ghost predicate Consecutive(from: nat, prints: seq<Trade>) {
    forall k :: 0 <= k < |prints| ==> prints[k].Valid() && prints[k].id == from + k
  }

  lemma ConsecutiveMore(from: nat, prints: seq<Trade>, page: seq<Trade>)
    requires Consecutive(from, prints) && Consecutive(from + |prints|, page)
    ensures Consecutive(from, prints + page)
  {
  }

  /** A run of the tape from an ID on, as far as it is shown. */
  ghost predicate IsRun(tape: seq<Trade>, shown: nat, from: nat, prints: seq<Trade>) {
    && tape != [] && tape[0].id <= from && from - tape[0].id + |prints| <= shown <= |tape|
    && prints == tape[from - tape[0].id..from - tape[0].id + |prints|]
  }

  lemma RunGrows(tape: seq<Trade>, shown: nat, later: nat, from: nat, prints: seq<Trade>, count: nat)
    requires ValidTape(tape) && IsRun(tape, shown, from, prints) && shown <= later <= |tape|
    ensures var page := Visible(tape, later, from + |prints|, count);
            && IsRun(tape, later, from, prints + page) && |page| <= count
            && (|page| < count ==> from - tape[0].id + |prints + page| == later)
            && Consecutive(from + |prints|, page)
  {
    var index := from - tape[0].id;
    var page := Visible(tape, later, from + |prints|, count);
    assert tape[index..index + |prints| + |page|] == prints + page;
  }

  class Client {
    const rest: Rest
    ghost const tape: seq<Trade>
    ghost const shown: nat -> nat
    ghost const honest: bool
    var now: nat

    constructor (rest: Rest, ghost tape: seq<Trade>, ghost shown: nat -> nat, ghost honest: bool)
      ensures this.rest == rest && this.tape == tape && this.shown == shown && this.honest == honest && now == 0
    {
      this.rest, this.tape, this.shown, this.honest, now := rest, tape, shown, honest, 0;
    }

    ghost predicate Valid()
      reads this
    {
      honest ==> Serves(rest, tape, shown)
    }

    /** One page in ID order; a missing or nonunit ID refuses it. */
    method Page(from: nat, count: nat) returns (r: Result<seq<Trade>>)
      modifies this`now
      ensures now == old(now) + 1
      ensures r.Ok? ==> r.value == rest.page(now, from, count) && |r.value| <= count && Consecutive(from, r.value)
      ensures var page := rest.page(now, from, count); |page| <= count && Consecutive(from, page) ==> r.Ok?
    {
      now := now + 1;
      var page := rest.page(now, from, count);
      if |page| > count {
        return Err(23);
      }
      var row := 0;
      while row < |page|
        invariant row <= |page| && forall k :: 0 <= k < row ==> page[k].Valid() && page[k].id == from + k
      {
        if !page[row].Valid() {
          return Err(23);
        }
        if page[row].id != from + row {
          return Err(20);
        }
        row := row + 1;
      }
      return Ok(page);
    }

    /** The visible prints from an ID on, page by page, up to the limit; a page with a hole is refused. */
    method History(from: nat, limit: nat) returns (r: Result<seq<Trade>>)
      requires Valid() && (honest && from > 0 ==> tape != [] && tape[0].id <= from <= tape[0].id + shown(now))
      modifies this`now
      ensures now >= old(now)
      ensures honest && 0 < from && 0 < limit <= 1000 ==> r.Ok?
      ensures from == 0 ==> r == Err(23)
      ensures r.Ok? ==> |r.value| <= limit && Consecutive(from, r.value)
      ensures r.Ok? && honest ==>
                && now > old(now) && IsRun(tape, shown(now), from, r.value)
                && (|r.value| < limit ==> from - tape[0].id + |r.value| == shown(now))
    {
      hide Visible, IsRun, ValidTape, Serves, Consecutive;
      if from == 0 || limit == 0 || limit > 1000 {
        return Err(23);
      }
      NoPrints(from);
      if honest {
        StartOfRun(rest, tape, shown, now, from);
      }
      var result: seq<Trade> := [];
      while |result| < limit
        invariant |result| <= limit && now >= old(now) && (result != [] ==> now > old(now))
        invariant Consecutive(from, result)
        invariant honest ==> IsRun(tape, shown(now), from, result)
        decreases limit - |result|
      {
        var count := if PAGE < limit - |result| then PAGE else limit - |result|;
        if honest {
          NextPage(rest, tape, shown, now, from, result, count);
        }
        var page :- Page(from + |result|, count);
        ConsecutiveMore(from, result, page);
        result := result + page;
        if |page| < count {
          break;
        }
      }
      return Ok(result);
    }

    /**
     * The last print strictly before the minute, once a print at or after it is visible by ID; nothing until then.
     * The time lookup may name any earlier print, and must name one; on a tape short of the last ID that is enough.
     */
    method WalkTo(minute: int) returns (r: Result<Option<Trade>>)
      requires Valid()
      modifies this`now
      ensures now >= old(now)
      ensures var found := rest.before(old(now) + 1, minute);
              && (r.Ok? ==> found.Some? && found.value.ts < minute)
              && (honest && found.Some? && found.value.ts < minute && tape[|tape| - 1].id < MAX_U64 ==> r.Ok?)
      ensures honest && r.Ok? ==> match r.value
              case Some(t) => exists i: nat :: IsLastBefore(tape, shown(now), minute, i) && t == tape[i]
              case None => forall i :: 0 <= i < shown(now) ==> tape[i].ts < minute
    {
      hide Visible, IsRun, ValidTape, Serves;
      now := now + 1;
      var found := rest.before(now, minute);
      if found.None? || found.value.ts >= minute {
        return Err(20);
      }
      ghost var index: nat := 0;
      if honest {
        index := FoundIndex(rest, tape, shown, now, minute);
      }
      if !found.value.Valid() {
        return Err(23);
      }
      var candidate := found.value;
      while true
        invariant now >= old(now) && candidate.Valid() && candidate.ts < minute
        invariant honest ==> index < shown(now) <= |tape| && candidate == tape[index]
                             && candidate.id == tape[0].id + index
        decreases MAX_U64 - candidate.id
      {
        // The next ID wraps at the end of its range, and ID 0 is refused.
        var later :- History(if candidate.id == MAX_U64 then 0 else candidate.id + 1, PAGE);
        ghost var from := candidate.id + 1;
        var reached, last, passed := Pass(later, candidate, minute);
        if honest {
          RunPassed(rest, tape, shown, now, from, later, passed, index, minute);
        }
        if passed > 0 {
          RowFacts(from, later, passed - 1);
        }
        candidate, index := last, index + passed;
        if reached {
          if honest {
            assert IsLastBefore(tape, shown(now), minute, index);
          }
          return Ok(Some(candidate));
        }
        if |later| < PAGE {
          if honest {
            AllEarlier(tape, shown(now), index, minute);
          }
          return Ok(None);
        }
      }
    }
  }

  /** What the walk finds is the predecessor a tick session anchors on, and there is no other. */
  lemma AnchorsTheChain(tape: seq<Trade>, shown: nat, minute: int, i: nat, first: nat)
    requires ValidTape(tape) && IsLastBefore(tape, shown, minute, i)
    ensures Anchored(tape, minute, i + 1)
    ensures Anchored(tape, minute, first) ==> first == i + 1
  {
    if Anchored(tape, minute, first) {
      InOrder(tape, first, i);
      InOrder(tape, i + 1, first - 1);
    }
  }

  lemma InOrder(tape: seq<Trade>, i: nat, j: nat)
    requires ValidTape(tape)
    ensures i <= j < |tape| ==> tape[i].ts <= tape[j].ts
  {
  }

  /** Takes earlier prints as candidates up to the first one at or after the minute. */
  method Pass(later: seq<Trade>, candidate: Trade, minute: int) returns (reached: bool, last: Trade, passed: nat)
    ensures passed <= |later| && (forall k :: 0 <= k < passed ==> later[k].ts < minute)
    ensures reached <==> passed < |later|
    ensures reached ==> later[passed].ts >= minute
    ensures last == if passed == 0 then candidate else later[passed - 1]
  {
    last, passed := candidate, 0;
    while passed < |later|
      invariant passed <= |later| && (forall k :: 0 <= k < passed ==> later[k].ts < minute)
      invariant last == if passed == 0 then candidate else later[passed - 1]
    {
      if later[passed].ts >= minute {
        return true, last, passed;
      }
      last, passed := later[passed], passed + 1;
    }
    return false, last, passed;
  }

  lemma RunPassed(rest: Rest, tape: seq<Trade>, shown: nat -> nat, now: nat, from: nat, later: seq<Trade>, passed: nat,
                  index: nat, minute: int)
    requires Serves(rest, tape, shown) && IsRun(tape, shown(now), from, later) && passed <= |later|
    requires from == tape[0].id + index + 1
    ensures ValidTape(tape) && index + 1 + |later| <= shown(now) <= |tape|
    ensures passed > 0 ==> later[passed - 1] == tape[index + passed]
    ensures passed < |later| ==> later[passed] == tape[index + passed + 1]
  {
  }

  lemma RowFacts(from: nat, prints: seq<Trade>, row: nat)
    requires Consecutive(from, prints) && row < |prints|
    ensures prints[row].Valid() && prints[row].id == from + row
  {
  }

  lemma AllEarlier(tape: seq<Trade>, shown: nat, index: nat, minute: int)
    requires ValidTape(tape) && index + 1 == shown <= |tape| && tape[index].ts < minute
    ensures forall i :: 0 <= i < shown ==> tape[i].ts < minute
  {
  }

  /** Print `i` precedes the minute and the next print, already visible, does not. */
  ghost predicate IsLastBefore(tape: seq<Trade>, shown: nat, minute: int, i: nat) {
    i + 1 < shown <= |tape| && tape[i].ts < minute <= tape[i + 1].ts
  }

  lemma NoPrints(from: nat)
    ensures Consecutive(from, [])
  {
  }

  lemma StartOfRun(rest: Rest, tape: seq<Trade>, shown: nat -> nat, now: nat, from: nat)
    requires Serves(rest, tape, shown) && tape[0].id <= from <= tape[0].id + shown(now)
    ensures IsRun(tape, shown(now), from, [])
  {
  }

  lemma FoundIndex(rest: Rest, tape: seq<Trade>, shown: nat -> nat, now: nat, minute: int) returns (i: nat)
    requires Serves(rest, tape, shown) && rest.before(now, minute).Some?
    ensures i < shown(now) <= |tape| && rest.before(now, minute).value == tape[i] && tape[i].id == tape[0].id + i
    ensures tape[i].Valid() && tape[|tape| - 1].id == tape[0].id + |tape| - 1
  {
    i :| i < shown(now) && rest.before(now, minute).value == tape[i];
  }

  lemma NextPage(rest: Rest, tape: seq<Trade>, shown: nat -> nat, now: nat, from: nat, prints: seq<Trade>, count: nat)
    requires Serves(rest, tape, shown) && IsRun(tape, shown(now), from, prints)
    ensures var page := rest.page(now + 1, from + |prints|, count);
            && IsRun(tape, shown(now + 1), from, prints + page) && |page| <= count
            && (|page| < count ==> from - tape[0].id + |prints + page| == shown(now + 1))
            && Consecutive(from + |prints|, page)
  {
    RunGrows(tape, shown(now), shown(now + 1), from, prints, count);
  }
}
