/** Delivery to clients: one atomic step per critical section or system call, interleaved in any order. */
module FanOut {
  import opened Feed

  /** What a client's worker thread does next. */
  datatype Phase =
    | CatchUp                        // about to read the published head
    | Replaying(head: nat)           // reading the journal up to the head it saw
    | Draining(inHand: seq<string>)  // live: at most one line popped and not yet sent
    | Closed

  datatype Client = Client(from: nat, next: nat, queue: seq<string>, queueBytes: nat, live: bool, slow: bool,
                           phase: Phase, received: seq<string>)

  function QueueBytes(queue: seq<string>): nat {
    if queue == [] then 0 else QueueBytes(queue[..|queue| - 1]) + |queue[|queue| - 1]|
  }

  lemma {:induction false} QueueBytesPop(queue: seq<string>)
    requires queue != []
    ensures QueueBytes(queue) == |queue[0]| + QueueBytes(queue[1..])
  {
    if |queue| > 1 {
      var front := queue[..|queue| - 1];
      QueueBytesPop(front);
      assert front[1..] == queue[1..][..|queue[1..]| - 1];
    }
  }

  function InHand(c: Client): seq<string> { if c.phase.Draining? then c.phase.inHand else [] }

  /**
   * A client was sent one contiguous slice of the log from its cursor. Until it is closed, what it has in hand and
   * queued continues that slice; live and not slow, it continues it up to everything published.
   */
  ghost predicate Served(c: Client, log: seq<string>, published: nat, limit: nat) {
    && c.from <= c.next <= published <= |log|
    && c.received == log[c.from..c.next]
    && c.queueBytes == QueueBytes(c.queue) <= limit
    && (c.phase.Replaying? ==> c.next <= c.phase.head <= published)
    && (c.phase.Draining? ==> c.live && |c.phase.inHand| <= 1)
    && (c.phase.CatchUp? || c.phase.Replaying? ==> !c.live)
    && (!c.live ==> c.queue == [] && !c.slow)
    && var n := c.next + |InHand(c)|;
    && (!c.phase.Closed? ==> n + |c.queue| <= published && InHand(c) == log[c.next..n]
                             && c.queue == log[n..n + |c.queue|])
    && (c.phase.Draining? && !c.slow ==> n + |c.queue| == published)
  }

  /** What any step keeps of a client: its cursor, what it was sent, and that it is live, cut off or closed. */
  ghost predicate Goes(c: Client, d: Client) {
    && d.from == c.from && c.received <= d.received && c.next <= d.next
    && (c.live ==> d.live) && (c.slow ==> d.slow) && (c.phase.Closed? ==> d.phase.Closed?)
  }

  /** From the one moment to the other no client was cut off, and each went on. */
  ghost predicate NoneCutOff(before: map<nat, Client>, after: map<nat, Client>) {
    forall id :: id in before && id in after ==> Goes(before[id], after[id]) && after[id].slow == before[id].slow
  }

  /** Publishing cuts off exactly the live clients whose queue has no room for the line; the others get it. */
  ghost predicate PublishedTo(c: Client, d: Client, line: string, limit: nat) {
    && Goes(c, d) && d.received == c.received && d.phase == c.phase && d.next == c.next && d.live == c.live
    && (d.slow <==> c.slow || (c.live && QueueBytes(c.queue) + |line| > limit))
    && d.queue == if c.live && !d.slow then c.queue + [line] else c.queue
  }

  lemma OfferedIsPublished(c: Client, log: seq<string>, published: nat, limit: nat, line: string)
    requires Served(c, log, published, limit)
    ensures PublishedTo(c, Offered(c, line, limit), line, limit)
  {
  }

  /** What publishing a line does to one client: queued, or cut off when its queue cannot take it. */
  function Offered(c: Client, line: string, limit: nat): Client {
    if !c.live || c.slow then c
    else if |line| > limit - (if c.queueBytes < limit then c.queueBytes else limit) then c.(slow := true)
    else c.(queue := c.queue + [line], queueBytes := c.queueBytes + |line|)
  }

  lemma OfferedCases(c: Client, line: string, limit: nat)
    ensures Offered(c, line, limit)
         == if !c.live || c.slow then c
            else if |line| > limit - (if c.queueBytes < limit then c.queueBytes else limit) then c.(slow := true)
            else c.(queueBytes := c.queueBytes + |line|, queue := c.queue + [line])
  {
  }

  lemma OfferedServed(c: Client, log: seq<string>, published: nat, limit: nat)
    requires Served(c, log, published, limit) && published < |log|
    ensures Served(Offered(c, log[published], limit), log, published + 1, limit)
  {
    var line := log[published];
    var more := c.queue + [line];
    assert more[..|more| - 1] == c.queue;
    var d := Offered(c, line, limit);
    if d.queue == more && !c.phase.Closed? {
      LongerSlice(log, c.next + |InHand(c)|, published);
    }
  }

  lemma LongerLog(c: Client, log: seq<string>, more: seq<string>, published: nat, limit: nat)
    requires Served(c, log, published, limit)
    ensures Served(c, log + more, published, limit)
  {
    hide QueueBytes;
    assert (log + more)[..|log|] == log;
  }

  lemma TurnsLive(c: Client, log: seq<string>, published: nat, limit: nat)
    requires Served(c, log, published, limit) && c.phase.CatchUp?
    ensures c.next == published ==> Served(c.(live := true, phase := Draining([])), log, published, limit)
    ensures Served(c.(phase := Replaying(published)), log, published, limit)
    ensures c.next <= published && !c.live
  {
  }

  lemma Closes(c: Client, log: seq<string>, published: nat, limit: nat)
    requires Served(c, log, published, limit)
    ensures Served(c.(phase := Closed), log, published, limit)
  {
  }

  lemma Replayed(c: Client, log: seq<string>, published: nat, limit: nat)
    requires Served(c, log, published, limit) && c.phase.Replaying? && c.next < c.phase.head
    ensures c.next < published <= |log|
    ensures var d := c.(received := c.received + [log[c.next]], next := c.next + 1);
            Served(if d.next == c.phase.head then d.(phase := CatchUp) else d, log, published, limit)
  {
    LongerSlice(log, c.from, c.next);
  }

  lemma Drained(c: Client, log: seq<string>, published: nat, limit: nat)
    requires Served(c, log, published, limit) && c.phase == Draining([])
    ensures c.queue == [] && !c.slow ==> c.next == published
    ensures c.queue != [] ==> c.next < |log|
  {
  }

  lemma Popped(c: Client, log: seq<string>, published: nat, limit: nat)
    requires Served(c, log, published, limit) && c.phase == Draining([]) && c.queue != []
    ensures c.next < published <= |log| && c.queue[0] == log[c.next] && |c.queue[0]| <= c.queueBytes
    ensures c.queueBytes - |c.queue[0]| == QueueBytes(c.queue[1..])
    ensures Served(c.(queue := c.queue[1..], queueBytes := c.queueBytes - |c.queue[0]|,
            phase := Draining([c.queue[0]])),
                   log, published, limit)
  {
    hide QueueBytes;
    QueueBytesPop(c.queue);
    Split(log, c.next, c.queue);
  }

  lemma Sent(c: Client, log: seq<string>, published: nat, limit: nat)
    requires Served(c, log, published, limit) && c.phase.Draining? && |c.phase.inHand| == 1
    ensures Served(c.(received := c.received + c.phase.inHand, next := c.next + 1, phase := Draining([])), log,
            published, limit)
  {
    hide QueueBytes;
    LongerSlice(log, c.from, c.next);
    assert c.phase.inHand == [log[c.next]];
  }

  lemma Split(log: seq<string>, n: nat, queue: seq<string>)
    requires queue != [] && n + |queue| <= |log| && queue == log[n..n + |queue|]
    ensures queue[0] == log[n] && [queue[0]] == log[n..n + 1] && queue[1..] == log[n + 1..n + |queue|]
  {
  }

  lemma LongerSlice(log: seq<string>, m: nat, n: nat)
    requires m <= n < |log|
    ensures log[m..n + 1] == log[m..n] + [log[n]]
  {
  }

  class Hub {
    const limit: nat       // a client's queue bound in bytes
    const maxClients: nat
    var log: seq<string>   // committed lines
    var published: nat
    var firstRetained: nat
    var clients: map<nat, Client>
    var connected: nat
    var stopping: bool

    ghost predicate Valid()
      reads this
    {
      && published <= |log| && connected == |clients| <= maxClients
      && forall id :: id in clients ==> Served(clients[id], log, published, limit)
    }

    constructor (limit: nat, maxClients: nat, log: seq<string>, firstRetained: nat)
      ensures Valid() && clients == map[] && this.log == log && published == |log| && connected == 0 && !stopping
      ensures this.limit == limit && this.maxClients == maxClients && this.firstRetained == firstRetained
    {
      this.limit, this.maxClients, this.log, this.firstRetained := limit, maxClients, log, firstRetained;
      published, clients, connected, stopping := |log|, map[], 0, false;
    }

    /** The journal commits lines; they are not yet published. */
    method Commit(lines: seq<string>)
      requires Valid()
      modifies this`log
      ensures Valid() && log == old(log) + lines
    {
      forall id | id in clients
        ensures Served(clients[id], log + lines, published, limit)
      {
        LongerLog(clients[id], log, lines, published, limit);
      }
      log := log + lines;
    }

    /** Retention moves the first retained index that new cursors are checked against. */
    method Retain(first: nat)
      requires Valid()
      modifies this`firstRetained
      ensures Valid() && firstRetained == first
    {
      firstRetained := first;
    }

    /** Publishes the next committed line to every live client; a client that cannot keep up is cut off alone. */
    method Publish(line: string)
      requires Valid() && published < |log| && line == log[published]
      modifies this`published, this`clients
      ensures Valid() && published == old(published) + 1
      ensures clients == map id | id in old(clients) :: Offered(old(clients)[id], line, limit)
      ensures clients.Keys == old(clients).Keys
      ensures forall id :: id in clients ==> PublishedTo(old(clients)[id], clients[id], line, limit)
    {
      hide Served, Offered, PublishedTo;
      published := published + 1;
      var waiting := clients.Keys;
      while waiting != {}
        modifies this`clients
        invariant clients.Keys == old(clients).Keys && waiting <= clients.Keys
        invariant forall id :: id in clients ==>
                                 clients[id] == if id in waiting then old(clients)[id]
                                                else Offered(old(clients)[id], line, limit)
        decreases waiting
      {
        var id :| id in waiting;
        var c := clients[id];
        OfferedCases(c, line, limit);
        if c.live && !c.slow {
          if |line| > limit - (if c.queueBytes < limit then c.queueBytes else limit) {
            c := c.(slow := true);
          } else {
            c := c.(queueBytes := c.queueBytes + |line|, queue := c.queue + [line]);
          }
        }
        clients := clients[id := c];
        waiting := waiting - {id};
      }
      forall id | id in clients
        ensures Served(clients[id], log, published, limit)
      {
        OfferedServed(old(clients)[id], log, old(published), limit);
      }
      forall id | id in clients
        ensures PublishedTo(old(clients)[id], clients[id], line, limit)
      {
        OfferedIsPublished(old(clients)[id], log, old(published), limit, line);
      }
    }

    /** Admits a cursor inside the published retained log, or answers with the HTTP status that refuses it. */
    method Admit(id: nat, epochMatches: bool, from: nat) returns (status: nat)
      requires Valid() && id !in clients
      modifies this`clients, this`connected
      ensures Valid()
      ensures status == if stopping then 503 else if !epochMatches then 409 else if from > published then 416
                        else if from < firstRetained then 410 else if old(connected) >= maxClients then 503 else 0
      ensures if status == 0 then clients == old(clients)[id := Client(from, from, [], 0, false, false, CatchUp, [])]
              else clients == old(clients)
      ensures connected == old(connected) + (if status == 0 then 1 else 0) && NoneCutOff(old(clients), clients)
    {
      if stopping {
        return 503;
      }
      if !epochMatches {
        return 409;
      }
      if from > published {
        return 416;
      }
      if from < firstRetained {
        return 410;
      }
      if connected >= maxClients {
        return 503;
      }
      clients := clients[id := Client(from, from, [], 0, false, false, CatchUp, [])];
      connected := connected + 1;
      return 0;
    }

    /** Catching up: at the published head the client turns live in the same critical section; else it reads on. */
    method ReadHead(id: nat) returns (code: nat)
      requires Valid() && id in clients && clients[id].phase.CatchUp?
      modifies this`clients
      ensures Valid() && clients.Keys == old(clients).Keys && NoneCutOff(old(clients), clients)
      ensures code == if stopping then 1001 else 0
      ensures var c := old(clients)[id];
              clients == old(clients)[id := if stopping then c.(phase := Closed)
                                            else if c.next == published then c.(live := true, phase := Draining([]))
                                            else c.(phase := Replaying(published))]
    {
      hide Served;
      var c := clients[id];
      TurnsLive(c, log, published, limit);
      Closes(c, log, published, limit);
      if stopping {
        clients := clients[id := c.(phase := Closed)];
        return 1001;
      }
      if c.next == published {
        clients := clients[id := c.(live := true, phase := Draining([]))];
      } else {
        clients := clients[id := c.(phase := Replaying(published))];
      }
      return 0;
    }

    /** Replays one line the reader found on disk, or gives up when its segment is gone or the write fails. */
    method Replay(id: nat, line: Option<string>, sent: bool)
      requires Valid() && id in clients && clients[id].phase.Replaying? && clients[id].next < clients[id].phase.head
      requires line.Some? ==> line.value == log[clients[id].next]
      modifies this`clients
      ensures Valid() && clients.Keys == old(clients).Keys && NoneCutOff(old(clients), clients)
      ensures var c := old(clients)[id];
              clients == old(clients)[id := if line.None? || !sent then c.(phase := Closed)
                                            else c.(received := c.received + [line.value], next := c.next + 1,
                                                    phase := if c.next + 1 == c.phase.head then CatchUp else c.phase)]
    {
      hide Served;
      var c := clients[id];
      Closes(c, log, published, limit);
      Replayed(c, log, published, limit);
      if line.None? || !sent {
        clients := clients[id := c.(phase := Closed)];
        return;
      }
      var d := c.(received := c.received + [line.value], next := c.next + 1);
      clients := clients[id := if d.next == c.phase.head then d.(phase := CatchUp) else d];
    }

    /** Live: takes the next queued line, or closes. A stopping producer first delivers everything it released. */
    method Pop(id: nat) returns (code: nat)
      requires Valid() && id in clients && clients[id].phase == Draining([])
      modifies this`clients
      ensures Valid() && clients.Keys == old(clients).Keys && NoneCutOff(old(clients), clients)
      ensures var c := old(clients)[id];
              && code == (if c.slow then 1008 else if stopping && c.queue == [] then 1001 else 0)
              && (code == 1001 ==> c.next == published)
              && clients == old(clients)[id := if code != 0 then c.(phase := Closed)
                                               else if c.queue == [] then c
                                               else c.(queue := c.queue[1..], queueBytes := QueueBytes(c.queue[1..]),
                                                       phase := Draining([c.queue[0]]))]
              && (code == 0 && c.queue != [] ==> c.next < published && c.queue[0] == log[c.next])
    {
      hide Served;
      var c := clients[id];
      Closes(c, log, published, limit);
      Drained(c, log, published, limit);
      if stopping && c.queue == [] && !c.slow {
        clients := clients[id := c.(phase := Closed)];
        return 1001;
      }
      if c.slow {
        clients := clients[id := c.(phase := Closed)];
        return 1008;
      }
      if c.queue != [] {
        Popped(c, log, published, limit);
        clients := clients[id := c.(queue := c.queue[1..], queueBytes := c.queueBytes - |c.queue[0]|,
                                    phase := Draining([c.queue[0]]))];
      }
      return 0;
    }

    /** Sends the line in hand; a failed write ends the connection. */
    method Send(id: nat, sent: bool)
      requires Valid() && id in clients && clients[id].phase.Draining? && |clients[id].phase.inHand| == 1
      modifies this`clients
      ensures Valid() && clients.Keys == old(clients).Keys && NoneCutOff(old(clients), clients)
      ensures var c := old(clients)[id];
              clients == old(clients)[id := if !sent then c.(phase := Closed)
                                            else c.(received := c.received + c.phase.inHand, next := c.next + 1,
                                                    phase := Draining([]))]
    {
      hide Served;
      var c := clients[id];
      Closes(c, log, published, limit);
      Sent(c, log, published, limit);
      if !sent {
        clients := clients[id := c.(phase := Closed)];
        return;
      }
      clients := clients[id := c.(received := c.received + c.phase.inHand, next := c.next + 1, phase := Draining([]))];
    }

    method Stop()
      requires Valid()
      modifies this`stopping
      ensures Valid() && stopping
    {
      stopping := true;
    }

    /** Any connection's end releases its client. */
    method Disconnect(id: nat)
      requires Valid() && id in clients
      modifies this`clients, this`connected
      ensures Valid() && clients == old(clients) - {id} && connected == old(connected) - 1
      ensures NoneCutOff(old(clients), clients)
    {
      assert (clients - {id}).Keys == clients.Keys - {id};
      assert |clients - {id}| == |(clients - {id}).Keys|;
      clients, connected := clients - {id}, connected - 1;
    }
  }
}
