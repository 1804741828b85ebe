/** The compiled-artifact cache: reclaimed per-key locks, reservations, and eviction that respects them. */
module CompileCaches {
  import opened Feed

  // ---------- Compile locks ----------

  /** Where a coroutine stands in `compile_lock`: it holds a reference from entry until after it has let go. */
  datatype Stage = Waiting | Holding | Leaving

  datatype Task = Task(key: string, lock: nat, stage: Stage)

  function UsersOf(tasks: map<nat, Task>, lock: nat): set<nat> { set id | id in tasks && tasks[id].lock == lock }

  /** A lock's references are its users and the tasks that were cancelled on it. */
  ghost predicate Counted(references: map<nat, nat>, lost: map<nat, nat>, tasks: map<nat, Task>, created: nat) {
    && references.Keys == lost.Keys
    && (forall lock :: lock in references ==> lock < created && references[lock] == |UsersOf(tasks, lock)| + lost[lock])
    && (forall id :: id in tasks ==> tasks[id].lock in references)
  }

  /** Everyone on a key uses the one lock the table names for it. */
  ghost predicate Linked(table: map<string, nat>, references: map<nat, nat>, tasks: map<nat, Task>) {
    && (forall key :: key in table ==> table[key] in references)
    && (forall key, other :: key in table && other in table && table[key] == table[other] ==> key == other)
    && (forall id :: id in tasks ==> tasks[id].key in table && table[tasks[id].key] == tasks[id].lock)
  }

  /** A lock with references is in the table. */
  ghost predicate Listed(table: map<string, nat>, references: map<nat, nat>) {
    forall lock :: lock in references && references[lock] > 0 ==> exists key :: Names(table, key, lock)
  }

  predicate Names(table: map<string, nat>, key: string, lock: nat) { key in table && table[key] == lock }

  ghost predicate Owned(owner: map<nat, nat>, tasks: map<nat, Task>) {
    && (forall lock :: lock in owner ==>
      owner[lock] in tasks && tasks[owner[lock]].lock == lock && tasks[owner[lock]].stage == Holding)
    && (forall id :: id in tasks && tasks[id].stage == Holding ==>
      tasks[id].lock in owner && owner[tasks[id].lock] == id)
  }

  ghost predicate Locks(table: map<string, nat>, references: map<nat, nat>, lost: map<nat, nat>, tasks: map<nat, Task>,
                        created: nat, owner: map<nat, nat>)
  {
    && Counted(references, lost, tasks, created) && Linked(table, references, tasks) && Owned(owner, tasks)
    && Listed(table, references)
    && (forall key :: key in table ==> references[table[key]] > 0)
  }

  /** A count is never taken back. */
  predicate Grows<K(==)>(before: map<K, nat>, after: map<K, nat>) {
    forall k :: k in before ==> k in after && before[k] <= after[k]
  }

  /** One step per stretch between awaits; `lost` counts the tasks cancelled while they held a reference. */
  class CompileLocks {
    var table: map<string, nat>       // key to lock object
    var references: map<nat, nat>
    var owner: map<nat, nat>          // held lock to the task that holds it
    var tasks: map<nat, Task>
    var created: nat
    ghost var lost: map<nat, nat>

    ghost predicate Valid()
      reads this
    {
      Locks(table, references, lost, tasks, created, owner)
    }

    /** At most one task per key is inside, although entries come and go. */
    lemma MutualExclusion(a: nat, b: nat)
      requires Valid() && a in tasks && b in tasks && tasks[a].key == tasks[b].key
      requires tasks[a].stage == Holding && tasks[b].stage == Holding
      ensures a == b
    {
      assert tasks[a].lock == tasks[b].lock;
    }

    /** An entry stays exactly while someone uses its key, or once a task was cancelled on it. */
    lemma Reclaimed(key: string)
      requires Valid()
      ensures key in table ==> (exists id :: id in tasks && tasks[id].key == key) || lost[table[key]] > 0
      ensures (exists id :: id in tasks && tasks[id].key == key) ==> key in table
    {
      if key in table && lost[table[key]] == 0 {
        var users := UsersOf(tasks, table[key]);
        assert users != {};
        var id :| id in users;
        assert table[tasks[id].key] == table[key];
      }
    }

    /** A cancelled task's lock is in the table; as no step takes a lost reference back, it stays there for good. */
    lemma LostStays(lock: nat)
      requires Valid() && lock in lost && lost[lock] > 0
      ensures exists key :: Names(table, key, lock)
    {
    }

    constructor ()
      ensures Valid() && tasks == map[] && table == map[]
    {
      table, references, owner, tasks, created, lost := map[], map[], map[], map[], 0, map[];
    }

    /** Finds or creates the key's lock and takes a reference, under the table's guard. */
    method Enter(id: nat, key: string)
      requires Valid() && id !in tasks
      modifies this
      ensures Valid() && key in table && tasks == old(tasks)[id := Task(key, table[key], Waiting)]
      ensures key in old(table) ==> table == old(table)
      ensures Grows(old(lost), lost)
    {
      hide Counted, Linked, Owned, UsersOf, Listed, Grows;
      EnterValid(table, references, lost, tasks, created, owner, id, key);
      if key !in table {
        table := table[key := created];
        references := references[created := 0];
        lost := lost[created := 0];
        created := created + 1;
      }
      var lock := table[key];
      references := references[lock := references[lock] + 1];
      tasks := tasks[id := Task(key, lock, Waiting)];
    }

    /** The lock is granted to one waiter while nobody holds it. */
    method Acquire(id: nat)
      requires Valid() && id in tasks && tasks[id].stage == Waiting && tasks[id].lock !in owner
      modifies this`owner, this`tasks
      ensures Valid() && tasks == old(tasks)[id := old(tasks)[id].(stage := Holding)]
      ensures owner == old(owner)[tasks[id].lock := id] && Grows(old(lost), lost)
    {
      hide Counted, Linked, Owned, Listed;
      StageKeeps(table, references, lost, tasks, created, id, Holding);
      AcquireKeeps(owner, tasks, id);
      owner := owner[tasks[id].lock := id];
      tasks := tasks[id := tasks[id].(stage := Holding)];
    }

    method Release(id: nat)
      requires Valid() && id in tasks && tasks[id].stage == Holding
      modifies this`owner, this`tasks
      ensures Valid() && tasks == old(tasks)[id := old(tasks)[id].(stage := Leaving)]
      ensures owner == old(owner) - {tasks[id].lock} && Grows(old(lost), lost)
    {
      hide Counted, Linked, Owned, Listed;
      StageKeeps(table, references, lost, tasks, created, id, Leaving);
      ReleaseKeeps(owner, tasks, id);
      owner := owner - {tasks[id].lock};
      tasks := tasks[id := tasks[id].(stage := Leaving)];
    }

    /** Gives the reference back, and reclaims the entry with the last one. */
    method Leave(id: nat)
      requires Valid() && id in tasks && tasks[id].stage == Leaving
      modifies this`table, this`references, this`tasks
      ensures Valid() && tasks == old(tasks) - {id} && Grows(old(lost), lost)
      ensures var task := old(tasks)[id];
              table == if old(references)[task.lock] == 1 then old(table) - {task.key} else old(table)
    {
      hide Counted, Linked, Owned, UsersOf, Listed;
      var task := tasks[id];
      ghost var before, counts := table, references;
      LeaveKeeps(table, references, lost, tasks, created, owner, id);
      references := references[task.lock := references[task.lock] - 1];
      tasks := tasks - {id};
      if references[task.lock] == 0 {
        UnlinkKeeps(table, references, lost, tasks, created, task.key);
        table := table - {task.key};
      }
      ListedKeeps(before, counts, table, references, task.key, task.lock);
    }

    /** A task cancelled before it acquires, or while it waits for the table's guard on its way out, never gives its
        reference back: the source enters its `try` only afterwards, and counts down only under the guard. */
    method Cancel(id: nat)
      requires Valid() && id in tasks && tasks[id].stage != Holding
      modifies this`tasks, this`lost
      ensures Valid() && tasks == old(tasks) - {id} && Grows(old(lost), lost)
      ensures old(tasks)[id].lock in old(lost)
              && lost == old(lost)[old(tasks)[id].lock := old(lost)[old(tasks)[id].lock] + 1]
    {
      hide Counted, Linked, Owned, UsersOf, Listed;
      var lock := tasks[id].lock;
      CancelKeeps(table, references, lost, tasks, created, owner, id);
      lost := lost[lock := lost[lock] + 1];
      tasks := tasks - {id};
    }
  }

  /** Arriving on a key, with its lock just created or already there. */
  lemma EnterValid(table: map<string, nat>, references: map<nat, nat>, lost: map<nat, nat>, tasks: map<nat, Task>,
                   created: nat, owner: map<nat, nat>, id: nat, key: string)
    requires Locks(table, references, lost, tasks, created, owner) && id !in tasks
    ensures key in table ==> table[key] in references
    ensures var known := key in table;
            var lock := if known then table[key] else created;
            var names := if known then table else table[key := created];
            var counts := if known then references else references[created := 0];
            var losses := if known then lost else lost[created := 0];
            && Locks(names, counts[lock := counts[lock] + 1], losses, tasks[id := Task(key, lock, Waiting)],
                     if known then created else created + 1, owner)
            && Grows(lost, losses)
  {
    hide Counted, Linked, Owned, UsersOf, Listed;
    Facts(table, references, lost, tasks, created);
    if key in table {
      EnterLinked(table, references, lost, tasks, created, owner, table, references, id, key, table[key]);
    } else {
      CreateKeeps(table, references, lost, tasks, created, key);
      EnterLinked(table[key := created], references[created := 0], lost[created := 0], tasks, created + 1, owner,
                  table, references, id, key, created);
    }
  }

  lemma EnterLinked(table: map<string, nat>, references: map<nat, nat>, lost: map<nat, nat>, tasks: map<nat, Task>,
                    created: nat, owner: map<nat, nat>, before: map<string, nat>, counts: map<nat, nat>, id: nat,
                    key: string, lock: nat)
    requires Counted(references, lost, tasks, created) && Linked(table, references, tasks) && Owned(owner, tasks)
    requires Listed(before, counts) && id !in tasks && key in table && table[key] == lock
    requires (table == before && references == counts)
             || (key !in before && table == before[key := lock] && lock !in counts && references == counts[lock := 0])
    requires forall k :: k in before ==> before[k] in counts && counts[before[k]] > 0
    ensures lock in references
    ensures Locks(table, references[lock := references[lock] + 1], lost, tasks[id := Task(key, lock, Waiting)],
            created, owner)
  {
    hide Counted, Owned, UsersOf, Listed;
    EnterKeeps(table, references, lost, tasks, created, owner, id, Task(key, lock, Waiting));
    ListedKeeps(before, counts, table, references[lock := references[lock] + 1], key, lock);
  }

  /** The table keeps naming every lock but `lock`, which it names by `key` or which has no reference left. */
  lemma ListedKeeps(table: map<string, nat>, references: map<nat, nat>, next: map<string, nat>, counts: map<nat, nat>,
                    key: string, lock: nat)
    requires Listed(table, references) && (Names(next, key, lock) || (lock in counts && counts[lock] == 0))
    requires forall k :: k in table && (k != key || Names(next, key, lock)) ==> Names(next, k, table[k])
    requires key in table ==> table[key] == lock
    requires forall other :: other in counts && other != lock ==>
             other in references && counts[other] == references[other]
    ensures Listed(next, counts)
  {
    forall other | other in counts && counts[other] > 0
      ensures exists k :: Names(next, k, other)
    {
      if other == lock {
        assert Names(next, key, other);
      } else {
        var k :| Names(table, k, other);
        assert Names(next, k, other);
      }
    }
  }

  lemma Facts(table: map<string, nat>, references: map<nat, nat>, lost: map<nat, nat>, tasks: map<nat, Task>,
              created: nat)
    requires Counted(references, lost, tasks, created) && Linked(table, references, tasks)
    ensures forall key :: key in table ==> table[key] in references && table[key] < created
    ensures created !in references && created !in lost
  {
  }

  lemma CreateKeeps(table: map<string, nat>, references: map<nat, nat>, lost: map<nat, nat>, tasks: map<nat, Task>,
                    created: nat, key: string)
    requires Counted(references, lost, tasks, created) && Linked(table, references, tasks) && key !in table
    ensures Counted(references[created := 0], lost[created := 0], tasks, created + 1)
    ensures Linked(table[key := created], references[created := 0], tasks)
  {
    CreateLinked(table, references, tasks, created, key);
    hide Linked;
    assert UsersOf(tasks, created) == {};
  }

  lemma CreateLinked(table: map<string, nat>, references: map<nat, nat>, tasks: map<nat, Task>, created: nat,
                     key: string)
    requires Linked(table, references, tasks) && key !in table && created !in references
    ensures Linked(table[key := created], references[created := 0], tasks)
  {
  }

  lemma EnterKeeps(table: map<string, nat>, references: map<nat, nat>, lost: map<nat, nat>, tasks: map<nat, Task>,
                   created: nat, owner: map<nat, nat>, id: nat, task: Task)
    requires Counted(references, lost, tasks, created) && Linked(table, references, tasks) && Owned(owner, tasks)
    requires id !in tasks && task.key in table && table[task.key] == task.lock && task.stage == Waiting
    ensures task.lock in references
            && Counted(references[task.lock := references[task.lock] + 1], lost, tasks[id := task], created)
    ensures Linked(table, references[task.lock := references[task.lock] + 1], tasks[id := task])
    ensures Owned(owner, tasks[id := task])
  {
    hide Linked, Owned, UsersOf;
    ArriveKeeps(table, references, owner, tasks, id, task);
    MoreUsers(tasks, id, task);
  }

  lemma ArriveKeeps(table: map<string, nat>, references: map<nat, nat>, owner: map<nat, nat>, tasks: map<nat, Task>,
                    id: nat, task: Task)
    requires Linked(table, references, tasks) && Owned(owner, tasks)
    requires id !in tasks && task.key in table && table[task.key] == task.lock && task.stage == Waiting
    ensures task.lock in references
            && Linked(table, references[task.lock := references[task.lock] + 1], tasks[id := task])
    ensures Owned(owner, tasks[id := task])
  {
  }

  lemma StageKeeps(table: map<string, nat>, references: map<nat, nat>, lost: map<nat, nat>, tasks: map<nat, Task>,
                   created: nat, id: nat, stage: Stage)
    requires Counted(references, lost, tasks, created) && Linked(table, references, tasks) && id in tasks
    ensures Counted(references, lost, tasks[id := tasks[id].(stage := stage)], created)
    ensures Linked(table, references, tasks[id := tasks[id].(stage := stage)])
  {
    forall lock
      ensures UsersOf(tasks[id := tasks[id].(stage := stage)], lock) == UsersOf(tasks, lock)
    {
    }
  }

  lemma FewerUsers(tasks: map<nat, Task>, id: nat)
    requires id in tasks
    ensures |UsersOf(tasks - {id}, tasks[id].lock)| == |UsersOf(tasks, tasks[id].lock)| - 1
    ensures forall lock :: lock != tasks[id].lock ==> UsersOf(tasks - {id}, lock) == UsersOf(tasks, lock)
  {
    assert UsersOf(tasks - {id}, tasks[id].lock) == UsersOf(tasks, tasks[id].lock) - {id};
  }

  lemma AcquireKeeps(owner: map<nat, nat>, tasks: map<nat, Task>, id: nat)
    requires Owned(owner, tasks) && id in tasks && tasks[id].lock !in owner && tasks[id].stage == Waiting
    ensures Owned(owner[tasks[id].lock := id], tasks[id := tasks[id].(stage := Holding)])
  {
  }

  lemma ReleaseKeeps(owner: map<nat, nat>, tasks: map<nat, Task>, id: nat)
    requires Owned(owner, tasks) && id in tasks && tasks[id].stage == Holding
    ensures Owned(owner - {tasks[id].lock}, tasks[id := tasks[id].(stage := Leaving)])
  {
  }

  lemma DepartKeeps(table: map<string, nat>, references: map<nat, nat>, owner: map<nat, nat>, tasks: map<nat, Task>,
                    id: nat)
    requires Linked(table, references, tasks) && Owned(owner, tasks) && id in tasks && tasks[id].stage != Holding
    ensures Linked(table, references, tasks - {id}) && Owned(owner, tasks - {id})
  {
  }

  lemma LeaveKeeps(table: map<string, nat>, references: map<nat, nat>, lost: map<nat, nat>, tasks: map<nat, Task>,
                   created: nat, owner: map<nat, nat>, id: nat)
    requires Counted(references, lost, tasks, created) && Linked(table, references, tasks) && Owned(owner, tasks)
    requires id in tasks && tasks[id].stage == Leaving
    ensures var task := tasks[id];
            && task.lock in references && references[task.lock] > 0 && task.key in table && table[task.key] == task.lock
            && Counted(references[task.lock := references[task.lock] - 1], lost, tasks - {id}, created)
            && Linked(table, references[task.lock := references[task.lock] - 1], tasks - {id})
              && Owned(owner, tasks - {id})
            && forall key :: key in table && key != task.key ==> table[key] in references && table[key] != task.lock
  {
    FewerUsers(tasks, id);
    assert id in UsersOf(tasks, tasks[id].lock);
    DepartKeeps(table, references, owner, tasks, id);
    hide Owned, UsersOf;
  }

  /** With no reference left nobody uses the key, so its entry can go. */
  lemma UnlinkKeeps(table: map<string, nat>, references: map<nat, nat>, lost: map<nat, nat>, tasks: map<nat, Task>,
                    created: nat, key: string)
    requires Counted(references, lost, tasks, created) && Linked(table, references, tasks)
    requires key in table && table[key] in references && references[table[key]] == 0
    ensures Linked(table - {key}, references, tasks)
    ensures forall id :: id in tasks ==> tasks[id].key != key
  {
    var users := UsersOf(tasks, table[key]);
    assert |users| == 0;
    forall id | id in tasks
      ensures tasks[id].key != key
    {
      assert id !in users;
    }
  }

  lemma CancelKeeps(table: map<string, nat>, references: map<nat, nat>, lost: map<nat, nat>, tasks: map<nat, Task>,
                    created: nat, owner: map<nat, nat>, id: nat)
    requires Counted(references, lost, tasks, created) && Linked(table, references, tasks) && Owned(owner, tasks)
    requires id in tasks && tasks[id].stage != Holding
    ensures tasks[id].lock in lost
            && Counted(references, lost[tasks[id].lock := lost[tasks[id].lock] + 1], tasks - {id}, created)
    ensures Linked(table, references, tasks - {id}) && Owned(owner, tasks - {id})
  {
    FewerUsers(tasks, id);
    DepartKeeps(table, references, owner, tasks, id);
    hide Linked, Owned, UsersOf;
  }

  lemma MoreUsers(tasks: map<nat, Task>, id: nat, task: Task)
    requires id !in tasks
    ensures |UsersOf(tasks[id := task], task.lock)| == |UsersOf(tasks, task.lock)| + 1
    ensures forall lock :: lock != task.lock ==> UsersOf(tasks[id := task], lock) == UsersOf(tasks, lock)
  {
    assert UsersOf(tasks[id := task], task.lock) == UsersOf(tasks, task.lock) + {id};
  }

  // ---------- Artifacts ----------

  datatype File = File(mtime: nat, size: nat)
  datatype Entry = Entry(mtime: nat, size: nat, key: string)

  function Bytes(entries: seq<Entry>): nat {
    if entries == [] then 0 else Bytes(entries[..|entries| - 1]) + entries[|entries| - 1].size
  }

  /** A directory listing: every artifact once, in any order. */
  ghost predicate Lists(entries: seq<Entry>, files: map<string, File>) {
    && (forall e :: e in entries ==> e.key in files && files[e.key] == File(e.mtime, e.size))
    && (forall key :: key in files ==> Entry(files[key].mtime, files[key].size, key) in entries)
    && Distinct(entries)
  }

  ghost predicate Distinct(entries: seq<Entry>) {
    forall i, j :: 0 <= i < j < |entries| ==> entries[i].key != entries[j].key
  }

  ghost predicate OldestFirst(entries: seq<Entry>) {
    forall i, j :: 0 <= i < j < |entries| ==> entries[i].mtime <= entries[j].mtime
  }

  predicate Less(a: string, b: string) {
    b != "" && (a == "" || a[0] < b[0] || (a[0] == b[0] && Less(a[1..], b[1..])))
  }

  function FileName(key: string): string { key + ".so" }

  /** By time, then size, then file name. */
  predicate Earlier(a: Entry, b: Entry) {
    || a.mtime < b.mtime
    || (a.mtime == b.mtime && a.size < b.size)
    || (a.mtime == b.mtime && a.size == b.size && Less(FileName(a.key), FileName(b.key)))
  }

  /** The strings part at `k`: there the first one ends, or has the smaller character. */
  predicate PartsAt(a: string, b: string, k: nat) {
    && k <= |a| && k < |b| && a[..k] == b[..k]
    && (k == |a| || a[k] < b[k])
  }

  lemma AlikeBefore(a: string, b: string, k: nat)
    requires PartsAt(a, b, k)
    ensures k > 0 ==> a[0] == b[0]
  {
    if k > 0 {
      assert a[..k][0] == b[..k][0];
    }
  }

  /** Strings compare by the first character they differ in, a beginning before what it begins. */
  lemma {:induction false} LessIs(a: string, b: string)
    ensures Less(a, b) <==> exists k: nat :: PartsAt(a, b, k)
    decreases |a|
  {
    if a != "" && b != "" && a[0] == b[0] {
      LessIs(a[1..], b[1..]);
      if k: nat :| PartsAt(a[1..], b[1..], k) {
        assert a[..k + 1] == [a[0]] + a[1..][..k] && b[..k + 1] == [b[0]] + b[1..][..k];
        assert PartsAt(a, b, k + 1);
      }
      if k: nat :| PartsAt(a, b, k) {
        assert k > 0;
        assert a[1..][..k - 1] == a[..k][1..] && b[1..][..k - 1] == b[..k][1..];
        assert PartsAt(a[1..], b[1..], k - 1);
      }
    } else {
      if k: nat :| PartsAt(a, b, k) {
        AlikeBefore(a, b, k);
      }
      if Less(a, b) {
        assert PartsAt(a, b, 0);
      }
    }
  }

  lemma {:induction false} LessTotal(a: string, b: string)
    ensures a == b ==> !Less(a, b)
    ensures a != b ==> (Less(a, b) <==> !Less(b, a))
    decreases |a|
  {
    if a != "" && b != "" && a[0] == b[0] {
      LessTotal(a[1..], b[1..]);
      assert a == [a[0]] + a[1..] && b == [b[0]] + b[1..];
    }
  }

  lemma {:induction false} LessTransitive(a: string, b: string, c: string)
    requires Less(a, b) && Less(b, c)
    ensures Less(a, c)
    decreases |a|
  {
    if a != "" && a[0] == b[0] == c[0] {
      LessTransitive(a[1..], b[1..], c[1..]);
    }
  }

  /** The older artifact comes first, of equally old ones the smaller, then the one with the lesser file name. */
  lemma EarlierIs(a: Entry, b: Entry)
    ensures a.mtime < b.mtime ==> Earlier(a, b)
    ensures a.mtime == b.mtime && a.size < b.size ==> Earlier(a, b)
    ensures a.mtime == b.mtime && a.size == b.size ==> (Earlier(a, b) <==> Less(FileName(a.key), FileName(b.key)))
    ensures a.key != b.key ==> (Earlier(a, b) <==> !Earlier(b, a))
  {
    LessTotal(FileName(a.key), FileName(b.key));
    assert FileName(a.key)[..|a.key|] == a.key && FileName(b.key)[..|b.key|] == b.key;
  }

  lemma EarlierTransitive(a: Entry, b: Entry, c: Entry)
    requires Earlier(a, b) && Earlier(b, c)
    ensures Earlier(a, c)
  {
    if Less(FileName(a.key), FileName(b.key)) && Less(FileName(b.key), FileName(c.key)) {
      LessTransitive(FileName(a.key), FileName(b.key), FileName(c.key));
    }
  }

  ghost predicate InOrder(entries: seq<Entry>) {
    forall i, j :: 0 <= i < j < |entries| ==> Earlier(entries[i], entries[j])
  }

  lemma {:induction false} InsertInOrder(e: Entry, sorted: seq<Entry>)
    requires InOrder(sorted) && forall x :: x in sorted ==> x.key != e.key
    ensures InOrder(Insert(e, sorted))
    ensures forall x :: x in Insert(e, sorted) <==> x == e || x in sorted
    decreases |sorted|
  {
    hide Earlier;
    if sorted != [] && !Earlier(e, sorted[0]) {
      var rest := Insert(e, sorted[1..]);
      InsertInOrder(e, sorted[1..]);
      EarlierIs(sorted[0], e);
      assert Insert(e, sorted) == [sorted[0]] + rest;
      assert sorted == [sorted[0]] + sorted[1..];
      forall j | 0 <= j < |rest|
        ensures Earlier(sorted[0], rest[j])
      {
        assert rest[j] in rest;
        if rest[j] != e {
          var i :| 0 <= i < |sorted[1..]| && sorted[1..][i] == rest[j];
          assert sorted[i + 1] == rest[j];
        }
      }
    } else if sorted != [] {
      forall j | 0 <= j < |sorted|
        ensures Earlier(e, sorted[j])
      {
        if j > 0 {
          EarlierTransitive(e, sorted[0], sorted[j]);
        }
      }
    }
  }

  /** A sorted listing is in order, whichever order it was read in. */
  lemma {:induction false} SortedInOrder(entries: seq<Entry>)
    requires Distinct(entries)
    ensures InOrder(Sorted(entries)) && forall x :: x in Sorted(entries) <==> x in entries
    decreases |entries|
  {
    hide Earlier;
    if entries != [] {
      SortedInOrder(entries[1..]);
      assert entries == [entries[0]] + entries[1..];
      forall x | x in Sorted(entries[1..])
        ensures x.key != entries[0].key
      {
        var i :| 0 <= i < |entries[1..]| && entries[1..][i] == x;
        assert entries[i + 1] == x;
      }
      InsertInOrder(entries[0], Sorted(entries[1..]));
    }
  }

  function Insert(e: Entry, sorted: seq<Entry>): seq<Entry> {
    if sorted == [] || Earlier(e, sorted[0]) then [e] + sorted else [sorted[0]] + Insert(e, sorted[1..])
  }

  function Sorted(entries: seq<Entry>): seq<Entry> {
    if entries == [] then [] else Insert(entries[0], Sorted(entries[1..]))
  }

  lemma {:induction false} InsertKeeps(e: Entry, sorted: seq<Entry>)
    requires OldestFirst(sorted) && Distinct(sorted) && forall x :: x in sorted ==> x.key != e.key
    ensures OldestFirst(Insert(e, sorted)) && Distinct(Insert(e, sorted))
    ensures forall x :: x in Insert(e, sorted) <==> x == e || x in sorted
    ensures |Insert(e, sorted)| == |sorted| + 1
  {
    hide Earlier, OldestFirst, Distinct;
    EarlierIsOlder(e, sorted);
    if sorted == [] || Earlier(e, sorted[0]) {
      Uncons(sorted);
      Cons(e, sorted);
    } else {
      Uncons(sorted);
      InsertKeeps(e, sorted[1..]);
      Cons(sorted[0], Insert(e, sorted[1..]));
    }
  }

  lemma Cons(first: Entry, rest: seq<Entry>)
    requires OldestFirst(rest) && Distinct(rest)
    requires forall x :: x in rest ==> first.mtime <= x.mtime && first.key != x.key
    ensures OldestFirst([first] + rest) && Distinct([first] + rest)
    ensures forall x :: x in [first] + rest <==> x == first || x in rest
  {
  }

  lemma Uncons(entries: seq<Entry>)
    requires OldestFirst(entries) && Distinct(entries)
    ensures entries != [] ==>
              && OldestFirst(entries[1..]) && Distinct(entries[1..])
              && (forall x :: x in entries <==> x == entries[0] || x in entries[1..])
              && (forall x :: x in entries[1..] ==> entries[0].mtime <= x.mtime && entries[0].key != x.key)
  {
    if entries != [] {
      assert entries == [entries[0]] + entries[1..];
    }
  }

  lemma EarlierIsOlder(e: Entry, sorted: seq<Entry>)
    ensures sorted != [] ==> if Earlier(e, sorted[0]) then e.mtime <= sorted[0].mtime else sorted[0].mtime <= e.mtime
  {
  }

  lemma {:induction false} SortedLists(entries: seq<Entry>)
    requires Distinct(entries)
    ensures OldestFirst(Sorted(entries)) && Distinct(Sorted(entries)) && |Sorted(entries)| == |entries|
    ensures forall x :: x in Sorted(entries) <==> x in entries
  {
    if entries != [] {
      SortedLists(entries[1..]);
      assert entries == [entries[0]] + entries[1..];
      InsertKeeps(entries[0], Sorted(entries[1..]));
    }
  }

  /** The entries that may be removed, oldest first. */
  function Candidates(entries: seq<Entry>, reserved: set<string>): seq<Entry> {
    if entries == [] then []
    else
      var front, last := Candidates(entries[..|entries| - 1], reserved), entries[|entries| - 1];
      if last.key in reserved then front else front + [last]
  }

  lemma {:induction false} CandidatesPrefix(entries: seq<Entry>, reserved: set<string>, i: nat)
    requires i <= |entries|
    ensures Candidates(entries[..i], reserved) <= Candidates(entries, reserved)
    decreases |entries|
  {
    if i < |entries| {
      assert entries[..|entries| - 1][..i] == entries[..i];
      CandidatesPrefix(entries[..|entries| - 1], reserved, i);
    } else {
      assert entries[..i] == entries;
    }
  }

  lemma {:induction false} CandidatesUnreserved(entries: seq<Entry>, reserved: set<string>)
    ensures forall e :: e in Candidates(entries, reserved) ==> e in entries && e.key !in reserved
  {
    if entries != [] {
      CandidatesUnreserved(entries[..|entries| - 1], reserved);
    }
  }

  function KeysOf(entries: seq<Entry>): set<string> { set i | 0 <= i < |entries| :: entries[i].key }

  function Without(files: map<string, File>, removed: seq<Entry>): map<string, File> {
    files - KeysOf(removed)
  }

  /** The thread of a trim: the reservations its trim saw, then what is left of its listing and the totals it counts. */
  datatype Sweep = Starting(reserved: set<string>)
                 | Sweeping(reserved: set<string>, entries: seq<Entry>, count: int, total: int)

  /** Who holds the files guard while it awaits a thread: a trim its sweep, an acquire the time stamp, a commit the
      file. */
  datatype Guard = Free | Trimming(id: nat) | Stamping(key: string) | Publishing(key: string)

  /** The artifact the sweep's next entry costs: none when it is reserved or already gone. */
  function Taken(files: map<string, File>, s: Sweep): set<string>
    requires s.Sweeping? && s.entries != []
  {
    var key := s.entries[0].key;
    if key in s.reserved || key !in files then {} else {key}
  }

  function Rest(files: map<string, File>, s: Sweep): Sweep
    requires s.Sweeping? && s.entries != []
  {
    if Taken(files, s) == {} then s.(entries := s.entries[1..])
    else s.(entries := s.entries[1..], count := s.count - 1, total := s.total - s.entries[0].size)
  }

  /** One more reservation of this artifact, and no other change. */
  ghost predicate OneMore(before: map<string, nat>, after: map<string, nat>, key: string) {
    && after.Keys == before.Keys + {key}
    && after[key] == (if key in before then before[key] + 1 else 1)
    && forall other :: other in before && other != key ==> after[other] == before[other]
  }

  /** One reservation of this artifact less: without the last one it is not reserved at all. */
  ghost predicate OneLess(before: map<string, nat>, after: map<string, nat>, key: string) {
    && key in before && before[key] > 0
    && after.Keys == (if before[key] == 1 then before.Keys - {key} else before.Keys)
    && (key in after ==> after[key] == before[key] - 1)
    && forall other :: other in after && other != key ==> after[other] == before[other]
  }

  /** A reservation given back leaves the counts as they were. */
  lemma ReservedAndReleased(before: map<string, nat>, held: map<string, nat>, after: map<string, nat>, key: string)
    requires OneMore(before, held, key) && OneLess(held, after, key)
    requires key in before ==> before[key] > 0
    ensures after == before
  {
    assert after.Keys == before.Keys;
  }

  /** Whatever the sweep still does, it leaves this artifact. */
  predicate Spares(s: Sweep, key: string) {
    key in s.reserved || (s.Sweeping? && key !in KeysOf(s.entries))
  }

  /** No sweep may still take this artifact. */
  ghost predicate Welcome(sweeps: map<nat, Sweep>, key: string) {
    forall id :: id in sweeps ==> Spares(sweeps[id], key)
  }

  /**
   * One step per stretch between awaits. Cancelling a task frees the guard while the thread it awaited goes on, so a
   * sweep runs under the guard or beside it; `leaked` counts the reservations nobody will give back.
   */
  class CompileCache {
    const maxEntries: nat
    const maxBytes: nat
    var files: map<string, File>
    var active: map<string, nat>
    var guard: Guard
    var sweeps: map<nat, Sweep>
    var started: nat
    var hits: nat
    var misses: nat
    var compiles: nat
    ghost var leaked: map<string, nat>

    ghost predicate Valid()
      reads this
    {
      && (forall key :: key in active ==> active[key] > 0)
      && (forall key :: key in leaked ==> key in active && 0 < leaked[key] <= active[key])
      && (forall id :: id in sweeps ==> id < started)
      && match guard
         case Trimming(id) => id in sweeps && sweeps[id].reserved == active.Keys
         case Stamping(key) => Owed(key)
         case _ => true
    }

    /** Some holder of this reservation can still give it back. */
    ghost predicate Owed(key: string)
      reads `active, `leaked
    {
      key in active && active[key] > (if key in leaked then leaked[key] else 0)
    }

    /** Every reserved artifact is in the cache. */
    predicate Kept()
      reads `active, `files
    {
      forall key :: key in active ==> key in files
    }

    /** No sweep will take a reserved artifact. */
    ghost predicate Covered()
      reads `sweeps, `active
    {
      forall key :: key in active ==> Welcome(sweeps, key)
    }

    /** Without a cancelled trim still running, there is nothing to fear. */
    lemma CalmIsCovered()
      requires Valid() && forall id :: id in sweeps ==> guard == Trimming(id)
      ensures Covered()
    {
    }

    /** A leaked reservation is never given back, so its artifact is reserved for good. */
    lemma LeakStays(key: string)
      requires Valid() && key in leaked
      ensures key in active
    {
    }

    constructor (maxEntries: nat, maxBytes: nat, files: map<string, File>)
      requires maxEntries > 0 && maxBytes > 0
      ensures Valid() && Kept() && Covered() && this.files == files && active == map[] && leaked == map[]
      ensures this.maxEntries == maxEntries && this.maxBytes == maxBytes && guard.Free? && sweeps == map[]
      ensures hits == misses == compiles == 0
    {
      this.maxEntries, this.maxBytes, this.files := maxEntries, maxBytes, files;
      active, guard, sweeps, started, leaked := map[], Free, map[], 0, map[];
      hits, misses, compiles := 0, 0, 0;
    }

    function Reserved(key: string): map<string, nat>
      reads `active
    {
      active[key := (if key in active then active[key] else 0) + 1]
    }

    // ---------- Acquire ----------

    /** An acquire's first stretch: it looks the artifact up and reserves it. Reserved artifacts stay covered exactly
        when no running sweep may still take this one. */
    method Reserve(key: string) returns (found: bool)
      requires Valid() && guard.Free?
      modifies this`active, this`guard, this`hits, this`misses
      ensures Valid() && found == (key in files)
      ensures if found then OneMore(old(active), active, key) && guard == Stamping(key)
              else active == old(active) && guard == Free
      ensures hits == old(hits) + (if found then 1 else 0) && misses == old(misses) + (if found then 0 else 1)
      ensures old(Kept()) ==> Kept()
      ensures found ==> (Covered() <==> old(Covered()) && Welcome(sweeps, key))
    {
      if key !in files {
        misses := misses + 1;
        return false;
      }
      hits := hits + 1;
      active := Reserved(key);
      guard := Stamping(key);
      return true;
    }

    /** Its second: the time stamp is set. A file that has gone raises, and the reservation is leaked. */
    method Stamp(now: nat) returns (stamped: bool)
      requires Valid() && guard.Stamping?
      modifies this`files, this`guard, this`leaked
      ensures Valid() && guard == Free && stamped == (old(guard).key in old(files))
      ensures files == if stamped then old(files)[old(guard).key := old(files)[old(guard).key].(mtime := now)]
                       else old(files)
      ensures if stamped then leaked == old(leaked) else OneMore(old(leaked), leaked, old(guard).key)
      ensures old(Kept()) ==> stamped && Kept()
      ensures old(Covered()) ==> Covered()
    {
      var key := guard.key;
      guard := Free;
      if key !in files {
        leaked := More(leaked, key);
        return false;
      }
      files := files[key := files[key].(mtime := now)];
      return true;
    }

    /** An acquire cancelled while it awaits the time stamp leaks its reservation. */
    method CancelAcquire()
      requires Valid() && guard.Stamping?
      modifies this`guard, this`leaked
      ensures Valid() && guard == Free && OneMore(old(leaked), leaked, old(guard).key) && Grows(old(leaked), leaked)
      ensures (Kept() <==> old(Kept())) && (Covered() <==> old(Covered()))
    {
      leaked := More(leaked, guard.key);
      guard := Free;
    }

    /** Looks an artifact up and reserves it, undisturbed. */
    method Acquire(key: string, now: nat) returns (found: bool)
      requires Valid() && guard.Free?
      modifies this`files, this`active, this`guard, this`hits, this`misses, this`leaked
      ensures Valid() && guard.Free? && found == (key in old(files)) && leaked == old(leaked)
      ensures old(Kept()) ==> Kept()
      ensures found ==> files == old(files)[key := old(files)[key].(mtime := now)] && OneMore(old(active), active, key)
      ensures !found ==> files == old(files) && active == old(active)
      ensures hits == old(hits) + (if found then 1 else 0) && misses == old(misses) + (if found then 0 else 1)
      ensures old(Covered()) && (Welcome(sweeps, key)) ==> Covered()
    {
      found := Reserve(key);
      if found {
        var stamped := Stamp(now);
      }
    }

    // ---------- Commit ----------

    /** A commit's thread replaces the artifact under the guard. */
    method Publish(key: string, file: File)
      requires Valid() && guard.Free?
      modifies this`files, this`guard
      ensures Valid() && files == old(files)[key := file] && guard == Publishing(key)
      ensures (old(Kept()) ==> Kept()) && (Covered() <==> old(Covered()))
    {
      files := files[key := file];
      guard := Publishing(key);
    }

    /** Then it is reserved. */
    method Adopt()
      requires Valid() && guard.Publishing?
      modifies this`active, this`compiles, this`guard
      ensures Valid() && OneMore(old(active), active, old(guard).key) && compiles == old(compiles) + 1 && guard == Free
      ensures old(Kept()) ==> (Kept() <==> old(guard).key in files)
      ensures Covered() <==> old(Covered()) && Welcome(sweeps, old(guard).key)
    {
      compiles := compiles + 1;
      active := Reserved(guard.key);
      guard := Free;
    }

    /** A commit cancelled in between has published an artifact that nobody reserved. */
    method CancelCommit()
      requires Valid() && guard.Publishing?
      modifies this`guard
      ensures Valid() && guard == Free && (Kept() <==> old(Kept())) && (Covered() <==> old(Covered()))
    {
      guard := Free;
    }

    /** Publishes a newly compiled artifact, replacing any earlier one, and reserves it, undisturbed. */
    method CommitAndAcquire(key: string, file: File)
      requires Valid() && guard.Free?
      modifies this`files, this`active, this`compiles, this`guard
      ensures Valid() && guard.Free? && files == old(files)[key := file] && compiles == old(compiles) + 1
      ensures old(Kept()) ==> Kept()
      ensures OneMore(old(active), active, key)
      ensures Covered() <==> old(Covered()) && Welcome(sweeps, key)
    {
      Publish(key, file);
      Adopt();
    }

    // ---------- Release ----------

    /** Gives one reservation back; the last one frees the artifact. */
    method Release(key: string)
      requires Valid() && guard.Free? && Owed(key)
      modifies this`active
      ensures Valid()
      ensures active == if old(active)[key] == 1 then old(active) - {key} else old(active)[key := old(active)[key] - 1]
      ensures OneLess(old(active), active, key)
      ensures (old(Kept()) ==> Kept()) && (old(Covered()) ==> Covered())
    {
      active := active[key := active[key] - 1];
      if active[key] == 0 {
        active := active - {key};
      }
    }

    /** An artifact in use, undisturbed: reserved on entry and given back on exit, nothing stays reserved. */
    method Use(key: string, now: nat) returns (found: bool)
      requires Valid() && guard.Free?
      modifies this`files, this`active, this`guard, this`hits, this`misses, this`leaked
      ensures Valid() && guard.Free? && found == (key in old(files)) && leaked == old(leaked)
      ensures active == old(active)
      ensures files == if found then old(files)[key := old(files)[key].(mtime := now)] else old(files)
    {
      found := Acquire(key, now);
      if found {
        ghost var held := active;
        Release(key);
        ReservedAndReleased(old(active), held, active, key);
      }
    }

    /** The same for one that was just published. */
    method UsePublished(key: string, file: File)
      requires Valid() && guard.Free?
      modifies this`files, this`active, this`guard, this`compiles
      ensures Valid() && guard.Free? && active == old(active) && files == old(files)[key := file]
      ensures compiles == old(compiles) + 1
    {
      CommitAndAcquire(key, file);
      ghost var held := active;
      Release(key);
      ReservedAndReleased(old(active), held, active, key);
    }

    /** A release cancelled while it waits for the guard never happens. */
    method CancelRelease(key: string)
      requires Valid() && !guard.Free? && !guard.Stamping? && Owed(key)
      modifies this`leaked
      ensures Valid() && OneMore(old(leaked), leaked, key) && Grows(old(leaked), leaked)
    {
      leaked := More(leaked, key);
    }

    // ---------- Trim ----------

    /** A trim takes the reserved keys under the guard and starts its thread. */
    method BeginTrim() returns (id: nat)
      requires Valid() && guard.Free?
      modifies this`guard, this`sweeps, this`started
      ensures Valid() && id == old(started) && id !in old(sweeps) && guard == Trimming(id)
      ensures sweeps == old(sweeps)[id := Starting(active.Keys)]
      ensures old(Covered()) ==> Covered()
    {
      id := started;
      sweeps, started := sweeps[id := Starting(active.Keys)], started + 1;
      guard := Trimming(id);
    }

    /** The thread lists the directory, oldest first. */
    method List(id: nat, listing: seq<Entry>)
      requires Valid() && id in sweeps && sweeps[id].Starting? && Lists(listing, files)
      modifies this`sweeps
      ensures Valid() && (old(Covered()) ==> Covered())
      ensures var entries := Sorted(listing);
              && sweeps == old(sweeps)[id := Sweeping(old(sweeps)[id].reserved, entries, |entries|, Bytes(entries))]
              && OldestFirst(entries) && InOrder(entries) && Lists(entries, files)
    {
      hide Bytes, Lists, OldestFirst, Sorted, InOrder;
      var entries := Sorted(listing);
      SortedIsListing(listing, files);
      var total := TotalOf(entries);
      sweeps := sweeps[id := Sweeping(sweeps[id].reserved, entries, |entries|, total)];
    }

    /** Both limits are met as far as the sweep can tell, or nothing is left to look at. */
    predicate Done(s: Sweep)
      requires s.Sweeping?
    {
      s.entries == [] || (s.count <= maxEntries && s.total <= maxBytes)
    }

    /** The thread looks at its next entry. A reserved artifact goes only when its sweep does not spare it. */
    method Unlink(id: nat)
      requires Valid() && id in sweeps && sweeps[id].Sweeping? && !Done(sweeps[id])
      modifies this`files, this`sweeps
      ensures Valid()
      ensures files == old(files) - Taken(old(files), old(sweeps)[id])
      ensures sweeps == old(sweeps)[id := Rest(old(files), old(sweeps)[id])]
      ensures old(Kept()) ==> (Kept() <==> active.Keys !! Taken(old(files), old(sweeps)[id]))
      ensures old(Covered()) ==> Covered() && (old(Kept()) ==> Kept())
    {
      var s := sweeps[id];
      assert s.entries[0].key in KeysOf(s.entries);
      assert forall key :: key in KeysOf(s.entries[1..]) ==> key in KeysOf(s.entries) by {
        ShorterKeys(s.entries);
      }
      var key := s.entries[0].key;
      if key in s.reserved || key !in files {
        sweeps := sweeps[id := s.(entries := s.entries[1..])];
      } else {
        files := files - {key};
        var left := s.total - s.entries[0].size;
        sweeps := sweeps[id := s.(entries := s.entries[1..], count := s.count - 1, total := left)];
      }
    }

    /** The thread ends, and with it the trim that still awaits it. */
    method Finish(id: nat)
      requires Valid() && id in sweeps && sweeps[id].Sweeping? && Done(sweeps[id])
      modifies this`sweeps, this`guard
      ensures Valid() && sweeps == old(sweeps) - {id}
      ensures guard == if old(guard) == Trimming(id) then Free else old(guard)
      ensures old(Covered()) ==> Covered()
    {
      sweeps := sweeps - {id};
      if guard == Trimming(id) {
        guard := Free;
      }
    }

    /** A cancelled trim frees the guard; its thread goes on with the reservations it saw. */
    method CancelTrim()
      requires Valid() && guard.Trimming?
      modifies this`guard
      ensures Valid() && guard == Free && (Kept() <==> old(Kept())) && (Covered() <==> old(Covered()))
    {
      guard := Free;
    }

    /** The artifacts a sweep takes when nothing disturbs it any more. */
    function Doomed(files: map<string, File>, s: Sweep): set<string>
      requires s.Sweeping?
      decreases if s.Sweeping? then |s.entries| else 0
    {
      if Done(s) then {} else Taken(files, s) + Doomed(files - Taken(files, s), Rest(files, s))
    }

    /** A sweep left to itself takes exactly those, so the reserved artifacts stay if and only if none is among them. */
    method SweepOn(id: nat)
      requires Valid() && id in sweeps && sweeps[id].Sweeping?
      modifies this`files, this`sweeps
      ensures Valid() && id in sweeps && sweeps[id].Sweeping? && Done(sweeps[id])
      ensures sweeps == old(sweeps)[id := sweeps[id]]
      ensures files == old(files) - old(Doomed(files, sweeps[id]))
      ensures old(Kept()) ==> (Kept() <==> active.Keys !! old(Doomed(files, sweeps[id])))
      ensures old(Covered()) && old(Kept()) ==> Kept()
    {
      hide Taken, Rest, Spares;
      ghost var all := Doomed(files, sweeps[id]);
      ghost var taken: set<string> := {};
      while !Done(sweeps[id])
        invariant Valid() && id in sweeps && sweeps[id].Sweeping? && sweeps == old(sweeps)[id := sweeps[id]]
        invariant files == old(files) - taken && taken + Doomed(files, sweeps[id]) == all
        invariant old(Covered()) ==> Covered() && (old(Kept()) ==> Kept())
        decreases |sweeps[id].entries|
      {
        ghost var before, s := files, sweeps[id];
        RestIsShorter(files, s);
        taken := taken + Taken(files, s);
        Unlink(id);
        assert before - Taken(before, s) == old(files) - taken;
      }
    }

    /** Whether removing `removed` of the listed entries meets both limits. */
    predicate Fits(entries: seq<Entry>, removed: seq<Entry>)
    {
      |entries| <= maxEntries + |removed| && Bytes(entries) <= maxBytes + Bytes(removed)
    }

    /**
     * A trim nobody cancels or disturbs: it removes the shortest oldest-first run of unreserved artifacts that meets
     * both limits, or all of them when even that is not enough; a reserved artifact stays.
     */
    method Trim(listing: seq<Entry>)
      requires Valid() && guard.Free? && Lists(listing, files)
      modifies this`files, this`sweeps, this`guard, this`started
      ensures Valid() && guard.Free? && sweeps == old(sweeps)
      ensures forall key :: key in active && key in old(files) ==> key in files && files[key] == old(files)[key]
      ensures var entries := Sorted(listing);
              var candidates := Candidates(entries, active.Keys);
              && OldestFirst(entries) && InOrder(entries) && Lists(entries, old(files))
              && exists n: nat :: n <= |candidates| && files == Without(old(files), candidates[..n])
                   && (Fits(entries, candidates[..n]) || n == |candidates|)
                   && forall m: nat :: m < n ==> !Fits(entries, candidates[..m])
    {
      hide Candidates, Bytes, Sorted, Lists, OldestFirst, InOrder, Doomed, Without, Welcome;
      var id := BeginTrim();
      List(id, listing);
      ghost var entries := sweeps[id].entries;
      NothingYet(files, entries, active.Keys);
      assert entries[0..] == entries;
      ghost var n := DoomedIsShortest(files, entries, active.Keys, Candidates(entries, active.Keys), 0, 0);
      SweepOn(id);
      Untouched(old(files), entries, active.Keys, Candidates(entries, active.Keys), n);
      Finish(id);
      assert sweeps == old(sweeps);
    }

    /** An undisturbed sweep takes the shortest run of candidates that meets both limits, from any of its steps on. */
    lemma {:induction false} DoomedIsShortest(files: map<string, File>, entries: seq<Entry>, reserved: set<string>,
                                              candidates: seq<Entry>, i: nat, n: nat) returns (m: nat)
      requires Lists(entries, files) && i <= |entries| && candidates == Candidates(entries, reserved)
               && n <= |candidates|
      requires candidates[..n] == Candidates(entries[..i], reserved)
      requires forall j: nat :: j < n ==> !Fits(entries, candidates[..j])
      ensures n <= m <= |candidates| && (Fits(entries, candidates[..m]) || m == |candidates|)
      ensures forall j: nat :: j < m ==> !Fits(entries, candidates[..j])
      ensures var left := Without(files, candidates[..n]);
              var s := Sweeping(reserved, entries[i..], |entries| - n, Bytes(entries) - Bytes(candidates[..n]));
              left - Doomed(left, s) == Without(files, candidates[..m])
      decreases |entries| - i
    {
      hide Candidates, Bytes, Lists, Without, Taken, Rest;
      var left := Without(files, candidates[..n]);
      var s := Sweeping(reserved, entries[i..], |entries| - n, Bytes(entries) - Bytes(candidates[..n]));
      if Done(s) {
        m := n;
        assert left - {} == left;
        if i == |entries| {
          assert entries[..i] == entries;
        }
      } else {
        TrimUnlink(files, entries, reserved, candidates, i, n);
        m := DoomedIsShortest(files, entries, reserved, candidates, i + 1,
                              if entries[i].key in reserved then n else n + 1);
        var next, rest := left - Taken(left, s), Rest(left, s);
        assert left - (Taken(left, s) + Doomed(next, rest)) == next - Doomed(next, rest);
      }
    }

    method TotalOf(entries: seq<Entry>) returns (total: int)
      ensures total == Bytes(entries)
    {
      var i := 0;
      total := 0;
      while i < |entries|
        invariant i <= |entries| && total == Bytes(entries[..i])
      {
        assert entries[..i + 1][..i] == entries[..i];
        total := total + entries[i].size;
        i := i + 1;
      }
      assert entries[..i] == entries;
    }
  }

  function More(leaked: map<string, nat>, key: string): map<string, nat> {
    leaked[key := (if key in leaked then leaked[key] else 0) + 1]
  }

  lemma ShorterKeys(entries: seq<Entry>)
    requires entries != []
    ensures KeysOf(entries) == {entries[0].key} + KeysOf(entries[1..])
  {
    assert forall i :: 0 <= i < |entries| - 1 ==> entries[1..][i] == entries[i + 1];
    forall key | key in KeysOf(entries[1..])
      ensures key in KeysOf(entries)
    {
      var i :| 0 <= i < |entries| - 1 && entries[1..][i].key == key;
      assert entries[i + 1].key == key;
    }
    forall key | key in KeysOf(entries) && key != entries[0].key
      ensures key in KeysOf(entries[1..])
    {
      var i :| 0 <= i < |entries| && entries[i].key == key;
      assert entries[1..][i - 1].key == key;
    }
  }

  lemma RestIsShorter(files: map<string, File>, s: Sweep)
    requires s.Sweeping? && s.entries != []
    ensures Rest(files, s).Sweeping? && |Rest(files, s).entries| < |s.entries|
  {
  }

  /** A cancelled trim's sweep evicts an artifact that was reserved after it had looked. */
  method StaleTrimEvicts() returns (cache: CompileCache)
    ensures fresh(cache) && cache.Valid() && "a" in cache.active && "a" !in cache.files && !cache.Kept()
  {
    hide Sorted, Bytes, Lists, OldestFirst, Welcome;
    cache := new CompileCache(1, 100, map["a" := File(1, 1), "b" := File(2, 1)]);
    var id := cache.BeginTrim();
    var a, b := Entry(1, 1, "a"), Entry(2, 1, "b");
    TwoEntries(a, b, cache.files);
    cache.List(id, [a, b]);
    assert cache.sweeps[id] == Sweeping({}, [a, b], 2, 2);
    cache.CancelTrim();
    var found := cache.Acquire("a", 3);
    cache.Unlink(id);
  }

  lemma OneEntry(e: Entry)
    ensures Bytes([e]) == e.size
  {
    assert [e][..0] == [];
    var none := Bytes([e][..0]);
    assert none == 0;
  }

  lemma TwoEntries(a: Entry, b: Entry, files: map<string, File>)
    requires a.mtime < b.mtime && a.key != b.key
    requires files == map[a.key := File(a.mtime, a.size), b.key := File(b.mtime, b.size)]
    ensures Sorted([a, b]) == [a, b] && Bytes([a, b]) == a.size + b.size && Lists([a, b], files)
  {
    assert [a, b][1..] == [b] && [b][1..] == [];
    assert [a, b][..1] == [a] && [a][..0] == [];
    assert Sorted([b]) == [b];
    OneEntry(a);
    assert Bytes([a, b]) == Bytes([a, b][..1]) + b.size;
  }

  lemma SortedIsListing(listing: seq<Entry>, files: map<string, File>)
    requires Lists(listing, files)
    ensures OldestFirst(Sorted(listing)) && InOrder(Sorted(listing)) && Lists(Sorted(listing), files)
  {
    SortedLists(listing);
    SortedInOrder(listing);
  }

  lemma NothingYet(files: map<string, File>, entries: seq<Entry>, reserved: set<string>)
    ensures entries[..0] == [] && Candidates([], reserved) == [] && Bytes([]) == 0 && Without(files, []) == files
  {
  }

  lemma TrimStep(files: map<string, File>, entries: seq<Entry>, reserved: set<string>, candidates: seq<Entry>, i: nat,
                 n: nat)
    requires i < |entries| && candidates == Candidates(entries, reserved) && n <= |candidates|
    requires candidates[..n] == Candidates(entries[..i], reserved)
    ensures entries[i].key in reserved ==> candidates[..n] == Candidates(entries[..i + 1], reserved)
    ensures entries[i].key !in reserved ==>
              && n < |candidates| && candidates[n] == entries[i]
                && candidates[..n + 1] == Candidates(entries[..i + 1], reserved)
              && Bytes(candidates[..n + 1]) == Bytes(candidates[..n]) + entries[i].size
              && Without(files, candidates[..n + 1]) == Without(files, candidates[..n]) - {entries[i].key}
  {
    assert entries[..i + 1][..i] == entries[..i];
    CandidatesPrefix(entries, reserved, i + 1);
    if entries[i].key !in reserved {
      var longer := Candidates(entries[..i + 1], reserved);
      assert longer == candidates[..n] + [entries[i]];
      assert candidates[..|longer|] == longer;
      assert candidates[..n + 1][..n] == candidates[..n];
      WithoutMore(files, candidates[..n], entries[i]);
    }
  }

  /** An entry not taken yet is still there. */
  lemma StillThere(files: map<string, File>, entries: seq<Entry>, removed: seq<Entry>, reserved: set<string>, i: nat)
    requires Lists(entries, files) && i < |entries| && removed == Candidates(entries[..i], reserved)
    ensures entries[i].key in Without(files, removed)
  {
    hide Candidates;
    CandidatesUnreserved(entries[..i], reserved);
    assert entries[i] in entries;
    forall j | 0 <= j < |removed|
      ensures removed[j].key != entries[i].key
    {
      assert removed[j] in removed;
      var k :| 0 <= k < i && entries[k] == removed[j];
    }
  }

  /** One pass of an undisturbed trim. */
  lemma TrimUnlink(files: map<string, File>, entries: seq<Entry>, reserved: set<string>, candidates: seq<Entry>, i: nat,
                   n: nat)
    requires Lists(entries, files) && i < |entries| && candidates == Candidates(entries, reserved) && n <= |candidates|
    requires candidates[..n] == Candidates(entries[..i], reserved)
    ensures var s := Sweeping(reserved, entries[i..], |entries| - n, Bytes(entries) - Bytes(candidates[..n]));
            var left := Without(files, candidates[..n]);
            var m := if entries[i].key in reserved then n else n + 1;
            && m <= |candidates| && candidates[..m] == Candidates(entries[..i + 1], reserved)
            && Rest(left, s) == Sweeping(reserved, entries[i + 1..], |entries| - m,
                                         Bytes(entries) - Bytes(candidates[..m]))
            && left - Taken(left, s) == Without(files, candidates[..m])
  {
    hide Candidates, Bytes, Lists, Without;
    TrimStep(files, entries, reserved, candidates, i, n);
    StillThere(files, entries, candidates[..n], reserved, i);
    assert entries[i..][0] == entries[i] && entries[i..][1..] == entries[i + 1..];
    var left := Without(files, candidates[..n]);
    assert left - {} == left;
  }

  lemma WithoutMore(files: map<string, File>, removed: seq<Entry>, e: Entry)
    ensures Without(files, removed + [e]) == Without(files, removed) - {e.key}
  {
    var more := removed + [e];
    assert more[|removed|] == e && forall i :: 0 <= i < |removed| ==> more[i] == removed[i];
    assert KeysOf(more) == KeysOf(removed) + {e.key};
  }

  lemma Untouched(files: map<string, File>, entries: seq<Entry>, reserved: set<string>, candidates: seq<Entry>, n: nat)
    requires candidates == Candidates(entries, reserved) && n <= |candidates|
    ensures var left := Without(files, candidates[..n]);
            forall key :: key in reserved && key in files ==> key in left && left[key] == files[key]
  {
    CandidatesUnreserved(entries, reserved);
    forall key, i | key in reserved && 0 <= i < n
      ensures candidates[..n][i].key != key
    {
      assert candidates[..n][i] == candidates[i] && candidates[i] in candidates;
    }
  }
}
