/** The table of per-chat locks, with eviction (src/wahabot/core/runs.py, chat_lock). */
module ChatLocks {
  // Every acquisition is numbered by its arrival and owns one pending count from the moment it asks
  // for its chat's lock until it leaves. The code between two awaits is one step; steps of different
  // acquisitions interleave in any order, and a waiting one may be cancelled at any time.

  import opened Chats
  import opened OrderedDict
  import opened Sequences
  import opened AsyncLock

  /** An acquisition under way: the lock object it found, and whether it is past the wait. */
  datatype Acquisition = Acquisition(key: Chat, lock: nat, inside: bool)

  /** `locks` holds every lock object ever made, by number; `table` names the one each chat uses. */
  datatype State = State(
    table: Dict<Chat, nat>,
    pending: map<Chat, nat>,
    locks: map<nat, Lock>,
    tasks: map<nat, Acquisition>,
    clock: nat)

  function Initial(): State {
    State(Empty(), map[], map[], map[], 0)
  }

  function Count(pending: map<Chat, nat>, key: Chat): nat {
    if key in pending then pending[key] else 0
  }

  // ----- eviction -----

  /** A lock that is held or has an acquisition under way is passed over. */
  predicate Busy(locks: map<nat, Lock>, pending: map<Chat, nat>, key: Chat, lock: nat) {
    (lock in locks && locks[lock].locked) || Count(pending, key) > 0
  }

  /** The keys of the snapshot from i on are distinct and still in the table. */
  ghost predicate Listed(table: Dict<Chat, nat>, ks: seq<Chat>, i: nat) {
    table.Valid() && i <= |ks| && Distinct(ks) && forall j | i <= j < |ks| :: ks[j] in table.vals
  }

  lemma ListedWithout(table: Dict<Chat, nat>, ks: seq<Chat>, i: nat)
    requires Listed(table, ks, i) && i < |ks|
    ensures Listed(table.Remove(ks[i]), ks, i + 1)
  {
  }

  /** Drops idle keys of `ks`, from i on, oldest first, until the table is within its cap. */
  function Evicted(table: Dict<Chat, nat>, ks: seq<Chat>, i: nat, cap: nat, locks: map<nat, Lock>, pending: map<Chat, nat>): Dict<Chat, nat>
    requires Listed(table, ks, i)
    decreases |ks| - i
  {
    if i == |ks| || |table.keys| <= cap then table
    else if Busy(locks, pending, ks[i], table.vals[ks[i]]) then Evicted(table, ks, i + 1, cap, locks, pending)
    else
      ListedWithout(table, ks, i);
      Evicted(table.Remove(ks[i]), ks, i + 1, cap, locks, pending)
  }

  lemma ShrunkFurther(table: Dict<Chat, nat>, key: Chat, e: Dict<Chat, nat>)
    requires table.Valid() && PartOf(e, table.Remove(key))
    ensures PartOf(e, table)
  {
  }

  lemma {:induction false} EvictedShrinks(table: Dict<Chat, nat>, ks: seq<Chat>, i: nat, cap: nat, locks: map<nat, Lock>, pending: map<Chat, nat>)
    requires Listed(table, ks, i)
    ensures PartOf(Evicted(table, ks, i, cap, locks, pending), table)
    decreases |ks| - i
  {
    if i < |ks| && |table.keys| > cap {
      if Busy(locks, pending, ks[i], table.vals[ks[i]]) {
        EvictedShrinks(table, ks, i + 1, cap, locks, pending);
      } else {
        ListedWithout(table, ks, i);
        EvictedShrinks(table.Remove(ks[i]), ks, i + 1, cap, locks, pending);
        ShrunkFurther(table, ks[i], Evicted(table.Remove(ks[i]), ks, i + 1, cap, locks, pending));
      }
    }
  }

  lemma {:induction false} EvictedKeeps(table: Dict<Chat, nat>, ks: seq<Chat>, i: nat, cap: nat, locks: map<nat, Lock>, pending: map<Chat, nat>, key: Chat)
    requires Listed(table, ks, i)
    requires key in table.vals && Busy(locks, pending, key, table.vals[key])
    ensures key in Evicted(table, ks, i, cap, locks, pending).vals
    decreases |ks| - i
  {
    hide Busy, Distinct;
    if i < |ks| && |table.keys| > cap {
      if Busy(locks, pending, ks[i], table.vals[ks[i]]) {
        EvictedKeeps(table, ks, i + 1, cap, locks, pending, key);
      } else {
        ListedWithout(table, ks, i);
        EvictedKeeps(table.Remove(ks[i]), ks, i + 1, cap, locks, pending, key);
      }
    }
  }

  predicate BusyOrGone(e: Dict<Chat, nat>, key: Chat, locks: map<nat, Lock>, pending: map<Chat, nat>) {
    key in e.vals ==> Busy(locks, pending, key, e.vals[key])
  }

  /** The loop stops early only within the cap; otherwise every idle entry is gone. */
  lemma {:induction false} EvictedBounds(table: Dict<Chat, nat>, ks: seq<Chat>, i: nat, cap: nat, locks: map<nat, Lock>, pending: map<Chat, nat>)
    requires Listed(table, ks, i)
    ensures var e := Evicted(table, ks, i, cap, locks, pending);
            |e.keys| <= cap || forall j | i <= j < |ks| :: BusyOrGone(e, ks[j], locks, pending)
    decreases |ks| - i
  {
    if i < |ks| && |table.keys| > cap {
      EvictedShrinks(table, ks, i, cap, locks, pending);
      if Busy(locks, pending, ks[i], table.vals[ks[i]]) {
        EvictedBounds(table, ks, i + 1, cap, locks, pending);
      } else {
        ListedWithout(table, ks, i);
        EvictedShrinks(table.Remove(ks[i]), ks, i + 1, cap, locks, pending);
        ListedWithout(table, ks, i);
        EvictedBounds(table.Remove(ks[i]), ks, i + 1, cap, locks, pending);
      }
    }
  }

  // ----- steps -----

  /** The lock object the chat's entry names, or a new one. */
  function LockFor(s: State, key: Chat): nat {
    if key in s.table.vals then s.table.vals[key] else s.clock
  }

  function LocksWith(s: State, key: Chat): map<nat, Lock> {
    if key in s.table.vals then s.locks else s.locks[s.clock := FREE]
  }

  function Found(s: State, key: Chat): Lock {
    if LockFor(s, key) in LocksWith(s, key) then LocksWith(s, key)[LockFor(s, key)] else FREE
  }

  /** What an entry does apart from evicting: its chat moves to the end of the table, its count goes
      up, and it takes the lock or joins the queue. */
  function Entered(s: State, key: Chat): State
    requires s.table.Valid()
  {
    State(
      s.table.Remove(key).Put(key, LockFor(s, key)),
      s.pending[key := Count(s.pending, key) + 1],
      LocksWith(s, key)[LockFor(s, key) := Acquire(Found(s, key), s.clock)],
      s.tasks[s.clock := Acquisition(key, LockFor(s, key), Immediate(Found(s, key)))],
      s.clock + 1)
  }

  /** Everything chat_lock does up to its first await; the eviction runs before the lock is asked for. */
  function Enter(s: State, key: Chat, cap: nat): State
    requires s.table.Valid()
  {
    var n := Entered(s, key);
    n.(table := Evicted(n.table, n.table.keys, 0, cap, LocksWith(s, key), n.pending))
  }

  /** The place of a task in a queue, or the queue's length. */
  function PlaceIn(ws: seq<Waiter>, task: nat): (i: nat)
    ensures i <= |ws| && (i < |ws| ==> ws[i].task == task)
    ensures i == |ws| ==> forall j | 0 <= j < |ws| :: ws[j].task != task
  {
    if ws == [] then 0 else if ws[0].task == task then 0 else 1 + PlaceIn(ws[1..], task)
  }

  /** The finally clause: one pending acquisition less, and no entry at zero. */
  function OneFewer(pending: map<Chat, nat>, key: Chat): map<Chat, nat> {
    var left := Count(pending, key) - 1;
    if left > 0 then pending[key := left] else pending - {key}
  }

  predicate Waiting(s: State, task: nat) {
    task in s.tasks && !s.tasks[task].inside && s.tasks[task].lock in s.locks
    && PlaceIn(s.locks[s.tasks[task].lock].waiters, task) < |s.locks[s.tasks[task].lock].waiters|
  }

  function Place(s: State, task: nat): nat
    requires Waiting(s, task)
  {
    PlaceIn(s.locks[s.tasks[task].lock].waiters, task)
  }

  predicate CanResume(s: State, task: nat) {
    Waiting(s, task) && Runnable(s.locks[s.tasks[task].lock], Place(s, task))
  }

  /** The body of the context manager ends, normally or by an exception. */
  predicate CanLeave(s: State, task: nat) {
    task in s.tasks && s.tasks[task].inside && s.tasks[task].lock in s.locks
  }

  function RequestCancel(s: State, task: nat): State
    requires Waiting(s, task)
  {
    var lock := s.tasks[task].lock;
    s.(locks := s.locks[lock := Cancel(s.locks[lock], Place(s, task))])
  }

  function ResumeTask(s: State, task: nat): State
    requires CanResume(s, task)
  {
    var a := s.tasks[task];
    var l, i := s.locks[a.lock], Place(s, task);
    var locks := s.locks[a.lock := Resume(l, i)];
    if l.waiters[i].doomed then s.(locks := locks, tasks := s.tasks - {task}, pending := OneFewer(s.pending, a.key))
    else s.(locks := locks, tasks := s.tasks[task := a.(inside := true)])
  }

  function Leave(s: State, task: nat): State
    requires CanLeave(s, task)
  {
    var a := s.tasks[task];
    s.(locks := s.locks[a.lock := Release(s.locks[a.lock])], tasks := s.tasks - {task}, pending := OneFewer(s.pending, a.key))
  }

  datatype Step = Entering(key: Chat) | Cancelling(task: nat) | Resuming(task: nat) | Leaving(task: nat)

  ghost predicate Enabled(s: State, step: Step) {
    match step
    case Entering(key) => s.table.Valid()
    case Cancelling(task) => Waiting(s, task)
    case Resuming(task) => CanResume(s, task)
    case Leaving(task) => CanLeave(s, task)
  }

  function Apply(s: State, step: Step, cap: nat): State
    requires Enabled(s, step)
  {
    match step
    case Entering(key) => Enter(s, key, cap)
    case Cancelling(task) => RequestCancel(s, task)
    case Resuming(task) => ResumeTask(s, task)
    case Leaving(task) => Leave(s, task)
  }

  // ----- the invariant -----

  function TasksOf(tasks: map<nat, Acquisition>, key: Chat): set<nat> {
    set t | t in tasks && tasks[t].key == key
  }

  function WaitersOf(tasks: map<nat, Acquisition>, lock: nat): set<nat> {
    set t | t in tasks && !tasks[t].inside && tasks[t].lock == lock
  }

  function HoldersOf(tasks: map<nat, Acquisition>, lock: nat): set<nat> {
    set t | t in tasks && tasks[t].inside && tasks[t].lock == lock
  }

  function QueuedIn(l: Lock): set<nat> {
    set i | 0 <= i < |l.waiters| :: l.waiters[i].task
  }

  /** A lock object is sound, its queue is exactly the acquisitions that wait for it, and it is locked
      exactly when one acquisition is past it. */
  ghost predicate LockInv(l: Lock, tasks: map<nat, Acquisition>, lock: nat) {
    && Sound(l)
    && QueuedIn(l) == WaitersOf(tasks, lock)
    && |HoldersOf(tasks, lock)| == if l.locked then 1 else 0
  }

  /** An acquisition uses the very lock object its chat's table entry names. */
  ghost predicate TaskInv(s: State, task: nat)
    requires task in s.tasks
  {
    var a := s.tasks[task];
    task < s.clock && a.lock in s.locks && a.key in s.table.vals && s.table.vals[a.key] == a.lock
  }

  ghost predicate TableInv(s: State) {
    && s.table.Valid()
    && (forall k | k in s.table.vals :: s.table.vals[k] in s.locks)
    && (forall j, k | j in s.table.vals && k in s.table.vals && j != k :: s.table.vals[j] != s.table.vals[k])
    && (forall lock | lock in s.locks :: lock < s.clock)
  }

  ghost predicate PendingInv(s: State) {
    forall key :: Counted(s.pending, s.tasks, key)
  }

  ghost predicate Inv(s: State) {
    && TableInv(s)
    && PendingInv(s)
    && (forall task | task in s.tasks :: TaskInv(s, task))
    && (forall lock | lock in s.locks :: LockInv(s.locks[lock], s.tasks, lock))
  }

  // ----- what a step does to one lock's queue -----

  lemma PlaceOfQueued(l: Lock, t: nat)
    requires Sound(l)
    ensures t in QueuedIn(l) <==> PlaceIn(l.waiters, t) < |l.waiters|
    ensures forall i | 0 <= i < |l.waiters| && l.waiters[i].task == t :: i == PlaceIn(l.waiters, t)
  {
  }

  lemma QueuedAfterAcquire(l: Lock, t: nat)
    ensures QueuedIn(Acquire(l, t)) == QueuedIn(l) + (if Immediate(l) then {} else {t})
  {
    if !Immediate(l) {
      var ws := Acquire(l, t).waiters;
      assert ws[|l.waiters|].task == t;
      assert forall i | 0 <= i < |l.waiters| :: ws[i] == l.waiters[i];
    }
  }

  lemma QueuedAfterWake(l: Lock, ws: seq<Waiter>, locked: bool)
    requires l.waiters == WakeFirst(ws)
    ensures QueuedIn(l) == QueuedIn(Lock(locked, ws))
  {
    assert forall i | 0 <= i < |ws| :: l.waiters[i].task == ws[i].task;
  }

  lemma QueuedAfterCancel(l: Lock, i: nat)
    requires i < |l.waiters|
    ensures QueuedIn(Cancel(l, i)) == QueuedIn(l)
  {
    assert forall j | 0 <= j < |l.waiters| :: Cancel(l, i).waiters[j].task == l.waiters[j].task;
  }

  lemma QueuedAfterResume(l: Lock, i: nat)
    requires Sound(l) && i < |l.waiters|
    ensures QueuedIn(Resume(l, i)) == QueuedIn(l) - {l.waiters[i].task}
  {
    var rest := AsyncLock.RemovedAt(l.waiters, i);
    QueuedAfterWake(Lock(false, WakeFirst(rest)), rest, true);
    forall j | 0 <= j < |l.waiters| && j != i
      ensures l.waiters[j].task in QueuedIn(Lock(true, rest))
    {
      assert rest[if j < i then j else j - 1] == l.waiters[j];
    }
  }

  // ----- one lock, when an acquisition comes, goes in or leaves -----

  lemma OtherLockWithout(l: Lock, tasks: map<nat, Acquisition>, t: nat, lock: nat)
    requires LockInv(l, tasks, lock) && t in tasks && tasks[t].lock != lock
    ensures LockInv(l, tasks - {t}, lock)
  {
    assert WaitersOf(tasks - {t}, lock) == WaitersOf(tasks, lock);
    assert HoldersOf(tasks - {t}, lock) == HoldersOf(tasks, lock);
  }

  lemma OtherLockChanged(l: Lock, tasks: map<nat, Acquisition>, t: nat, a: Acquisition, lock: nat)
    requires LockInv(l, tasks, lock) && a.lock != lock && (t in tasks ==> tasks[t].lock != lock)
    ensures LockInv(l, tasks[t := a], lock)
  {
    assert WaitersOf(tasks[t := a], lock) == WaitersOf(tasks, lock);
    assert HoldersOf(tasks[t := a], lock) == HoldersOf(tasks, lock);
  }

  lemma LockReleased(l: Lock, tasks: map<nat, Acquisition>, t: nat, lock: nat)
    requires LockInv(l, tasks, lock) && t in HoldersOf(tasks, lock)
    ensures LockInv(Release(l), tasks - {t}, lock)
  {
    ReleaseSound(l);
    QueuedAfterWake(Release(l), l.waiters, true);
    assert WaitersOf(tasks - {t}, lock) == WaitersOf(tasks, lock);
    assert HoldersOf(tasks - {t}, lock) == HoldersOf(tasks, lock) - {t};
    assert QueuedIn(Lock(true, l.waiters)) == QueuedIn(l);
  }

  lemma LockGivenUp(l: Lock, tasks: map<nat, Acquisition>, i: nat, lock: nat)
    requires LockInv(l, tasks, lock) && i < |l.waiters| && l.waiters[i].doomed
    ensures LockInv(Resume(l, i), tasks - {l.waiters[i].task}, lock)
  {
    var t := l.waiters[i].task;
    assert t in QueuedIn(l);
    ResumeSound(l, i);
    QueuedAfterResume(l, i);
    assert WaitersOf(tasks - {t}, lock) == WaitersOf(tasks, lock) - {t};
    assert HoldersOf(tasks - {t}, lock) == HoldersOf(tasks, lock);
  }

  lemma LockTaken(l: Lock, tasks: map<nat, Acquisition>, i: nat, lock: nat)
    requires LockInv(l, tasks, lock) && i < |l.waiters| && Runnable(l, i) && !l.waiters[i].doomed
    ensures var t := l.waiters[i].task; t in tasks && LockInv(Resume(l, i), tasks[t := tasks[t].(inside := true)], lock)
  {
    var t := l.waiters[i].task;
    assert t in QueuedIn(l);
    TakenInTurn(l, i);
    ResumeSound(l, i);
    QueuedAfterResume(l, i);
    var next := tasks[t := tasks[t].(inside := true)];
    assert HoldersOf(tasks, lock) == {};
    assert HoldersOf(next, lock) == {t};
    assert WaitersOf(next, lock) == WaitersOf(tasks, lock) - {t};
  }

  lemma LockTakenAtOnce(l: Lock, tasks: map<nat, Acquisition>, t: nat, key: Chat, lock: nat)
    requires LockInv(l, tasks, lock) && t !in tasks && Immediate(l)
    ensures LockInv(Acquire(l, t), tasks[t := Acquisition(key, lock, true)], lock)
  {
    QueuedAfterAcquire(l, t);
    var next := tasks[t := Acquisition(key, lock, true)];
    assert HoldersOf(tasks, lock) == {};
    assert HoldersOf(next, lock) == {t};
    assert WaitersOf(next, lock) == WaitersOf(tasks, lock);
  }

  lemma LockQueuedFor(l: Lock, tasks: map<nat, Acquisition>, t: nat, key: Chat, lock: nat)
    requires LockInv(l, tasks, lock) && (forall u | u in tasks :: u < t) && !Immediate(l)
    ensures LockInv(Acquire(l, t), tasks[t := Acquisition(key, lock, false)], lock)
  {
    forall i | 0 <= i < |l.waiters|
      ensures l.waiters[i].task < t
    {
      assert l.waiters[i].task in QueuedIn(l);
    }
    AcquireSound(l, t);
    QueuedAfterAcquire(l, t);
    var next := tasks[t := Acquisition(key, lock, false)];
    assert t !in tasks;
    assert HoldersOf(next, lock) == HoldersOf(tasks, lock);
    assert WaitersOf(next, lock) == WaitersOf(tasks, lock) + {t};
  }

  lemma NewLock(tasks: map<nat, Acquisition>, lock: nat)
    requires forall t | t in tasks :: tasks[t].lock != lock
    ensures LockInv(FREE, tasks, lock)
  {
    assert QueuedIn(FREE) == {} && WaitersOf(tasks, lock) == {} && HoldersOf(tasks, lock) == {};
  }

  // ----- the pending counts -----

  ghost predicate Counted(pending: map<Chat, nat>, tasks: map<nat, Acquisition>, key: Chat) {
    (key in pending ==> pending[key] > 0) && Count(pending, key) == |TasksOf(tasks, key)|
  }

  /** The finally clause brings the count down with the acquisition that leaves. */
  lemma CountsOneFewer(pending: map<Chat, nat>, tasks: map<nat, Acquisition>, t: nat, key: Chat)
    requires Counted(pending, tasks, key) && t in tasks
    ensures Counted(OneFewer(pending, tasks[t].key), tasks - {t}, key)
  {
    if key == tasks[t].key {
      assert t in TasksOf(tasks, key);
      assert TasksOf(tasks - {t}, key) == TasksOf(tasks, key) - {t};
    } else {
      assert TasksOf(tasks - {t}, key) == TasksOf(tasks, key);
    }
  }

  lemma CountsEntered(pending: map<Chat, nat>, tasks: map<nat, Acquisition>, t: nat, a: Acquisition, key: Chat)
    requires Counted(pending, tasks, key) && t !in tasks
    ensures Counted(pending[a.key := Count(pending, a.key) + 1], tasks[t := a], key)
  {
    if key == a.key {
      assert t !in TasksOf(tasks, key);
      assert TasksOf(tasks[t := a], key) == TasksOf(tasks, key) + {t};
    } else {
      assert TasksOf(tasks[t := a], key) == TasksOf(tasks, key);
    }
  }

  lemma CountsSame(pending: map<Chat, nat>, tasks: map<nat, Acquisition>, t: nat, a: Acquisition, key: Chat)
    requires Counted(pending, tasks, key) && t in tasks && tasks[t].key == a.key
    ensures Counted(pending, tasks[t := a], key)
  {
    assert TasksOf(tasks[t := a], key) == TasksOf(tasks, key);
  }

  // ----- every step keeps the invariant -----

  lemma LeaveKeepsInv(s: State, task: nat)
    requires Inv(s) && CanLeave(s, task)
    ensures Inv(Leave(s, task))
  {
    var n := Leave(s, task);
    forall lock | lock in n.locks
      ensures LockInv(n.locks[lock], n.tasks, lock)
    {
      if lock == s.tasks[task].lock {
        LockReleased(s.locks[lock], s.tasks, task, lock);
      } else {
        OtherLockWithout(s.locks[lock], s.tasks, task, lock);
      }
    }
    forall key
      ensures Counted(n.pending, n.tasks, key)
    {
      CountsOneFewer(s.pending, s.tasks, task, key);
    }
    TasksStay(s, n);
  }

  /** Acquisitions that were there before keep their table entry when the table only gains or keeps entries. */
  lemma TasksStay(s: State, n: State)
    requires TableInv(s) && forall t | t in s.tasks :: TaskInv(s, t)
    requires n.table == s.table && n.clock == s.clock && n.locks.Keys == s.locks.Keys
    requires forall t | t in n.tasks :: t in s.tasks && n.tasks[t].key == s.tasks[t].key && n.tasks[t].lock == s.tasks[t].lock
    ensures TableInv(n) && forall t | t in n.tasks :: TaskInv(n, t)
  {
    forall t | t in n.tasks
      ensures TaskInv(n, t)
    {
      assert TaskInv(s, t);
    }
  }

  lemma CancelKeepsInv(s: State, task: nat)
    requires Inv(s) && Waiting(s, task)
    ensures Inv(RequestCancel(s, task))
  {
    hide Sound, QueuedIn;
    var n := RequestCancel(s, task);
    forall lock | lock in n.locks
      ensures LockInv(n.locks[lock], n.tasks, lock)
    {
      assert LockInv(s.locks[lock], s.tasks, lock);
      if lock == s.tasks[task].lock {
        CancelSound(s.locks[lock], Place(s, task));
        QueuedAfterCancel(s.locks[lock], Place(s, task));
      }
    }
    TasksStay(s, n);
  }

  predicate Doomed(s: State, task: nat)
    requires Waiting(s, task)
  {
    s.locks[s.tasks[task].lock].waiters[Place(s, task)].doomed
  }

  lemma GiveUpKeepsInv(s: State, task: nat)
    requires Inv(s) && CanResume(s, task) && Doomed(s, task)
    ensures Inv(ResumeTask(s, task))
  {
    var n, i := ResumeTask(s, task), Place(s, task);
    forall lock | lock in n.locks
      ensures LockInv(n.locks[lock], n.tasks, lock)
    {
      if lock == s.tasks[task].lock {
        LockGivenUp(s.locks[lock], s.tasks, i, lock);
      } else {
        OtherLockWithout(s.locks[lock], s.tasks, task, lock);
      }
    }
    forall key
      ensures Counted(n.pending, n.tasks, key)
    {
      CountsOneFewer(s.pending, s.tasks, task, key);
    }
    TasksStay(s, n);
  }

  lemma TakeKeepsLocks(s: State, task: nat, lock: nat)
    requires Inv(s) && CanResume(s, task) && !Doomed(s, task) && lock in s.locks
    ensures LockInv(ResumeTask(s, task).locks[lock], ResumeTask(s, task).tasks, lock)
  {
    var a := s.tasks[task];
    assert LockInv(s.locks[lock], s.tasks, lock);
    if lock == a.lock {
      LockTaken(s.locks[lock], s.tasks, Place(s, task), lock);
    } else {
      OtherLockChanged(s.locks[lock], s.tasks, task, a.(inside := true), lock);
    }
  }

  lemma TakeKeepsCount(s: State, task: nat, key: Chat)
    requires PendingInv(s) && CanResume(s, task) && !Doomed(s, task)
    ensures Counted(ResumeTask(s, task).pending, ResumeTask(s, task).tasks, key)
  {
    assert Counted(s.pending, s.tasks, key);
    CountsSame(s.pending, s.tasks, task, s.tasks[task].(inside := true), key);
  }

  lemma TakeKeepsRest(s: State, task: nat)
    requires Inv(s) && CanResume(s, task) && !Doomed(s, task)
    ensures var n := ResumeTask(s, task); TableInv(n) && (forall t | t in n.tasks :: TaskInv(n, t)) && n.locks.Keys == s.locks.Keys
  {
    TasksStay(s, ResumeTask(s, task));
  }

  lemma TakeKeepsInv(s: State, task: nat)
    requires Inv(s) && CanResume(s, task) && !Doomed(s, task)
    ensures Inv(ResumeTask(s, task))
  {
    var n := ResumeTask(s, task);
    forall lock | lock in n.locks
      ensures LockInv(n.locks[lock], n.tasks, lock)
    {
      TakeKeepsLocks(s, task, lock);
    }
    forall key
      ensures Counted(n.pending, n.tasks, key)
    {
      TakeKeepsCount(s, task, key);
    }
    TakeKeepsRest(s, task);
  }

  lemma EnteredVals(s: State, key: Chat)
    requires s.table.Valid()
    ensures var t := Entered(s, key).table; t.Valid() && t.vals == s.table.vals[key := LockFor(s, key)]
  {
    hide Acquire, Immediate, Found, LocksWith, Distinct;
    assert (s.table.vals - {key})[key := LockFor(s, key)] == s.table.vals[key := LockFor(s, key)];
  }

  lemma EnteredLocks(s: State, key: Chat)
    requires s.table.Valid()
    ensures var n := Entered(s, key);
            n.clock == s.clock + 1 && forall lock :: lock in n.locks <==> lock in s.locks || lock == LockFor(s, key)
  {
    hide Acquire, Immediate, Found, Distinct;
    assert key in s.table.vals || LockFor(s, key) == s.clock;
  }

  lemma EnteredTable(s: State, key: Chat)
    requires TableInv(s)
    ensures TableInv(Entered(s, key))
    ensures var t := Entered(s, key).table; key in t.vals && forall k | k in s.table.vals :: k in t.vals && t.vals[k] == s.table.vals[k]
  {
    hide Entered, Distinct;
    EnteredVals(s, key);
    EnteredLocks(s, key);
  }

  lemma FoundLock(s: State, key: Chat)
    requires Inv(s)
    ensures LockInv(Found(s, key), s.tasks, LockFor(s, key))
    ensures forall t | t in s.tasks :: t < s.clock
  {
    assert forall t | t in s.tasks :: TaskInv(s, t);
    if key in s.table.vals {
      assert LockInv(s.locks[LockFor(s, key)], s.tasks, LockFor(s, key));
    } else {
      NewLock(s.tasks, s.clock);
    }
  }

  lemma EnteredLock(s: State, key: Chat, lock: nat)
    requires Inv(s) && lock in Entered(s, key).locks
    ensures LockInv(Entered(s, key).locks[lock], Entered(s, key).tasks, lock)
  {
    FoundLock(s, key);
    var a := Acquisition(key, LockFor(s, key), Immediate(Found(s, key)));
    if lock != LockFor(s, key) {
      OtherLockChanged(s.locks[lock], s.tasks, s.clock, a, lock);
    } else if a.inside {
      LockTakenAtOnce(Found(s, key), s.tasks, s.clock, key, lock);
    } else {
      LockQueuedFor(Found(s, key), s.tasks, s.clock, key, lock);
    }
  }

  lemma EnteredKeepsInv(s: State, key: Chat)
    requires Inv(s)
    ensures Inv(Entered(s, key))
  {
    hide Entered, PendingInv, LockInv, TaskInv;
    var n := Entered(s, key);
    EnteredTable(s, key);
    forall lock | lock in n.locks
      ensures LockInv(n.locks[lock], n.tasks, lock)
    {
      EnteredLock(s, key, lock);
    }
    EnteredPending(s, key);
    forall t | t in n.tasks
      ensures TaskInv(n, t)
    {
      EnteredTask(s, key, t);
    }
  }

  lemma EnteredPending(s: State, key: Chat)
    requires Inv(s)
    ensures PendingInv(Entered(s, key))
  {
    hide LockInv, Acquire, Immediate, Found, LocksWith, Counted;
    var n := Entered(s, key);
    assert s.clock in s.tasks ==> TaskInv(s, s.clock);
    forall k
      ensures Counted(n.pending, n.tasks, k)
    {
      assert Counted(s.pending, s.tasks, k);
      CountsEntered(s.pending, s.tasks, s.clock, n.tasks[s.clock], k);
    }
  }

  lemma EnteredTask(s: State, key: Chat, t: nat)
    requires Inv(s) && t in Entered(s, key).tasks
    ensures TaskInv(Entered(s, key), t)
  {
    hide LockInv, Acquire, Immediate, Found, PendingInv;
    EnteredTable(s, key);
    if t != s.clock {
      assert TaskInv(s, t);
    }
  }

  /** What the eviction of an entry leaves: part of the table, with every chat that has an acquisition
      under way, and either within the cap or with nothing but such chats. */
  lemma EntryEvicts(s: State, key: Chat, cap: nat)
    requires Inv(s)
    ensures var before, after := Entered(s, key).table, Enter(s, key, cap).table;
            && PartOf(after, before)
            && (forall k | k in before.vals && Count(Entered(s, key).pending, k) > 0 :: k in after.vals)
            && (|after.keys| <= cap || forall k | k in after.vals :: Busy(LocksWith(s, key), Entered(s, key).pending, k, after.vals[k]))
  {
    var n := Entered(s, key);
    EnteredTable(s, key);
    var locks := LocksWith(s, key);
    EvictedShrinks(n.table, n.table.keys, 0, cap, locks, n.pending);
    EvictedBounds(n.table, n.table.keys, 0, cap, locks, n.pending);
    forall k | k in n.table.vals && Count(n.pending, k) > 0
      ensures k in Enter(s, key, cap).table.vals
    {
      EvictedKeeps(n.table, n.table.keys, 0, cap, locks, n.pending, k);
    }
    var e := Enter(s, key, cap).table;
    forall k | |e.keys| > cap && k in e.vals
      ensures Busy(locks, n.pending, k, e.vals[k])
    {
      assert k in n.table.keys;
      assert BusyOrGone(e, k, locks, n.pending);
    }
  }

  lemma EnterKeepsInv(s: State, key: Chat, cap: nat)
    requires Inv(s)
    ensures Inv(Enter(s, key, cap))
  {
    var n, e := Entered(s, key), Enter(s, key, cap);
    EnteredKeepsInv(s, key);
    EntryEvicts(s, key, cap);
    forall t | t in e.tasks
      ensures TaskInv(e, t)
    {
      assert TaskInv(n, t);
      assert t in TasksOf(n.tasks, n.tasks[t].key);
      assert Counted(n.pending, n.tasks, n.tasks[t].key);
    }
  }

  lemma StepKeepsInv(s: State, step: Step, cap: nat)
    requires Inv(s) && Enabled(s, step)
    ensures Inv(Apply(s, step, cap))
  {
    match step
    case Entering(key) => EnterKeepsInv(s, key, cap);
    case Cancelling(task) => CancelKeepsInv(s, task);
    case Resuming(task) => if Doomed(s, task) { GiveUpKeepsInv(s, task); } else { TakeKeepsInv(s, task); }
    case Leaving(task) => LeaveKeepsInv(s, task);
  }

  // ----- every run -----

  /** The steps can be taken one after the other from s. */
  ghost predicate Possible(s: State, steps: seq<Step>, cap: nat)
    decreases |steps|
  {
    steps == [] || (Enabled(s, steps[0]) && Possible(Apply(s, steps[0], cap), steps[1..], cap))
  }

  ghost function After(s: State, steps: seq<Step>, cap: nat): State
    requires Possible(s, steps, cap)
    decreases |steps|
  {
    if steps == [] then s else After(Apply(s, steps[0], cap), steps[1..], cap)
  }

  lemma {:induction false} RunKeepsInv(s: State, steps: seq<Step>, cap: nat)
    requires Inv(s) && Possible(s, steps, cap)
    ensures Inv(After(s, steps, cap))
    decreases |steps|
  {
    if steps != [] {
      StepKeepsInv(s, steps[0], cap);
      RunKeepsInv(Apply(s, steps[0], cap), steps[1..], cap);
    }
  }

  lemma InitialInv()
    ensures Inv(Initial())
  {
    forall key
      ensures Counted(Initial().pending, Initial().tasks, key)
    {
      assert TasksOf(Initial().tasks, key) == {};
    }
  }

  ghost predicate Reachable(s: State, cap: nat) {
    exists steps :: Possible(Initial(), steps, cap) && After(Initial(), steps, cap) == s
  }

  lemma ReachableInv(s: State, cap: nat)
    requires Reachable(s, cap)
    ensures Inv(s)
  {
    var steps :| Possible(Initial(), steps, cap) && After(Initial(), steps, cap) == s;
    InitialInv();
    RunKeepsInv(Initial(), steps, cap);
  }

  // ----- what holds in every reachable state -----

  lemma SingleHolder(tasks: map<nat, Acquisition>, lock: nat, t: nat, u: nat)
    requires |HoldersOf(tasks, lock)| <= 1 && t in HoldersOf(tasks, lock) && u in HoldersOf(tasks, lock)
    ensures t == u
  {
    SubsetSize({t, u}, HoldersOf(tasks, lock));
  }

  lemma OneInside(s: State, t: nat, u: nat)
    requires Inv(s)
    requires t in s.tasks && u in s.tasks && s.tasks[t].inside && s.tasks[u].inside && s.tasks[t].key == s.tasks[u].key
    ensures t == u
  {
    assert TaskInv(s, t) && TaskInv(s, u);
    var lock := s.tasks[t].lock;
    assert LockInv(s.locks[lock], s.tasks, lock);
    SingleHolder(s.tasks, lock, t, u);
  }

  /** At most one acquisition is past the lock of a chat, however many come, are cancelled and leave,
      and whatever the table evicts meanwhile. */
  lemma MutualExclusion(s: State, cap: nat, t: nat, u: nat)
    requires Reachable(s, cap)
    requires t in s.tasks && u in s.tasks && s.tasks[t].inside && s.tasks[u].inside && s.tasks[t].key == s.tasks[u].key
    ensures t == u
  {
    ReachableInv(s, cap);
    OneInside(s, t, u);
  }

  /** All acquisitions of a chat, waiting or inside, use the one lock object its table entry names,
      and acquisitions of different chats never share one. */
  lemma OneLockPerChat(s: State, cap: nat, t: nat, u: nat)
    requires Reachable(s, cap) && t in s.tasks && u in s.tasks
    ensures s.tasks[t].key in s.table.vals && s.table.vals[s.tasks[t].key] == s.tasks[t].lock
    ensures s.tasks[t].key == s.tasks[u].key <==> s.tasks[t].lock == s.tasks[u].lock
  {
    ReachableInv(s, cap);
    assert TaskInv(s, t) && TaskInv(s, u);
  }

  /** The pending count of a chat is the number of its acquisitions under way; no entry stays at zero. */
  lemma PendingIsExact(s: State, cap: nat, key: Chat)
    requires Reachable(s, cap)
    ensures Count(s.pending, key) == |TasksOf(s.tasks, key)|
    ensures key in s.pending <==> TasksOf(s.tasks, key) != {}
  {
    ReachableInv(s, cap);
    assert Counted(s.pending, s.tasks, key);
  }

  /** A lock with nobody inside never leaves everybody asleep: the first in its queue can run. */
  lemma NoLostWakeUp(s: State, cap: nat, t: nat)
    requires Reachable(s, cap) && t in s.tasks && !s.tasks[t].inside
    ensures (exists u :: u in HoldersOf(s.tasks, s.tasks[t].lock)) || exists u :: CanResume(s, u) && s.tasks[u].lock == s.tasks[t].lock
  {
    ReachableInv(s, cap);
    assert TaskInv(s, t);
    var lock := s.tasks[t].lock;
    var l := s.locks[lock];
    assert LockInv(l, s.tasks, lock);
    if l.locked {
      assert HoldersOf(s.tasks, lock) != {};
    } else {
      assert t in QueuedIn(l);
      var u := l.waiters[0].task;
      assert u in QueuedIn(l);
      PlaceOfQueued(l, u);
      assert CanResume(s, u);
    }
  }

  /** A waiting acquisition really is in its lock's queue, so it can be cancelled or woken. */
  lemma WaitingIsQueued(s: State, t: nat)
    requires Inv(s) && t in s.tasks && !s.tasks[t].inside
    ensures Waiting(s, t)
  {
    assert TaskInv(s, t);
    var l := s.locks[s.tasks[t].lock];
    assert LockInv(l, s.tasks, s.tasks[t].lock);
    assert t in QueuedIn(l);
    PlaceOfQueued(l, t);
  }

  /** A woken acquisition that takes the lock came before everyone of its chat still waiting. */
  lemma WokenInTurn(s: State, cap: nat, t: nat, u: nat)
    requires Reachable(s, cap) && CanResume(s, t) && !Doomed(s, t)
    requires u in s.tasks && !s.tasks[u].inside && s.tasks[u].key == s.tasks[t].key
    ensures t <= u
  {
    ReachableInv(s, cap);
    assert TaskInv(s, t) && TaskInv(s, u);
    WaitingIsQueued(s, u);
    var lock := s.tasks[t].lock;
    assert LockInv(s.locks[lock], s.tasks, lock);
    TakenInTurn(s.locks[lock], Place(s, t));
  }

  /** An acquisition that takes the lock at once overtakes only cancelled ones. */
  lemma AtOnceInTurn(s: State, cap: nat, key: Chat, u: nat)
    requires Reachable(s, cap) && Immediate(Found(s, key))
    requires u in s.tasks && !s.tasks[u].inside && s.tasks[u].key == key
    ensures Waiting(s, u) && Doomed(s, u)
  {
    ReachableInv(s, cap);
    assert TaskInv(s, u);
    WaitingIsQueued(s, u);
    assert LockInv(s.locks[s.tasks[u].lock], s.tasks, s.tasks[u].lock);
  }

  lemma LockedHasPending(s: State, key: Chat)
    requires Inv(s) && key in s.table.vals && s.locks[s.table.vals[key]].locked
    ensures Count(s.pending, key) > 0
  {
    var lock := s.table.vals[key];
    assert LockInv(s.locks[lock], s.tasks, lock);
    assert HoldersOf(s.tasks, lock) != {};
    var t :| t in HoldersOf(s.tasks, lock);
    assert TaskInv(s, t);
    assert t in TasksOf(s.tasks, key);
    assert Counted(s.pending, s.tasks, key);
  }

  /** While it is held, a lock's chat has an acquisition under way: the count alone decides eviction. */
  lemma BusyHasPending(s: State, key: Chat, k: Chat)
    requires Inv(s) && k in Entered(s, key).table.vals
    requires Busy(LocksWith(s, key), Entered(s, key).pending, k, Entered(s, key).table.vals[k])
    ensures k in Entered(s, key).pending
  {
    if k != key && s.locks[s.table.vals[k]].locked {
      LockedHasPending(s, k);
    }
  }

  /** After every entry the table holds no more than its cap, or nothing but chats under way. */
  lemma TableBound(s: State, key: Chat, cap: nat)
    requires Reachable(s, cap)
    ensures s.table.Valid()
    ensures var n := Enter(s, key, cap);
            |n.table.keys| <= if cap >= |n.pending.Keys| then cap else |n.pending.Keys|
  {
    ReachableInv(s, cap);
    var n := Enter(s, key, cap);
    EntryEvicts(s, key, cap);
    EnterKeepsInv(s, key, cap);
    if |n.table.keys| > cap {
      forall k | k in n.table.vals
        ensures k in n.pending
      {
        BusyHasPending(s, key, k);
      }
      SizeIsKeys(n.table);
      SubsetSize(n.table.vals.Keys, n.pending.Keys);
    }
  }

  // ----- the module's dictionaries, changed in place -----

  /** The lock table with its pending counts, and the lock objects and acquisitions it serves. */
  class LockTable {
    var table: Dict<Chat, nat>
    var pending: map<Chat, nat>
    var locks: map<nat, Lock>
    var tasks: map<nat, Acquisition>
    var clock: nat
    const cap: nat

    constructor (cap: nat)
      ensures View() == Initial() && this.cap == cap
    {
      table, pending, locks, tasks, clock := Empty(), map[], map[], map[], 0;
      this.cap := cap;
    }

    function View(): State
      reads this
    {
      State(table, pending, locks, tasks, clock)
    }

    /** The chat's entry, made when missing, moves to the end and gains a pending acquisition. */
    method Touch(key: Chat) returns (lock: nat)
      requires table.Valid()
      modifies this`table, this`locks, this`pending
      ensures table.Valid() && table == Entered(old(View()), key).table
      ensures pending == Entered(old(View()), key).pending
      ensures locks == LocksWith(old(View()), key) && lock == LockFor(old(View()), key)
    {
      if key in table.vals {
        lock := table.vals[key];
      } else {
        lock := clock;
        locks := locks[lock := FREE];
      }
      table := table.Remove(key);
      table := table.Put(key, lock);
      pending := pending[key := Count(pending, key) + 1];
    }

    /** Up to the first await of chat_lock. */
    method EnterChat(key: Chat) returns (task: nat)
      requires table.Valid()
      modifies this
      ensures View() == Enter(old(View()), key, cap)
      ensures task == old(clock)
    {
      ghost var was := View();
      task := clock;
      var lock := Touch(key);
      EvictIdle();
      assert table == Enter(was, key, cap).table;
      var found := if lock in locks then locks[lock] else FREE;
      assert found == Found(was, key);
      locks := locks[lock := Acquire(found, task)];
      tasks := tasks[task := Acquisition(key, lock, Immediate(found))];
      clock := clock + 1;
    }

    method EvictIdle()
      requires table.Valid()
      modifies this`table
      ensures table.Valid()
      ensures table == Evicted(old(table), old(table).keys, 0, cap, locks, pending)
    {
      var ks := table.keys;
      ghost var last := Evicted(table, ks, 0, cap, locks, pending);
      for i := 0 to |ks|
        invariant table.Valid() && forall j | i <= j < |ks| :: ks[j] in table.vals
        invariant last == Evicted(table, ks, i, cap, locks, pending)
      {
        if |table.keys| <= cap {
          break;
        }
        if !Busy(locks, pending, ks[i], table.vals[ks[i]]) {
          table := table.Remove(ks[i]);
        }
      }
    }

    method CancelWaiter(task: nat)
      requires Waiting(View(), task)
      modifies this`locks
      ensures View() == RequestCancel(old(View()), task)
    {
      var lock := tasks[task].lock;
      locks := locks[lock := Cancel(locks[lock], PlaceIn(locks[lock].waiters, task))];
    }

    /** A waiter runs again: it takes the lock, or leaves with its cancellation. */
    method ResumeWaiter(task: nat) returns (inside: bool)
      requires CanResume(View(), task)
      modifies this
      ensures View() == ResumeTask(old(View()), task)
      ensures inside == !Doomed(old(View()), task)
    {
      var a := tasks[task];
      var i := PlaceIn(locks[a.lock].waiters, task);
      inside := !locks[a.lock].waiters[i].doomed;
      locks := locks[a.lock := Resume(locks[a.lock], i)];
      if inside {
        tasks := tasks[task := a.(inside := true)];
      } else {
        Settle(task, a.key);
      }
    }

    method LeaveChat(task: nat)
      requires CanLeave(View(), task)
      modifies this
      ensures View() == Leave(old(View()), task)
    {
      var a := tasks[task];
      locks := locks[a.lock := Release(locks[a.lock])];
      Settle(task, a.key);
    }

    /** The finally clause. */
    method Settle(task: nat, key: Chat)
      modifies this`pending, this`tasks
      ensures pending == OneFewer(old(pending), key) && tasks == old(tasks) - {task}
    {
      var left: int := Count(pending, key);
      left := left - 1;
      if left > 0 {
        pending := pending[key := left];
      } else {
        pending := pending - {key};
      }
      tasks := tasks - {task};
    }
  }
}
