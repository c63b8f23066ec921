/** `asyncio.Lock`. */
module AsyncLock {
  // Who may go on, in which order, and what a cancelled waiter leaves behind. The code between two
  // suspensions is one step. A waiter owns a future: release wakes the first one, and the woken task
  // takes the lock only when it runs again, which may be later.


  datatype Future = Pending | Woken | Dropped

  /** A task in the queue; a doomed one was cancelled and will leave instead of taking the lock. */
  datatype Waiter = Waiter(task: nat, future: Future, doomed: bool)

  datatype Lock = Lock(locked: bool, waiters: seq<Waiter>)

  const FREE := Lock(false, [])

  predicate AllDropped(ws: seq<Waiter>) {
    forall i | 0 <= i < |ws| :: ws[i].future == Dropped
  }

  /** Only the first future is ever looked at; one that is already done is left alone. */
  function WakeFirst(ws: seq<Waiter>): seq<Waiter> {
    if ws != [] && ws[0].future == Pending then ws[0 := ws[0].(future := Woken)] else ws
  }

  predicate Immediate(l: Lock) {
    !l.locked && AllDropped(l.waiters)
  }

  function Acquire(l: Lock, task: nat): Lock {
    if Immediate(l) then l.(locked := true) else l.(waiters := l.waiters + [Waiter(task, Pending, false)])
  }

  function Release(l: Lock): Lock {
    Lock(false, WakeFirst(l.waiters))
  }

  /** Cancelling waiter i: an undecided future is dropped, a woken one dooms its task all the same. */
  function Cancel(l: Lock, i: nat): Lock
    requires i < |l.waiters|
  {
    var w := l.waiters[i];
    l.(waiters := l.waiters[i := Waiter(w.task, if w.future == Pending then Dropped else w.future, true)])
  }

  predicate Runnable(l: Lock, i: nat)
    requires i < |l.waiters|
  {
    l.waiters[i].future != Pending
  }

  function RemovedAt(ws: seq<Waiter>, i: nat): (r: seq<Waiter>)
    requires i < |ws|
    ensures |r| == |ws| - 1
    ensures forall j | 0 <= j < |r| :: r[j] == ws[if j < i then j else j + 1]
  {
    ws[..i] + ws[i + 1..]
  }

  /** Waiter i runs again: it takes the lock, or leaves and hands a wake-up it may have had to the next. */
  function Resume(l: Lock, i: nat): Lock
    requires i < |l.waiters|
  {
    var rest := RemovedAt(l.waiters, i);
    if !l.waiters[i].doomed then Lock(true, rest)
    else if l.locked then Lock(true, rest)
    else Lock(false, WakeFirst(rest))
  }

  /** What every step keeps: waiters stand in order of arrival, at most the first is woken and only
      while the lock is free, and a free lock's first waiter is never left asleep. */
  predicate Sound(l: Lock) {
    var ws := l.waiters;
    && (forall i, j | 0 <= i < j < |ws| :: ws[i].task < ws[j].task)
    && (forall i | 0 <= i < |ws| :: ws[i].future == Woken ==> i == 0 && !l.locked)
    && (forall i | 0 <= i < |ws| :: (ws[i].future == Dropped ==> ws[i].doomed) && (ws[i].doomed ==> ws[i].future != Pending))
    && (!l.locked && ws != [] ==> Runnable(l, 0))
  }

  lemma AcquireSound(l: Lock, task: nat)
    requires Sound(l) && forall i | 0 <= i < |l.waiters| :: l.waiters[i].task < task
    ensures Sound(Acquire(l, task))
  {
  }

  lemma ReleaseSound(l: Lock)
    requires Sound(l) && l.locked
    ensures Sound(Release(l))
  {
  }

  lemma CancelSound(l: Lock, i: nat)
    requires Sound(l) && i < |l.waiters|
    ensures Sound(Cancel(l, i))
  {
  }

  /** What is left of a sound queue is sound when nobody in it is woken, or just its first waiter and the
      lock is free. */
  lemma RestSound(l: Lock, i: nat, locked: bool)
    requires Sound(l) && i < |l.waiters| && Runnable(l, i)
    requires forall j | 0 <= j < |l.waiters| && j != i :: l.waiters[j].future != Woken || (j == 0 && !locked)
    requires !locked ==> RemovedAt(l.waiters, i) == [] || Runnable(Lock(locked, RemovedAt(l.waiters, i)), 0)
    ensures Sound(Lock(locked, RemovedAt(l.waiters, i)))
  {
    var rest := RemovedAt(l.waiters, i);
    assert forall j | 0 <= j < |rest| :: rest[j] == l.waiters[if j < i then j else j + 1];
  }

  lemma WakeSound(ws: seq<Waiter>)
    requires Sound(Lock(true, ws))
    ensures Sound(Lock(false, WakeFirst(ws)))
  {
  }

  /** Taking the lock: nobody else is woken. */
  lemma TakeSound(l: Lock, i: nat)
    requires Sound(l) && i < |l.waiters| && Runnable(l, i) && !l.waiters[i].doomed
    ensures Sound(Resume(l, i))
  {
    assert i == 0;
    RestSound(l, i, true);
  }

  lemma GiveUpSound(l: Lock, i: nat)
    requires Sound(l) && i < |l.waiters| && Runnable(l, i) && l.waiters[i].doomed
    ensures Sound(Resume(l, i))
  {
    var rest := RemovedAt(l.waiters, i);
    if l.locked || i == 0 {
      RestSound(l, i, true);
      WakeSound(rest);
    } else {
      assert rest[0] == l.waiters[0];
      RestSound(l, i, false);
    }
  }

  lemma ResumeSound(l: Lock, i: nat)
    requires Sound(l) && i < |l.waiters| && Runnable(l, i)
    ensures Sound(Resume(l, i))
  {
    hide Sound, Resume;
    if l.waiters[i].doomed {
      GiveUpSound(l, i);
    } else {
      TakeSound(l, i);
    }
  }

  /** A task takes the lock only when nobody has it and nobody who came earlier still wants it. */
  lemma TakenInTurn(l: Lock, i: nat)
    requires Sound(l) && i < |l.waiters| && Runnable(l, i) && !l.waiters[i].doomed
    ensures !l.locked && Resume(l, i).locked
    ensures forall j | 0 <= j < |l.waiters| && j != i :: l.waiters[i].task < l.waiters[j].task
  {
  }

  /** The tasks in the queue that were cancelled. */
  function DoomedIn(l: Lock): set<nat> {
    set i | 0 <= i < |l.waiters| && l.waiters[i].doomed :: l.waiters[i].task
  }

  lemma DoomedStay(l: Lock, task: nat, i: nat, t: nat)
    requires t in DoomedIn(l)
    ensures t in DoomedIn(Acquire(l, task))
    ensures i < |l.waiters| ==> t in DoomedIn(Cancel(l, i))
    ensures i < |l.waiters| && l.waiters[i].task != t ==> t in DoomedIn(Resume(l, i))
  {
    var j :| 0 <= j < |l.waiters| && l.waiters[j].doomed && l.waiters[j].task == t;
    assert Acquire(l, task).waiters[j] == l.waiters[j];
    if i < |l.waiters| {
      assert Cancel(l, i).waiters[j].doomed && Cancel(l, i).waiters[j].task == t;
      if j != i {
        var k := if j < i then j else j - 1;
        assert RemovedAt(l.waiters, i)[k] == l.waiters[j];
        assert Resume(l, i).waiters[k].doomed && Resume(l, i).waiters[k].task == t;
      }
    }
  }
}
