/** Merging dropped turns into each chat's recap (src/wahabot/core/learned.py, RecapMerger).

    Any number of merge_pending calls run at once. Each takes whole batches, one chat at a time, and
    merges a batch under its chat's merge lock: read the recap, ask the model, save the answer. The
    code between two awaits is one step; taking a batch and asking for the lock is one step. A job is
    numbered by the order in which its batch was taken. */
module RecapMerger {
  import opened Chats
  import opened OrderedDict
  import opened AsyncLock
  import opened Sequences
  import opened Text
  import L = ChatLocks

  const BATCH_CHARS := 16000

  /** The line and token caps of a stored recap, and the chat ids a file may be written for. */
  datatype Config = Config(cap: string -> string, durable: Chat -> bool)

  /** How the model's call ended. */
  datatype Answer = Failed | Answered(text: string)

  /** `tasks` are the jobs under way, waiting for their merge lock or past it; `texts` is what each
      will merge and `read` the recap each job past its lock has read. */
  datatype State = State(
    pending: Dict<Chat, string>,
    lockOf: map<Chat, nat>,
    locks: map<nat, Lock>,
    tasks: map<nat, L.Acquisition>,
    texts: map<nat, string>,
    read: map<nat, string>,
    recaps: map<Chat, string>,
    clock: nat)

  // ----- batches -----

  function LastChars(s: string, n: nat): string {
    if |s| <= n then s else s[|s| - n..]
  }

  function Batched(previous: string, dropped: string): string {
    LastChars(Strip(previous + "\n" + dropped), BATCH_CHARS)
  }

  /** What a batch of dropped texts amounts to. */
  function BatchText(texts: seq<string>): string {
    if texts == [] then "" else Batched(BatchText(texts[..|texts| - 1]), texts[|texts| - 1])
  }

  /** A batch never outgrows its limit, and of what is in it the newest text is the last to be cut. */
  lemma NewestTextStays(previous: string, dropped: string)
    requires Strip(dropped) != ""
    ensures var batch, text := Batched(previous, dropped), Strip(dropped);
            && batch != "" && |batch| <= BATCH_CHARS
            && (|text| <= BATCH_CHARS ==> |text| <= |batch| && batch[|batch| - |text|..] == text)
            && (|text| > BATCH_CHARS ==> batch == LastChars(text, BATCH_CHARS))
  {
    hide Strip;
    var whole, text := Strip(previous + "\n" + dropped), Strip(dropped);
    StripKeepsEnd(previous + "\n", dropped);
    assert whole[|whole| - |text|..] == text;
    if |whole| > BATCH_CHARS {
      var cut := |whole| - BATCH_CHARS;
      if |text| <= BATCH_CHARS {
        assert whole[cut..][BATCH_CHARS - |text|..] == whole[|whole| - |text|..];
      } else {
        assert whole[|whole| - |text|..][|text| - BATCH_CHARS..] == whole[cut..];
      }
    }
  }

  // ----- steps -----

  function Loaded(recaps: map<Chat, string>, key: Chat, c: Config): string {
    if c.durable(key) && key in recaps then c.cap(recaps[key]) else ""
  }

  function Saved(recaps: map<Chat, string>, key: Chat, recap: string, c: Config): map<Chat, string> {
    if c.durable(key) then recaps[key := c.cap(Strip(recap))] else recaps
  }

  function Schedule(s: State, key: Chat, dropped: string): State
    requires s.pending.Valid()
  {
    if Strip(dropped) == "" then s
    else s.(pending := s.pending.Put(key, Batched(if key in s.pending.vals then s.pending.vals[key] else "", dropped)))
  }

  /** `popitem`: the chat that entered the dict last. */
  function NextChat(s: State): Chat
    requires s.pending.keys != []
  {
    s.pending.keys[|s.pending.keys| - 1]
  }

  function LockFor(s: State, key: Chat): nat {
    if key in s.lockOf then s.lockOf[key] else s.clock
  }

  function Found(s: State, key: Chat): Lock {
    if LockFor(s, key) in s.locks then s.locks[LockFor(s, key)] else FREE
  }

  /** A worker takes the last chat's batch and asks for its merge lock; when it gets it at once it
      reads the recap as well. */
  function Take(s: State, c: Config): State
    requires s.pending.Valid() && s.pending.keys != []
  {
    var key, job := NextChat(s), s.clock;
    var lock, found := LockFor(s, key), Found(s, key);
    State(
      s.pending.Remove(key),
      s.lockOf[key := lock],
      s.locks[lock := Acquire(found, job)],
      s.tasks[job := L.Acquisition(key, lock, Immediate(found))],
      s.texts[job := s.pending.vals[key]],
      if Immediate(found) then s.read[job := Loaded(s.recaps, key, c)] else s.read,
      s.recaps,
      s.clock + 1)
  }

  predicate Waiting(s: State, job: nat) {
    job in s.tasks && !s.tasks[job].inside && s.tasks[job].lock in s.locks
    && L.PlaceIn(s.locks[s.tasks[job].lock].waiters, job) < |s.locks[s.tasks[job].lock].waiters|
  }

  function Place(s: State, job: nat): nat
    requires Waiting(s, job)
  {
    L.PlaceIn(s.locks[s.tasks[job].lock].waiters, job)
  }

  predicate CanResume(s: State, job: nat) {
    Waiting(s, job) && Runnable(s.locks[s.tasks[job].lock], Place(s, job))
  }

  predicate Doomed(s: State, job: nat)
    requires Waiting(s, job)
  {
    s.locks[s.tasks[job].lock].waiters[Place(s, job)].doomed
  }

  predicate Merging(s: State, job: nat) {
    job in s.tasks && s.tasks[job].inside && s.tasks[job].lock in s.locks
  }

  function CancelJob(s: State, job: nat): State
    requires Waiting(s, job)
  {
    var lock := s.tasks[job].lock;
    s.(locks := s.locks[lock := Cancel(s.locks[lock], Place(s, job))])
  }

  /** A waiting job runs again: cancelled, it is gone with its batch; otherwise it reads the recap. */
  function ResumeJob(s: State, job: nat, c: Config): State
    requires CanResume(s, job)
  {
    var a := s.tasks[job];
    var locks := s.locks[a.lock := Resume(s.locks[a.lock], Place(s, job))];
    if Doomed(s, job) then s.(locks := locks, tasks := s.tasks - {job})
    else s.(locks := locks, tasks := s.tasks[job := a.(inside := true)], read := s.read[job := Loaded(s.recaps, a.key, c)])
  }

  /** The model's call ends: a non-empty answer is saved, anything else drops the batch. */
  function Finish(s: State, job: nat, answer: Answer, c: Config): State
    requires Merging(s, job)
  {
    var a := s.tasks[job];
    var keep := answer.Answered? && Strip(answer.text) != "";
    s.(locks := s.locks[a.lock := Release(s.locks[a.lock])], tasks := s.tasks - {job},
       recaps := if keep then Saved(s.recaps, a.key, answer.text, c) else s.recaps)
  }

  /** forget_learned deletes a recap file; it does not take the merge lock. */
  function Forget(s: State, key: Chat): State {
    s.(recaps := s.recaps - {key})
  }

  // ----- what was scheduled and what became of it -----

  datatype Batch = Batch(key: Chat, texts: seq<string>)

  datatype Outcome = Merged(read: string, recap: string) | Lost

  /** `scheduled` and `open` list each chat's dropped texts, all and not yet taken; `taken` lists the
      batches by job; `stale` are the jobs whose chat was forgotten after they read its recap. */
  datatype World = World(
    state: State,
    scheduled: map<Chat, seq<string>>,
    open: map<Chat, seq<string>>,
    taken: seq<Batch>,
    resolved: map<nat, Outcome>,
    stale: set<nat>)

  datatype Step =
    | Scheduling(key: Chat, dropped: string)
    | Taking
    | Cancelling(job: nat)
    | Resuming(job: nat)
    | Finishing(job: nat, answer: Answer)
    | Forgetting(key: Chat)

  function TextsOf(texts: map<Chat, seq<string>>, key: Chat): seq<string> {
    if key in texts then texts[key] else []
  }

  ghost predicate Enabled(w: World, step: Step) {
    match step
    case Scheduling(key, dropped) => w.state.pending.Valid()
    case Taking => w.state.pending.Valid() && w.state.pending.keys != []
    case Cancelling(job) => Waiting(w.state, job)
    case Resuming(job) => CanResume(w.state, job)
    case Finishing(job, answer) => Merging(w.state, job)
    case Forgetting(key) => true
  }

  function OutcomeOf(s: State, job: nat, answer: Answer): Outcome {
    if answer.Answered? && Strip(answer.text) != "" && job in s.read then Merged(s.read[job], answer.text) else Lost
  }

  function Apply(w: World, step: Step, c: Config): World
    requires Enabled(w, step)
  {
    var s := w.state;
    match step
    case Scheduling(key, dropped) =>
      if Strip(dropped) == "" then w
      else w.(state := Schedule(s, key, dropped),
              scheduled := w.scheduled[key := TextsOf(w.scheduled, key) + [dropped]],
              open := w.open[key := TextsOf(w.open, key) + [dropped]])
    case Taking =>
      w.(state := Take(s, c), taken := w.taken + [Batch(NextChat(s), TextsOf(w.open, NextChat(s)))], open := w.open - {NextChat(s)})
    case Cancelling(job) => w.(state := CancelJob(s, job))
    case Resuming(job) =>
      w.(state := ResumeJob(s, job, c), resolved := if Doomed(s, job) then w.resolved[job := Lost] else w.resolved)
    case Finishing(job, answer) =>
      w.(state := Finish(s, job, answer, c), resolved := w.resolved[job := OutcomeOf(s, job, answer)], stale := w.stale - {job})
    case Forgetting(key) =>
      w.(state := Forget(s, key), stale := w.stale + (set j | j in s.tasks && s.tasks[j].key == key && s.tasks[j].inside))
  }

  // ----- the invariant: locks -----

  /** A job uses its chat's merge lock. */
  ghost predicate JobInv(s: State, job: nat)
    requires job in s.tasks
  {
    var a := s.tasks[job];
    job < s.clock && a.key in s.lockOf && s.lockOf[a.key] == a.lock && a.lock in s.locks
    && job in s.texts && (a.inside ==> job in s.read)
  }

  ghost predicate LocksInv(s: State) {
    && (forall key | key in s.lockOf :: s.lockOf[key] in s.locks)
    && (forall lock | lock in s.locks :: lock < s.clock && L.LockInv(s.locks[lock], s.tasks, lock))
    && (forall job | job in s.tasks :: JobInv(s, job))
    && (forall j, k | j in s.lockOf && k in s.lockOf && s.lockOf[j] == s.lockOf[k] :: j == k)
  }

  lemma FinishKeepsLocks(s: State, job: nat, answer: Answer, c: Config)
    requires LocksInv(s) && Merging(s, job)
    ensures LocksInv(Finish(s, job, answer, c))
  {
    var n := Finish(s, job, answer, c);
    forall lock | lock in n.locks
      ensures lock < n.clock && L.LockInv(n.locks[lock], n.tasks, lock)
    {
      if lock == s.tasks[job].lock {
        L.LockReleased(s.locks[lock], s.tasks, job, lock);
      } else {
        L.OtherLockWithout(s.locks[lock], s.tasks, job, lock);
      }
    }
    forall j | j in n.tasks
      ensures JobInv(n, j)
    {
      assert JobInv(s, j);
    }
  }

  lemma CancelKeepsLocks(s: State, job: nat)
    requires LocksInv(s) && Waiting(s, job)
    ensures LocksInv(CancelJob(s, job))
  {
    var n := CancelJob(s, job);
    forall lock | lock in n.locks
      ensures lock < n.clock && L.LockInv(n.locks[lock], n.tasks, lock)
    {
      assert L.LockInv(s.locks[lock], s.tasks, lock);
      if lock == s.tasks[job].lock {
        CancelSound(s.locks[lock], Place(s, job));
        L.QueuedAfterCancel(s.locks[lock], Place(s, job));
      }
    }
    forall j | j in n.tasks
      ensures JobInv(n, j)
    {
      assert JobInv(s, j);
    }
  }

  lemma DoomedKeepsLocks(s: State, job: nat, c: Config)
    requires LocksInv(s) && CanResume(s, job) && Doomed(s, job)
    ensures LocksInv(ResumeJob(s, job, c))
  {
    var n := ResumeJob(s, job, c);
    forall lock | lock in n.locks
      ensures lock < n.clock && L.LockInv(n.locks[lock], n.tasks, lock)
    {
      if lock == s.tasks[job].lock {
        L.LockGivenUp(s.locks[lock], s.tasks, Place(s, job), lock);
      } else {
        L.OtherLockWithout(s.locks[lock], s.tasks, job, lock);
      }
    }
    forall j | j in n.tasks
      ensures JobInv(n, j)
    {
      assert JobInv(s, j);
    }
  }

  lemma ResumeKeepsLocks(s: State, job: nat, c: Config)
    requires LocksInv(s) && CanResume(s, job) && !Doomed(s, job)
    ensures LocksInv(ResumeJob(s, job, c))
  {
    var n, a := ResumeJob(s, job, c), s.tasks[job];
    forall lock | lock in n.locks
      ensures lock < n.clock && L.LockInv(n.locks[lock], n.tasks, lock)
    {
      if lock == a.lock {
        L.LockTaken(s.locks[lock], s.tasks, Place(s, job), lock);
      } else {
        L.OtherLockChanged(s.locks[lock], s.tasks, job, a.(inside := true), lock);
      }
    }
    forall j | j in n.tasks
      ensures JobInv(n, j)
    {
      assert JobInv(s, j);
    }
  }

  lemma FoundLock(s: State, key: Chat)
    requires LocksInv(s)
    ensures L.LockInv(Found(s, key), s.tasks, LockFor(s, key))
    ensures forall j | j in s.tasks :: j < s.clock
  {
    assert forall j | j in s.tasks :: JobInv(s, j);
    if key !in s.lockOf {
      L.NewLock(s.tasks, s.clock);
    }
  }

  lemma TakeKeepsLock(s: State, c: Config, lock: nat)
    requires LocksInv(s) && s.pending.Valid() && s.pending.keys != [] && lock in Take(s, c).locks
    ensures lock <= s.clock && L.LockInv(Take(s, c).locks[lock], Take(s, c).tasks, lock)
  {
    var key := NextChat(s);
    FoundLock(s, key);
    var a := L.Acquisition(key, LockFor(s, key), Immediate(Found(s, key)));
    if lock != LockFor(s, key) {
      L.OtherLockChanged(s.locks[lock], s.tasks, s.clock, a, lock);
    } else if a.inside {
      L.LockTakenAtOnce(Found(s, key), s.tasks, s.clock, key, lock);
    } else {
      L.LockQueuedFor(Found(s, key), s.tasks, s.clock, key, lock);
    }
  }

  lemma TakeKeepsLocks(s: State, c: Config)
    requires LocksInv(s) && s.pending.Valid() && s.pending.keys != []
    ensures LocksInv(Take(s, c))
  {
    hide Acquire, Immediate, Loaded, Found, L.LockInv, BatchText;
    var n := Take(s, c);
    forall lock | lock in n.locks
      ensures lock < n.clock && L.LockInv(n.locks[lock], n.tasks, lock)
    {
      TakeKeepsLock(s, c, lock);
    }
    forall j | j in n.tasks
      ensures JobInv(n, j)
    {
      if j != s.clock {
        assert JobInv(s, j);
      }
    }
  }

  lemma StepKeepsLocks(w: World, step: Step, c: Config)
    requires Enabled(w, step) && LocksInv(w.state)
    ensures LocksInv(Apply(w, step, c).state)
  {
    var s, n := w.state, Apply(w, step, c).state;
    match step
    case Taking => TakeKeepsLocks(s, c);
    case Cancelling(job) => CancelKeepsLocks(s, job);
    case Resuming(job) => if Doomed(s, job) { DoomedKeepsLocks(s, job, c); } else { ResumeKeepsLocks(s, job, c); }
    case Finishing(job, answer) => FinishKeepsLocks(s, job, answer, c);
    case Scheduling(key, dropped) => SameLocks(s, n);
    case Forgetting(key) => SameLocks(s, n);
  }

  lemma SameLocks(s: State, n: State)
    requires LocksInv(s) && n.lockOf == s.lockOf && n.locks == s.locks && n.tasks == s.tasks && n.clock == s.clock
    requires n.texts == s.texts && n.read == s.read
    ensures LocksInv(n)
  {
    forall j | j in n.tasks
      ensures JobInv(n, j)
    {
      assert JobInv(s, j);
    }
  }

  /** Merges of one chat never overlap. */
  lemma NoOverlap(s: State, i: nat, j: nat)
    requires LocksInv(s) && i in s.tasks && j in s.tasks && s.tasks[i].inside && s.tasks[j].inside && s.tasks[i].key == s.tasks[j].key
    ensures i == j
  {
    assert JobInv(s, i) && JobInv(s, j);
    var lock := s.tasks[i].lock;
    assert L.LockInv(s.locks[lock], s.tasks, lock);
    L.SingleHolder(s.tasks, lock, i, j);
  }

  // ----- the invariant: batches of a chat are merged in the order in which they were taken -----

  /** Whoever was taken before the job past the lock and still waits was cancelled. */
  ghost predicate InTurn(l: Lock, tasks: map<nat, L.Acquisition>, lock: nat) {
    forall i, j | i in L.WaitersOf(tasks, lock) && j in L.HoldersOf(tasks, lock) && i < j :: i in DoomedIn(l)
  }

  ghost predicate OrderInv(s: State) {
    forall lock | lock in s.locks :: InTurn(s.locks[lock], s.tasks, lock)
  }

  /** A step that admits nobody and lets no doomed waiter stay undoomed. */
  lemma TurnKept(l: Lock, tasks: map<nat, L.Acquisition>, m: Lock, next: map<nat, L.Acquisition>, lock: nat)
    requires InTurn(l, tasks, lock)
    requires L.HoldersOf(next, lock) <= L.HoldersOf(tasks, lock)
    requires forall i | i in L.WaitersOf(next, lock) && i !in L.WaitersOf(tasks, lock) :: forall j | j in L.HoldersOf(tasks, lock) :: j < i
    requires forall i | i in L.WaitersOf(next, lock) && i in DoomedIn(l) :: i in DoomedIn(m)
    ensures InTurn(m, next, lock)
  {
  }

  lemma CancelKeepsOrder(s: State, job: nat)
    requires LocksInv(s) && OrderInv(s) && Waiting(s, job)
    ensures OrderInv(CancelJob(s, job))
  {
    var n := CancelJob(s, job);
    forall lock | lock in n.locks
      ensures InTurn(n.locks[lock], n.tasks, lock)
    {
      if lock == s.tasks[job].lock {
        forall t | t in DoomedIn(s.locks[lock])
          ensures t in DoomedIn(n.locks[lock])
        {
          DoomedStay(s.locks[lock], 0, Place(s, job), t);
        }
      }
      TurnKept(s.locks[lock], s.tasks, n.locks[lock], n.tasks, lock);
    }
  }

  lemma FinishKeepsOrder(s: State, job: nat, answer: Answer, c: Config)
    requires LocksInv(s) && OrderInv(s) && Merging(s, job)
    ensures OrderInv(Finish(s, job, answer, c))
  {
    var n := Finish(s, job, answer, c);
    forall lock | lock in n.locks
      ensures InTurn(n.locks[lock], n.tasks, lock)
    {
      assert L.LockInv(s.locks[lock], s.tasks, lock);
      if lock == s.tasks[job].lock {
        NobodyElse(s.tasks, lock, job);
      } else {
        TurnKept(s.locks[lock], s.tasks, n.locks[lock], n.tasks, lock);
      }
    }
  }

  lemma NobodyElse(tasks: map<nat, L.Acquisition>, lock: nat, job: nat)
    requires |L.HoldersOf(tasks, lock)| <= 1 && job in L.HoldersOf(tasks, lock)
    ensures L.HoldersOf(tasks - {job}, lock) == {}
  {
    forall t | t in L.HoldersOf(tasks, lock)
      ensures t == job
    {
      L.SingleHolder(tasks, lock, t, job);
    }
    assert L.HoldersOf(tasks - {job}, lock) <= L.HoldersOf(tasks, lock) - {job};
  }

  lemma GiveUpKeepsOrder(s: State, job: nat, c: Config)
    requires LocksInv(s) && OrderInv(s) && CanResume(s, job) && Doomed(s, job)
    ensures OrderInv(ResumeJob(s, job, c))
  {
    var n := ResumeJob(s, job, c);
    forall lock | lock in n.locks
      ensures InTurn(n.locks[lock], n.tasks, lock)
    {
      if lock == s.tasks[job].lock {
        forall t | t in DoomedIn(s.locks[lock]) && t != job
          ensures t in DoomedIn(n.locks[lock])
        {
          DoomedStay(s.locks[lock], 0, Place(s, job), t);
        }
      }
      TurnKept(s.locks[lock], s.tasks, n.locks[lock], n.tasks, lock);
    }
  }

  /** The job that is admitted is the first of its queue. */
  lemma AdmittedFirst(l: Lock, tasks: map<nat, L.Acquisition>, i: nat, lock: nat)
    requires L.LockInv(l, tasks, lock) && i < |l.waiters| && Runnable(l, i) && !l.waiters[i].doomed
    requires l.waiters[i].task in tasks
    ensures var job := l.waiters[i].task;
            InTurn(Resume(l, i), tasks[job := tasks[job].(inside := true)], lock)
  {
    var job := l.waiters[i].task;
    var next := tasks[job := tasks[job].(inside := true)];
    TakenInTurn(l, i);
    assert L.HoldersOf(tasks, lock) == {};
    forall k | k in L.WaitersOf(next, lock)
      ensures job < k
    {
      assert k in L.QueuedIn(l);
    }
    assert L.HoldersOf(next, lock) <= L.HoldersOf(tasks, lock) + {job};
  }

  lemma AdmitKeepsOrder(s: State, job: nat, c: Config)
    requires LocksInv(s) && OrderInv(s) && CanResume(s, job) && !Doomed(s, job)
    ensures OrderInv(ResumeJob(s, job, c))
  {
    var n := ResumeJob(s, job, c);
    forall lock | lock in n.locks
      ensures InTurn(n.locks[lock], n.tasks, lock)
    {
      if lock == s.tasks[job].lock {
        AdmittedFirst(s.locks[lock], s.tasks, Place(s, job), lock);
      } else {
        TurnKept(s.locks[lock], s.tasks, n.locks[lock], n.tasks, lock);
      }
    }
  }

  /** A job that asks for the lock is the newest; it gets it at once only past cancelled ones. */
  lemma AskedInTurn(l: Lock, tasks: map<nat, L.Acquisition>, job: nat, key: Chat, lock: nat)
    requires L.LockInv(l, tasks, lock) && (forall t | t in tasks :: t < job) && InTurn(l, tasks, lock)
    ensures InTurn(Acquire(l, job), tasks[job := L.Acquisition(key, lock, Immediate(l))], lock)
  {
    var next := tasks[job := L.Acquisition(key, lock, Immediate(l))];
    if Immediate(l) {
      forall k | k in L.WaitersOf(next, lock)
        ensures k in DoomedIn(Acquire(l, job))
      {
        assert k in L.QueuedIn(l);
      }
    } else {
      forall t | t in DoomedIn(l)
        ensures t in DoomedIn(Acquire(l, job))
      {
        DoomedStay(l, job, 0, t);
      }
      TurnKept(l, tasks, Acquire(l, job), next, lock);
    }
  }

  lemma FoundInTurn(s: State, key: Chat)
    requires LocksInv(s) && OrderInv(s)
    ensures InTurn(Found(s, key), s.tasks, LockFor(s, key))
  {
    hide LocksInv, InTurn, L.LockInv;
    FoundLock(s, key);
    if LockFor(s, key) !in s.locks {
      FreeInTurn(s.tasks, LockFor(s, key));
    }
  }

  lemma FreeInTurn(tasks: map<nat, L.Acquisition>, lock: nat)
    requires L.LockInv(FREE, tasks, lock)
    ensures InTurn(FREE, tasks, lock)
  {
    assert L.WaitersOf(tasks, lock) == L.QueuedIn(FREE) == {};
  }

  lemma OtherTurn(s: State, c: Config, lock: nat)
    requires s.pending.Valid() && s.pending.keys != []
    requires lock in s.locks && lock != LockFor(s, NextChat(s)) && InTurn(s.locks[lock], s.tasks, lock)
    ensures lock in Take(s, c).locks && InTurn(Take(s, c).locks[lock], Take(s, c).tasks, lock)
  {
    hide Acquire, Immediate, Loaded, Found;
    var n := Take(s, c);
    assert s.clock in n.tasks && n.tasks[s.clock].lock != lock;
    assert L.WaitersOf(n.tasks, lock) <= L.WaitersOf(s.tasks, lock);
    TurnKept(s.locks[lock], s.tasks, n.locks[lock], n.tasks, lock);
  }

  lemma TakeKeepsOrder(s: State, c: Config)
    requires LocksInv(s) && OrderInv(s) && s.pending.Valid() && s.pending.keys != []
    ensures OrderInv(Take(s, c))
  {
    hide Acquire, Immediate, Loaded, InTurn, LocksInv, Found;
    var n, key := Take(s, c), NextChat(s);
    FoundLock(s, key);
    FoundInTurn(s, key);
    AskedInTurn(Found(s, key), s.tasks, s.clock, key, LockFor(s, key));
    forall lock | lock in n.locks
      ensures InTurn(n.locks[lock], n.tasks, lock)
    {
      if lock != LockFor(s, key) {
        OtherTurn(s, c, lock);
      }
    }
  }

  lemma StepKeepsOrder(w: World, step: Step, c: Config)
    requires Enabled(w, step) && LocksInv(w.state) && OrderInv(w.state)
    ensures OrderInv(Apply(w, step, c).state)
  {
    var s := w.state;
    match step
    case Taking => TakeKeepsOrder(s, c);
    case Cancelling(job) => CancelKeepsOrder(s, job);
    case Resuming(job) => if Doomed(s, job) { GiveUpKeepsOrder(s, job, c); } else { AdmitKeepsOrder(s, job, c); }
    case Finishing(job, answer) => FinishKeepsOrder(s, job, answer, c);
    case _ =>
  }

  // ----- the invariant: what each merge has read -----

  /** A job past its lock still has its chat's current recap, unless the chat was forgotten meanwhile. */
  ghost predicate ReadInv(s: State, stale: set<nat>, job: nat, c: Config)
    requires job in s.tasks
  {
    s.tasks[job].inside && job !in stale ==> job in s.read && s.read[job] == Loaded(s.recaps, s.tasks[job].key, c)
  }

  lemma FinishKeepsRead(s: State, stale: set<nat>, done: nat, answer: Answer, c: Config, job: nat)
    requires LocksInv(s) && Merging(s, done) && job in s.tasks && job != done && ReadInv(s, stale, job, c)
    ensures ReadInv(Finish(s, done, answer, c), stale - {done}, job, c)
  {
    hide LocksInv, Strip, Release;
    if s.tasks[job].inside && s.tasks[job].key == s.tasks[done].key {
      NoOverlap(s, job, done);
    }
  }

  lemma TakeKeepsRead(s: State, stale: set<nat>, c: Config, job: nat)
    requires s.pending.Valid() && s.pending.keys != [] && job in Take(s, c).tasks
    requires job != s.clock ==> ReadInv(s, stale, job, c)
    ensures ReadInv(Take(s, c), stale, job, c)
  {
  }

  lemma ResumeKeepsRead(s: State, stale: set<nat>, resumed: nat, c: Config, job: nat)
    requires CanResume(s, resumed) && job in ResumeJob(s, resumed, c).tasks && ReadInv(s, stale, job, c)
    ensures ReadInv(ResumeJob(s, resumed, c), stale, job, c)
  {
  }

  lemma OtherKeepsRead(s: State, n: State, stale: set<nat>, c: Config, job: nat)
    requires job in s.tasks && n.tasks == s.tasks && n.read == s.read && n.recaps == s.recaps && ReadInv(s, stale, job, c)
    ensures ReadInv(n, stale, job, c)
  {
  }

  lemma ForgetKeepsRead(s: State, stale: set<nat>, key: Chat, c: Config, job: nat)
    requires job in s.tasks && ReadInv(s, stale, job, c)
    ensures ReadInv(Forget(s, key), stale + (set j | j in s.tasks && s.tasks[j].key == key && s.tasks[j].inside), job, c)
  {
  }

  lemma StepKeepsRead(w: World, step: Step, c: Config, job: nat)
    requires Enabled(w, step) && LocksInv(w.state)
    requires forall j | j in w.state.tasks :: ReadInv(w.state, w.stale, j, c)
    requires job in Apply(w, step, c).state.tasks
    ensures ReadInv(Apply(w, step, c).state, Apply(w, step, c).stale, job, c)
  {
    hide ReadInv, LocksInv, Take, ResumeJob, CancelJob, Batched, OutcomeOf, TextsOf, Strip, CanResume;
    var s, n := w.state, Apply(w, step, c).state;
    match step
    case Taking => TakeHasRead(s, w.stale, c, job);
    case Resuming(j) => ResumeHasRead(s, w.stale, j, c, job);
    case Finishing(j, answer) => FinishKeepsRead(s, w.stale, j, answer, c, job);
    case Forgetting(key) => ForgetKeepsRead(s, w.stale, key, c, job);
    case Scheduling(key, dropped) => OtherKeepsRead(s, n, w.stale, c, job);
    case Cancelling(j) => CancelKeepsRead(s, w.stale, j, c, job);
  }

  lemma TakeHasRead(s: State, stale: set<nat>, c: Config, job: nat)
    requires s.pending.Valid() && s.pending.keys != [] && job in Take(s, c).tasks
    requires forall j | j in s.tasks :: ReadInv(s, stale, j, c)
    ensures ReadInv(Take(s, c), stale, job, c)
  {
    TakeKeepsRead(s, stale, c, job);
  }

  lemma ResumeHasRead(s: State, stale: set<nat>, resumed: nat, c: Config, job: nat)
    requires CanResume(s, resumed) && job in ResumeJob(s, resumed, c).tasks
    requires forall j | j in s.tasks :: ReadInv(s, stale, j, c)
    ensures ReadInv(ResumeJob(s, resumed, c), stale, job, c)
  {
    ResumeKeepsRead(s, stale, resumed, c, job);
  }

  lemma CancelKeepsRead(s: State, stale: set<nat>, cancelled: nat, c: Config, job: nat)
    requires Waiting(s, cancelled) && job in CancelJob(s, cancelled).tasks
    requires forall j | j in s.tasks :: ReadInv(s, stale, j, c)
    ensures ReadInv(CancelJob(s, cancelled), stale, job, c)
  {
    OtherKeepsRead(s, CancelJob(s, cancelled), stale, c, job);
  }

  // ----- the invariant: every text in exactly one batch, every batch resolved once -----

  /** The texts of a chat's batches, in the order in which they were taken. */
  function TakenOf(taken: seq<Batch>, key: Chat): seq<string> {
    if taken == [] then []
    else
      var last := taken[|taken| - 1];
      TakenOf(taken[..|taken| - 1], key) + if last.key == key then last.texts else []
  }

  ghost predicate ChatInv(w: World, key: Chat) {
    var open := TextsOf(w.open, key);
    && TextsOf(w.scheduled, key) == TakenOf(w.taken, key) + open
    && (key in w.state.pending.vals <==> open != [])
    && (key in w.state.pending.vals ==> w.state.pending.vals[key] == BatchText(open))
  }

  ghost predicate BatchInv(w: World, job: nat)
    requires job < |w.taken|
  {
    && (job in w.state.tasks <==> job !in w.resolved)
    && w.taken[job].texts != []
    && (job in w.state.tasks ==>
          && w.state.tasks[job].key == w.taken[job].key
          && job in w.state.texts && w.state.texts[job] == BatchText(w.taken[job].texts))
  }

  lemma TakenSnoc(taken: seq<Batch>, b: Batch, key: Chat)
    ensures TakenOf(taken + [b], key) == TakenOf(taken, key) + if b.key == key then b.texts else []
  {
    assert (taken + [b])[..|taken|] == taken;
  }

  lemma BatchGrows(open: seq<string>, dropped: string)
    ensures BatchText(open + [dropped]) == Batched(BatchText(open), dropped)
    ensures BatchText([]) == ""
  {
    assert (open + [dropped])[..|open|] == open;
  }

  lemma ScheduleKeepsChat(w: World, key: Chat, dropped: string, c: Config, other: Chat)
    requires w.state.pending.Valid() && ChatInv(w, other)
    ensures ChatInv(Apply(w, Scheduling(key, dropped), c), other)
  {
    hide BatchText, Batched, TakenOf, Strip;
    var open := TextsOf(w.open, other);
    BatchGrows(open, dropped);
    assert TakenOf(w.taken, other) + open + [dropped] == TakenOf(w.taken, other) + (open + [dropped]);
  }

  lemma TakeKeepsChat(w: World, c: Config, other: Chat)
    requires Enabled(w, Taking) && ChatInv(w, other)
    ensures ChatInv(Apply(w, Taking, c), other)
  {
    hide BatchText, TakenOf, Acquire, Immediate, Loaded, Found, LockFor;
    var key, n := NextChat(w.state), Apply(w, Taking, c);
    TakenSnoc(w.taken, Batch(key, TextsOf(w.open, key)), other);
    assert other in n.state.pending.vals <==> other in w.state.pending.vals && other != key;
    assert TextsOf(n.open, other) == if other == key then [] else TextsOf(w.open, other);
  }

  ghost predicate Inv(w: World, c: Config) {
    && LocksInv(w.state) && OrderInv(w.state)
    && w.state.pending.Valid()
    && |w.taken| == w.state.clock
    && (forall j | j in w.stale || j in w.resolved :: j < w.state.clock)
    && (forall key :: ChatInv(w, key))
    && (forall job | 0 <= job < |w.taken| :: BatchInv(w, job))
    && (forall job | job in w.state.tasks :: ReadInv(w.state, w.stale, job, c))
  }

  lemma StepKeepsChat(w: World, step: Step, c: Config, key: Chat)
    requires Enabled(w, step) && w.state.pending.Valid() && ChatInv(w, key)
    ensures ChatInv(Apply(w, step, c), key)
  {
    match step
    case Scheduling(k, dropped) => ScheduleKeepsChat(w, k, dropped, c, key);
    case Taking => TakeKeepsChat(w, c, key);
    case _ =>
  }

  /** A step resolves a batch exactly when its job ends, and changes no job's key or text. */
  lemma JobFrame(w: World, step: Step, c: Config, job: nat)
    requires Enabled(w, step) && job < w.state.clock
    ensures var n := Apply(w, step, c);
            && (job in n.state.tasks ==> job in w.state.tasks && n.state.tasks[job].key == w.state.tasks[job].key)
            && (job in n.resolved <==> job in w.resolved || (job in w.state.tasks && job !in n.state.tasks))
  {
    hide Strip, Saved, Loaded, Acquire, Immediate, Found, Batched, Doomed, LockFor, Release, Cancel, Resume;
  }

  lemma TextFrame(w: World, step: Step, c: Config, job: nat)
    requires Enabled(w, step) && job < w.state.clock && job in w.state.texts
    ensures var n := Apply(w, step, c); job in n.state.texts && n.state.texts[job] == w.state.texts[job]
  {
  }

  lemma TakenFrame(w: World, step: Step, c: Config, job: nat)
    requires Enabled(w, step) && job < |w.taken|
    ensures var n := Apply(w, step, c); job < |n.taken| && n.taken[job] == w.taken[job]
  {
  }

  lemma OldBatchKept(w: World, step: Step, c: Config, job: nat)
    requires Enabled(w, step) && job < |w.taken| && |w.taken| == w.state.clock && BatchInv(w, job)
    ensures BatchInv(Apply(w, step, c), job)
  {
    JobFrame(w, step, c, job);
    TakenFrame(w, step, c, job);
    if job in w.state.tasks {
      TextFrame(w, step, c, job);
    }
  }

  lemma NewBatch(w: World, c: Config)
    requires Enabled(w, Taking) && Inv(w, c)
    ensures BatchInv(Apply(w, Taking, c), |w.taken|)
  {
    assert ChatInv(w, NextChat(w.state));
    assert NextChat(w.state) in w.state.pending.vals;
  }

  lemma StepKeepsBatches(w: World, step: Step, c: Config)
    requires Inv(w, c) && Enabled(w, step)
    ensures var n := Apply(w, step, c); forall job | 0 <= job < |n.taken| :: BatchInv(n, job)
  {
    var n := Apply(w, step, c);
    forall job | 0 <= job < |n.taken|
      ensures BatchInv(n, job)
    {
      if job < |w.taken| {
        assert BatchInv(w, job);
        OldBatchKept(w, step, c, job);
      } else {
        NewBatch(w, c);
      }
    }
  }

  lemma StepKeepsChats(w: World, step: Step, c: Config)
    requires Inv(w, c) && Enabled(w, step)
    ensures var n := Apply(w, step, c); forall key :: ChatInv(n, key)
  {
    var n := Apply(w, step, c);
    forall key
      ensures ChatInv(n, key)
    {
      assert ChatInv(w, key);
      StepKeepsChat(w, step, c, key);
    }
  }

  lemma StepKeepsReads(w: World, step: Step, c: Config)
    requires Inv(w, c) && Enabled(w, step)
    ensures var n := Apply(w, step, c); forall job | job in n.state.tasks :: ReadInv(n.state, n.stale, job, c)
  {
    var n := Apply(w, step, c);
    forall job | job in n.state.tasks
      ensures ReadInv(n.state, n.stale, job, c)
    {
      StepKeepsRead(w, step, c, job);
    }
  }

  lemma JobsBelowClock(s: State)
    requires LocksInv(s)
    ensures forall j | j in s.tasks :: j < s.clock
  {
    hide L.LockInv;
    assert forall j | j in s.tasks :: JobInv(s, j);
  }

  lemma StepKeepsClock(w: World, step: Step, c: Config)
    requires Inv(w, c) && Enabled(w, step)
    ensures var n := Apply(w, step, c);
            && n.state.pending.Valid() && |n.taken| == n.state.clock
            && (forall j | j in n.stale || j in n.resolved :: j < n.state.clock)
  {
    hide Strip, Saved, Loaded, Acquire, Immediate, Found, Batched, LocksInv, OrderInv, ChatInv, BatchInv, ReadInv, Doomed, OutcomeOf;
    JobsBelowClock(w.state);
  }

  lemma StepKeepsInv(w: World, step: Step, c: Config)
    requires Inv(w, c) && Enabled(w, step)
    ensures Inv(Apply(w, step, c), c)
  {
    StepKeepsLocks(w, step, c);
    StepKeepsOrder(w, step, c);
    StepKeepsChats(w, step, c);
    StepKeepsBatches(w, step, c);
    StepKeepsReads(w, step, c);
    StepKeepsClock(w, step, c);
  }

  // ----- every run -----

  ghost predicate Possible(w: World, steps: seq<Step>, c: Config)
    decreases |steps|
  {
    steps == [] || (Enabled(w, steps[0]) && Possible(Apply(w, steps[0], c), steps[1..], c))
  }

  ghost function After(w: World, steps: seq<Step>, c: Config): World
    requires Possible(w, steps, c)
    decreases |steps|
  {
    if steps == [] then w else After(Apply(w, steps[0], c), steps[1..], c)
  }

  function Start(recaps: map<Chat, string>): World {
    World(State(Empty(), map[], map[], map[], map[], map[], recaps, 0), map[], map[], [], map[], {})
  }

  lemma {:induction false} RunKeepsInv(w: World, steps: seq<Step>, c: Config)
    requires Inv(w, c) && Possible(w, steps, c)
    ensures Inv(After(w, steps, c), c)
    decreases |steps|
  {
    if steps != [] {
      StepKeepsInv(w, steps[0], c);
      RunKeepsInv(Apply(w, steps[0], c), steps[1..], c);
    }
  }

  lemma ReachedInv(recaps: map<Chat, string>, steps: seq<Step>, c: Config)
    requires Possible(Start(recaps), steps, c)
    ensures Inv(After(Start(recaps), steps, c), c)
  {
    RunKeepsInv(Start(recaps), steps, c);
  }

  /** Every text scheduled for a chat is in exactly one of its batches or still pending, in order; the
      batch's job merges just these texts, and ends exactly once, merged or dropped. */
  lemma EveryTextOnce(recaps: map<Chat, string>, steps: seq<Step>, c: Config, key: Chat, job: nat)
    requires Possible(Start(recaps), steps, c)
    ensures var w := After(Start(recaps), steps, c);
            && TextsOf(w.scheduled, key) == TakenOf(w.taken, key) + TextsOf(w.open, key)
            && (key in w.state.pending.vals ==> w.state.pending.vals[key] == BatchText(TextsOf(w.open, key)))
            && (key !in w.state.pending.vals ==> TextsOf(w.open, key) == [])
            && (job < |w.taken| ==>
                  && (job in w.state.tasks <==> job !in w.resolved)
                  && (job in w.state.tasks ==> job in w.state.texts && w.state.texts[job] == BatchText(w.taken[job].texts)))
  {
    ReachedInv(recaps, steps, c);
    var w := After(Start(recaps), steps, c);
    assert ChatInv(w, key);
    if job < |w.taken| {
      assert BatchInv(w, job);
    }
  }

  /** Merges of one chat never overlap, and one that is past the lock was taken before every other of
      the chat that has not been cancelled. */
  lemma OneAtATimeInOrder(recaps: map<Chat, string>, steps: seq<Step>, c: Config, i: nat, j: nat)
    requires Possible(Start(recaps), steps, c)
    requires var s := After(Start(recaps), steps, c).state;
             i in s.tasks && j in s.tasks && s.tasks[i].key == s.tasks[j].key && s.tasks[j].inside
    ensures var s := After(Start(recaps), steps, c).state;
            && (s.tasks[i].inside ==> i == j)
            && s.tasks[i].lock in s.locks
            && (!s.tasks[i].inside && i < j ==> i in DoomedIn(s.locks[s.tasks[i].lock]))
  {
    ReachedInv(recaps, steps, c);
    var s := After(Start(recaps), steps, c).state;
    assert JobInv(s, i) && JobInv(s, j);
    if s.tasks[i].inside {
      NoOverlap(s, i, j);
    } else {
      assert InTurn(s.locks[s.tasks[i].lock], s.tasks, s.tasks[i].lock);
      assert i in L.WaitersOf(s.tasks, s.tasks[i].lock) && j in L.HoldersOf(s.tasks, s.tasks[i].lock);
    }
  }

  lemma HasRead(w: World, job: nat, c: Config)
    requires Inv(w, c) && Merging(w.state, job)
    ensures job in w.state.read && ReadInv(w.state, w.stale, job, c)
  {
    hide OrderInv, ChatInv, BatchInv, L.LockInv, Loaded;
    assert JobInv(w.state, job);
  }

  lemma SaveReplaces(w: World, job: nat, text: string, c: Config)
    requires Merging(w.state, job) && job in w.state.read && Strip(text) != ""
    ensures var n, key := Apply(w, Finishing(job, Answered(text)), c), w.state.tasks[job].key;
            && n.resolved[job] == Merged(w.state.read[job], text)
            && (c.durable(key) ==> Loaded(n.state.recaps, key, c) == c.cap(c.cap(Strip(text))))
            && (forall other | other != key :: Loaded(n.state.recaps, other, c) == Loaded(w.state.recaps, other, c))
  {
    hide Release, Strip;
  }

  /** No update is lost: when a merge saves, the recap it read is the one it replaces, which is what the
      chat's previous successful merge left, unless the chat was forgotten in between. */
  lemma MergeReplacesWhatItRead(recaps: map<Chat, string>, steps: seq<Step>, c: Config, job: nat, text: string)
    requires Possible(Start(recaps), steps, c)
    requires Merging(After(Start(recaps), steps, c).state, job) && Strip(text) != ""
    ensures var w := After(Start(recaps), steps, c);
            var n, key := Apply(w, Finishing(job, Answered(text)), c), w.state.tasks[job].key;
            && job in w.state.read && n.resolved[job] == Merged(w.state.read[job], text)
            && (job !in w.stale ==> w.state.read[job] == Loaded(w.state.recaps, key, c))
            && (c.durable(key) ==> Loaded(n.state.recaps, key, c) == c.cap(c.cap(Strip(text))))
            && (forall other | other != key :: Loaded(n.state.recaps, other, c) == Loaded(w.state.recaps, other, c))
  {
    hide Inv, After, Possible, Strip;
    ReachedInv(recaps, steps, c);
    var w := After(Start(recaps), steps, c);
    HasRead(w, job, c);
    SaveReplaces(w, job, text, c);
  }

  /** A merge that was under way when its chat was forgotten brings back a recap made from the forgotten
      one: the forget handler does not wait for the merge lock. */
  lemma ForgottenRecapReturns(recaps: map<Chat, string>, steps: seq<Step>, c: Config, job: nat, text: string)
    requires Possible(Start(recaps), steps, c)
    requires Merging(After(Start(recaps), steps, c).state, job) && Strip(text) != ""
    ensures var w := After(Start(recaps), steps, c);
            var key := w.state.tasks[job].key;
            var wiped := Apply(w, Forgetting(key), c);
            && Loaded(wiped.state.recaps, key, c) == "" && job in wiped.stale
            && (c.durable(key) <==> key in Apply(wiped, Finishing(job, Answered(text)), c).state.recaps)
  {
    hide Release, Strip, After, Possible;
  }

  /** A chat keeps its place among the pending ones when more is scheduled for it, a new one goes behind
      them, and a worker takes the last. */
  lemma LastChatFirst(s: State, key: Chat, dropped: string, c: Config)
    requires s.pending.Valid() && Strip(dropped) != ""
    ensures var n := Schedule(s, key, dropped);
            && n.pending.keys == (if key in s.pending.vals then s.pending.keys else s.pending.keys + [key])
            && n.pending.keys != []
            && var last := |n.pending.keys| - 1;
            && Take(n, c).pending.keys == n.pending.keys[..last]
            && Take(n, c).tasks[n.clock].key == n.pending.keys[last]
            && Take(n, c).texts[n.clock] == n.pending.vals[n.pending.keys[last]]
  {
    hide Strip, Acquire, Immediate, Loaded, Found, LockFor, Batched;
    var n := Schedule(s, key, dropped);
    assert n.pending.Valid() && key in n.pending.vals;
    WithoutLast(n.pending.keys);
  }

  lemma {:induction false} WithoutLast(keys: seq<Chat>)
    requires keys != [] && Distinct(keys)
    ensures Without(keys, keys[|keys| - 1]) == keys[..|keys| - 1]
  {
    if |keys| > 1 {
      WithoutLast(keys[1..]);
    }
  }

  /** Only a merge with a non-empty answer, of a chat a file may be written for, and a forget change what
      is on file, and only for their chat. */
  lemma RecapChanges(w: World, step: Step, c: Config, key: Chat)
    requires Enabled(w, step)
    ensures var before, after := w.state.recaps, Apply(w, step, c).state.recaps;
            if step.Forgetting? && step.key == key then key !in after
            else if step.Finishing? && w.state.tasks[step.job].key == key && c.durable(key)
                    && step.answer.Answered? && Strip(step.answer.text) != ""
            then key in after && after[key] == c.cap(Strip(step.answer.text))
            else (key in after <==> key in before) && (key in after ==> after[key] == before[key])
  {
    hide Strip, Acquire, Immediate, Found, LockFor, Batched, Release, Cancel, Resume, Doomed;
  }

  // ----- the object -----

  class Merger {
    const config: Config
    var pending: Dict<Chat, string>
    var lockOf: map<Chat, nat>
    var locks: map<nat, Lock>
    var tasks: map<nat, L.Acquisition>
    var texts: map<nat, string>
    var read: map<nat, string>
    var recaps: map<Chat, string>
    var clock: nat

    constructor (recaps: map<Chat, string>, config: Config)
      ensures View() == Start(recaps).state && this.config == config
    {
      this.config := config;
      this.recaps := recaps;
      pending, lockOf, locks, tasks, texts, read, clock := Empty(), map[], map[], map[], map[], map[], 0;
    }

    function View(): State
      reads this
    {
      State(pending, lockOf, locks, tasks, texts, read, recaps, clock)
    }

    method ScheduleDropped(key: Chat, dropped: string)
      requires pending.Valid()
      modifies this`pending
      ensures View() == Schedule(old(View()), key, dropped)
    {
      if Strip(dropped) == "" {
        return;
      }
      var previous := if key in pending.vals then pending.vals[key] else "";
      var batch := Strip(previous + "\n" + dropped);
      pending := pending.Put(key, LastChars(batch, BATCH_CHARS));
    }

    /** lock_for, and the start of `async with`: a lock made on first use, taken or queued for. */
    method AskForLock(key: Chat, job: nat) returns (inside: bool)
      requires job == clock
      modifies this`lockOf, this`locks, this`tasks
      ensures inside == Immediate(Found(old(View()), key))
      ensures lockOf == old(lockOf)[key := LockFor(old(View()), key)]
      ensures locks == old(locks)[LockFor(old(View()), key) := Acquire(Found(old(View()), key), job)]
      ensures tasks == old(tasks)[job := L.Acquisition(key, LockFor(old(View()), key), inside)]
    {
      var lock := if key in lockOf then lockOf[key] else job;
      var found := if lock in locks then locks[lock] else FREE;
      inside := Immediate(found);
      lockOf := lockOf[key := lock];
      locks := locks[lock := Acquire(found, job)];
      tasks := tasks[job := L.Acquisition(key, lock, inside)];
    }

    /** One round of merge_pending up to where it waits: take the last chat's batch, ask for its lock. */
    method TakeBatch() returns (job: nat)
      requires pending.Valid() && pending.keys != []
      modifies this
      ensures View() == Take(old(View()), config) && job == old(clock)
    {
      ghost var was := View();
      job := clock;
      var key := pending.keys[|pending.keys| - 1];
      var inside := AskForLock(key, job);
      texts := texts[job := pending.vals[key]];
      pending := pending.Remove(key);
      if inside {
        read := read[job := Loaded(recaps, key, config)];
      }
      clock := clock + 1;
      assert key == NextChat(was);
    }

    method ResumeBatch(job: nat)
      requires CanResume(View(), job)
      modifies this`locks, this`tasks, this`read
      ensures View() == ResumeJob(old(View()), job, config)
    {
      var a := tasks[job];
      var i := L.PlaceIn(locks[a.lock].waiters, job);
      var doomed := locks[a.lock].waiters[i].doomed;
      locks := locks[a.lock := Resume(locks[a.lock], i)];
      if doomed {
        tasks := tasks - {job};
      } else {
        tasks := tasks[job := a.(inside := true)];
        read := read[job := Loaded(recaps, a.key, config)];
      }
    }

    method FinishBatch(job: nat, answer: Answer)
      requires Merging(View(), job)
      modifies this`locks, this`tasks, this`recaps
      ensures View() == Finish(old(View()), job, answer, config)
    {
      var a := tasks[job];
      if answer.Answered? {
        var recap := Strip(answer.text);
        if recap != "" && config.durable(a.key) {
          recaps := recaps[a.key := config.cap(Strip(answer.text))];
        }
      }
      locks := locks[a.lock := Release(locks[a.lock])];
      tasks := tasks - {job};
    }
  }
}
